/** Inverses in GF(2^8) are unique, so the S-box of section 5.1.1 of FIPS 197 is the only one. */
module AesInverse {
  import opened AesField
  import opened AesTables
  import opened AesAlgebra

  // ---------------------------------------------------------------- multiplication is bilinear

  lemma PartXor(p: bool, q: bool, a: bv8)
    ensures Part(p != q, a) == Add(Part(p, a), Part(q, a))
  {
  }

  lemma PartXtime(p: bool, a: bv8)
    ensures Part(p, Xtime(a)) == Xtime(Part(p, a))
  {
    assert Xtime(0) == 0;
    hide Xtime;
  }

  lemma BitsOfSum(b: bv8, c: bv8)
    ensures forall k: nat | k < 8 :: Bit(Add(b, c), k) == (Bit(b, k) != Bit(c, k))
  {
  }

  lemma MulExpanded(a: bv8, b: bv8)
    ensures var a1 := Xtime(a);
            var a2 := Xtime(a1);
            var a3 := Xtime(a2);
            var a4 := Xtime(a3);
            var a5 := Xtime(a4);
            var a6 := Xtime(a5);
            var a7 := Xtime(a6);
            Mul(a, b) == Add(Sum4(Part(Bit(b, 0), a), Part(Bit(b, 1), a1), Part(Bit(b, 2), a2), Part(Bit(b, 3), a3)),
                             Sum4(Part(Bit(b, 4), a4), Part(Bit(b, 5), a5), Part(Bit(b, 6), a6), Part(Bit(b, 7), a7)))
  {
    hide Add, Bit, Part, Sum4, Xtime;
  }

  lemma PartsAdd(p0: bool, p1: bool, p2: bool, p3: bool, q0: bool, q1: bool, q2: bool, q3: bool,
                 a0: bv8, a1: bv8, a2: bv8, a3: bv8)
    ensures Sum4(Part(p0 != q0, a0), Part(p1 != q1, a1), Part(p2 != q2, a2), Part(p3 != q3, a3))
         == Add(Sum4(Part(p0, a0), Part(p1, a1), Part(p2, a2), Part(p3, a3)),
                Sum4(Part(q0, a0), Part(q1, a1), Part(q2, a2), Part(q3, a3)))
  {
    hide Add, Part, Sum4;
    PartXor(p0, q0, a0);
    PartXor(p1, q1, a1);
    PartXor(p2, q2, a2);
    PartXor(p3, q3, a3);
    Sum4Linear(Part(p0, a0), Part(p1, a1), Part(p2, a2), Part(p3, a3),
               Part(q0, a0), Part(q1, a1), Part(q2, a2), Part(q3, a3));
  }

  /** The multiple of a by the lower four coefficients of b, and by the upper four. */
  function LowParts(a: bv8, b: bv8): bv8 { LowPick(b, a, Xtime(a), Xtime(Xtime(a)), Xtime(Xtime(Xtime(a)))) }

  function HighParts(a4: bv8, b: bv8): bv8 { HighPick(b, a4, Xtime(a4), Xtime(Xtime(a4)), Xtime(Xtime(Xtime(a4)))) }

  function LowPick(b: bv8, a0: bv8, a1: bv8, a2: bv8, a3: bv8): bv8 {
    Sum4(Part(Bit(b, 0), a0), Part(Bit(b, 1), a1), Part(Bit(b, 2), a2), Part(Bit(b, 3), a3))
  }

  function HighPick(b: bv8, a4: bv8, a5: bv8, a6: bv8, a7: bv8): bv8 {
    Sum4(Part(Bit(b, 4), a4), Part(Bit(b, 5), a5), Part(Bit(b, 6), a6), Part(Bit(b, 7), a7))
  }

  function FourTimes(a: bv8): bv8 { Xtime(Xtime(Xtime(Xtime(a)))) }

  lemma MulHalves(a: bv8, b: bv8)
    ensures Mul(a, b) == Add(LowParts(a, b), HighParts(FourTimes(a), b))
  {
    hide Add, Bit, Part, Sum4, Xtime;
  }

  lemma LowAdds(a: bv8, b: bv8, c: bv8)
    ensures LowParts(a, Add(b, c)) == Add(LowParts(a, b), LowParts(a, c))
  {
    hide Add, Bit, Part, Sum4, Xtime;
    BitsOfSum(b, c);
    PartsAdd(Bit(b, 0), Bit(b, 1), Bit(b, 2), Bit(b, 3), Bit(c, 0), Bit(c, 1), Bit(c, 2), Bit(c, 3),
             a, Xtime(a), Xtime(Xtime(a)), Xtime(Xtime(Xtime(a))));
  }

  lemma HighAdds(a: bv8, b: bv8, c: bv8)
    ensures HighParts(a, Add(b, c)) == Add(HighParts(a, b), HighParts(a, c))
  {
    hide Add, Bit, Part, Sum4, Xtime;
    BitsOfSum(b, c);
    PartsAdd(Bit(b, 4), Bit(b, 5), Bit(b, 6), Bit(b, 7), Bit(c, 4), Bit(c, 5), Bit(c, 6), Bit(c, 7),
             a, Xtime(a), Xtime(Xtime(a)), Xtime(Xtime(Xtime(a))));
  }

  lemma MulAdds(a: bv8, b: bv8, c: bv8)
    ensures Mul(a, Add(b, c)) == Add(Mul(a, b), Mul(a, c))
  {
    hide Add, Mul, LowParts, HighParts, FourTimes;
    var a4 := FourTimes(a);
    MulHalves(a, b);
    MulHalves(a, c);
    MulHalves(a, Add(b, c));
    LowAdds(a, b, c);
    HighAdds(a4, b, c);
    Interchange(LowParts(a, b), LowParts(a, c), HighParts(a4, b), HighParts(a4, c));
  }

  lemma XtimeSum4(a: bv8, b: bv8, c: bv8, d: bv8)
    ensures Xtime(Sum4(a, b, c, d)) == Sum4(Xtime(a), Xtime(b), Xtime(c), Xtime(d))
  {
    hide Add, Xtime;
    XtimeLinear(Add(Add(a, b), c), d);
    XtimeLinear(Add(a, b), c);
    XtimeLinear(a, b);
  }

  /** Four steps: the low half moves up, and the high half comes back times x^4 + x^3 + x + 1. */
  function Folded(b: bv8): bv8 { (b << 4) ^ (b >> 4) ^ ((b >> 4) << 1) ^ ((b >> 4) << 3) ^ ((b >> 4) << 4) }

  lemma Fourth(a: bv8)
    ensures Xtime(Xtime(Xtime(Xtime(a)))) == Folded(a)
  {
  }

  lemma FoldedTwice(a: bv8)
    ensures Folded(Folded(a)) == Sum4(a, Xtime(a), Xtime(Xtime(Xtime(a))), Folded(a))
  {
  }

  /** x^8 is x^4 + x^3 + x + 1. */
  lemma Eighth(a: bv8)
    ensures var a4 := Xtime(Xtime(Xtime(Xtime(a))));
            Xtime(Xtime(Xtime(Xtime(a4)))) == Sum4(a, Xtime(a), Xtime(Xtime(Xtime(a))), a4)
  {
    hide Xtime, Sum4, Folded;
    Fourth(a);
    Fourth(Folded(a));
    FoldedTwice(a);
  }

  lemma BitsOfXtime(b: bv8)
    ensures Bit(Xtime(b), 0) == Bit(b, 7) && Bit(Xtime(b), 1) == (Bit(b, 0) != Bit(b, 7))
            && Bit(Xtime(b), 2) == Bit(b, 1)
    ensures Bit(Xtime(b), 3) == (Bit(b, 2) != Bit(b, 7)) && Bit(Xtime(b), 4) == (Bit(b, 3) != Bit(b, 7))
    ensures Bit(Xtime(b), 5) == Bit(b, 4) && Bit(Xtime(b), 6) == Bit(b, 5) && Bit(Xtime(b), 7) == Bit(b, 6)
  {
  }

  lemma AddZero(a: bv8)
    ensures Add(a, 0) == a && Add(0, a) == a
  {
  }

  lemma GatherFour(q0: bv8, q1: bv8, q3: bv8, q4: bv8)
    ensures Add(Sum4(q0, q1, 0, q3), Sum4(q4, 0, 0, 0)) == Sum4(q0, q1, q3, q4)
  {
    hide Add;
    AddZero(Add(q0, q1));
    AddZero(q4);
  }

  lemma GatherSeven(p0: bv8, p1: bv8, p2: bv8, p3: bv8, p4: bv8, p5: bv8, p6: bv8, q: bv8)
    ensures Add(Add(Sum4(0, p0, p1, p2), Sum4(p3, p4, p5, p6)), q) == Add(Sum4(p0, p1, p2, p3), Sum4(p4, p5, p6, q))
  {
    hide Add;
    var first, last := Add(Add(p0, p1), p2), Add(Add(p4, p5), p6);
    AddZero(p0);
    AddAssociates(p3, p4, p5);
    AddAssociates(p3, Add(p4, p5), p6);
    AddAssociates(first, p3, last);
    AddAssociates(Add(first, p3), last, q);
  }

  /** Moving the multiples that the carry brings in to the end. */
  lemma Rotated(p0: bv8, p1: bv8, p2: bv8, p3: bv8, p4: bv8, p5: bv8, p6: bv8, q0: bv8, q1: bv8, q3: bv8, q4: bv8)
    ensures Add(Sum4(q0, Add(p0, q1), p1, Add(p2, q3)), Sum4(Add(p3, q4), p4, p5, p6))
         == Add(Sum4(p0, p1, p2, p3), Sum4(p4, p5, p6, Sum4(q0, q1, q3, q4)))
  {
    hide Add, Sum4;
    AddZero(q0);
    AddZero(p1);
    AddZero(p4);
    AddZero(p5);
    AddZero(p6);
    Sum4Linear(0, p0, p1, p2, q0, q1, 0, q3);
    Sum4Linear(p3, p4, p5, p6, q4, 0, 0, 0);
    Interchange(Sum4(0, p0, p1, p2), Sum4(q0, q1, 0, q3), Sum4(p3, p4, p5, p6), Sum4(q4, 0, 0, 0));
    GatherFour(q0, q1, q3, q4);
    GatherSeven(p0, p1, p2, p3, p4, p5, p6, Sum4(q0, q1, q3, q4));
  }

  lemma PartSum4(p: bool, a: bv8, b: bv8, c: bv8, d: bv8)
    ensures Part(p, Sum4(a, b, c, d)) == Sum4(Part(p, a), Part(p, b), Part(p, c), Part(p, d))
  {
    assert Sum4(0, 0, 0, 0) == 0;
    hide Sum4;
  }

  lemma XtimeLow(a: bv8, b: bv8)
    ensures Xtime(LowParts(a, b)) == LowParts(Xtime(a), b)
  {
    hide Add, Bit, Part, Sum4, Xtime;
    var a1 := Xtime(a);
    var a2 := Xtime(a1);
    PartXtime(Bit(b, 0), a);
    PartXtime(Bit(b, 1), a1);
    PartXtime(Bit(b, 2), a2);
    PartXtime(Bit(b, 3), Xtime(a2));
    XtimeSum4(Part(Bit(b, 0), a), Part(Bit(b, 1), a1), Part(Bit(b, 2), a2), Part(Bit(b, 3), Xtime(a2)));
  }

  lemma XtimeHigh(a: bv8, b: bv8)
    ensures Xtime(HighParts(a, b)) == HighParts(Xtime(a), b)
  {
    hide Add, Bit, Part, Sum4, Xtime;
    var a1 := Xtime(a);
    var a2 := Xtime(a1);
    PartXtime(Bit(b, 4), a);
    PartXtime(Bit(b, 5), a1);
    PartXtime(Bit(b, 6), a2);
    PartXtime(Bit(b, 7), Xtime(a2));
    XtimeSum4(Part(Bit(b, 4), a), Part(Bit(b, 5), a1), Part(Bit(b, 6), a2), Part(Bit(b, 7), Xtime(a2)));
  }

  lemma XtimeMul(a: bv8, b: bv8)
    ensures Xtime(Mul(a, b)) == Mul(Xtime(a), b)
  {
    hide Add, Mul, LowParts, HighParts, Xtime;
    MulHalves(a, b);
    MulHalves(Xtime(a), b);
    XtimeLinear(LowParts(a, b), HighParts(FourTimes(a), b));
    XtimeLow(a, b);
    XtimeHigh(FourTimes(a), b);
  }

  lemma RotatedParts(b0: bool, b1: bool, b2: bool, b3: bool, b4: bool, b5: bool, b6: bool, b7: bool,
                     a: bv8, a1: bv8, a2: bv8, a3: bv8, a4: bv8, a5: bv8, a6: bv8, a7: bv8)
    ensures Add(Sum4(Part(b7, a), Part(b0 != b7, a1), Part(b1, a2), Part(b2 != b7, a3)),
                Sum4(Part(b3 != b7, a4), Part(b4, a5), Part(b5, a6), Part(b6, a7)))
         == Add(Sum4(Part(b0, a1), Part(b1, a2), Part(b2, a3), Part(b3, a4)),
                Sum4(Part(b4, a5), Part(b5, a6), Part(b6, a7), Part(b7, Sum4(a, a1, a3, a4))))
  {
    hide Add, Part, Sum4;
    PartXor(b0, b7, a1);
    PartXor(b2, b7, a3);
    PartXor(b3, b7, a4);
    PartSum4(b7, a, a1, a3, a4);
    Rotated(Part(b0, a1), Part(b1, a2), Part(b2, a3), Part(b3, a4), Part(b4, a5), Part(b5, a6), Part(b6, a7),
            Part(b7, a), Part(b7, a1), Part(b7, a3), Part(b7, a4));
  }

  /** Any eight multiples, picked by the coefficients of a product with x, and by those of the byte itself. */
  lemma ShiftedPicks(b: bv8, a: bv8, a1: bv8, a2: bv8, a3: bv8, a4: bv8, a5: bv8, a6: bv8, a7: bv8)
    ensures Add(LowPick(Xtime(b), a, a1, a2, a3), HighPick(Xtime(b), a4, a5, a6, a7))
         == Add(LowPick(b, a1, a2, a3, a4), HighPick(b, a5, a6, a7, Sum4(a, a1, a3, a4)))
  {
    hide Add, Bit, Part, Sum4, Xtime;
    BitsOfXtime(b);
    RotatedParts(Bit(b, 0), Bit(b, 1), Bit(b, 2), Bit(b, 3), Bit(b, 4), Bit(b, 5), Bit(b, 6), Bit(b, 7),
                 a, a1, a2, a3, a4, a5, a6, a7);
  }

  lemma ShiftedParts(a: bv8, b: bv8)
    ensures Add(LowParts(a, Xtime(b)), HighParts(FourTimes(a), Xtime(b)))
         == Add(LowParts(Xtime(a), b), HighParts(FourTimes(Xtime(a)), b))
  {
    hide Add, Sum4, Xtime, LowPick, HighPick;
    Eighth(a);
    var a2 := Xtime(Xtime(a));
    var a4 := Xtime(Xtime(a2));
    ShiftedPicks(b, a, Xtime(a), a2, Xtime(a2), a4, Xtime(a4), Xtime(Xtime(a4)), Xtime(Xtime(Xtime(a4))));
  }

  lemma MulXtime(a: bv8, b: bv8)
    ensures Mul(a, Xtime(b)) == Xtime(Mul(a, b))
  {
    hide Add, Mul, LowParts, HighParts, FourTimes, Xtime;
    XtimeMul(a, b);
    MulHalves(a, Xtime(b));
    MulHalves(Xtime(a), b);
    ShiftedParts(a, b);
  }

  // ---------------------------------------------------------------- and associative

  lemma MulPart(a: bv8, p: bool, b: bv8)
    ensures Mul(a, Part(p, b)) == Part(p, Mul(a, b))
  {
    assert Mul(a, 0) == 0 by { MulZero(a); }
    hide Mul;
  }

  lemma MulZero(a: bv8)
    ensures Mul(a, 0) == 0
  {
    hide Xtime;
  }

  lemma MulSum4(a: bv8, b: bv8, c: bv8, d: bv8, e: bv8)
    ensures Mul(a, Sum4(b, c, d, e)) == Sum4(Mul(a, b), Mul(a, c), Mul(a, d), Mul(a, e))
  {
    hide Mul, Add;
    MulAdds(a, Add(Add(b, c), d), e);
    MulAdds(a, Add(b, c), d);
    MulAdds(a, b, c);
  }

  lemma MulAssociates(a: bv8, b: bv8, c: bv8)
    ensures Mul(a, Mul(b, c)) == Mul(Mul(a, b), c)
  {
    var b1 := Xtime(b);
    var b2 := Xtime(b1);
    var b3 := Xtime(b2);
    var b4 := Xtime(b3);
    var b5 := Xtime(b4);
    var b6 := Xtime(b5);
    var b7 := Xtime(b6);
    MulExpanded(b, c);
    MulExpanded(Mul(a, b), c);
    hide Add, Bit, Part, Sum4, Xtime, Mul;
    MulXtime(a, b);
    MulXtime(a, b1);
    MulXtime(a, b2);
    MulXtime(a, b3);
    MulXtime(a, b4);
    MulXtime(a, b5);
    MulXtime(a, b6);
    MulPart(a, Bit(c, 0), b);
    MulPart(a, Bit(c, 1), b1);
    MulPart(a, Bit(c, 2), b2);
    MulPart(a, Bit(c, 3), b3);
    MulPart(a, Bit(c, 4), b4);
    MulPart(a, Bit(c, 5), b5);
    MulPart(a, Bit(c, 6), b6);
    MulPart(a, Bit(c, 7), b7);
    var low := Sum4(Part(Bit(c, 0), b), Part(Bit(c, 1), b1), Part(Bit(c, 2), b2), Part(Bit(c, 3), b3));
    var high := Sum4(Part(Bit(c, 4), b4), Part(Bit(c, 5), b5), Part(Bit(c, 6), b6), Part(Bit(c, 7), b7));
    MulSum4(a, Part(Bit(c, 0), b), Part(Bit(c, 1), b1), Part(Bit(c, 2), b2), Part(Bit(c, 3), b3));
    MulSum4(a, Part(Bit(c, 4), b4), Part(Bit(c, 5), b5), Part(Bit(c, 6), b6), Part(Bit(c, 7), b7));
    MulAdds(a, low, high);
  }

  lemma BitsOfOne()
    ensures Bit(1, 0) && forall k: nat | 1 <= k < 8 :: !Bit(1, k)
  {
  }

  lemma TimesOne(a: bv8)
    ensures Mul(a, 1) == a
  {
    MulExpanded(a, 1);
    hide Bit, Xtime, Mul, Add;
    BitsOfOne();
    AddZero(a);
    AddZero(0);
  }

  lemma PowersOfTwo()
    ensures Xtime(0x01) == 0x02 && Xtime(0x02) == 0x04 && Xtime(0x04) == 0x08 && Xtime(0x08) == 0x10
    ensures Xtime(0x10) == 0x20 && Xtime(0x20) == 0x40 && Xtime(0x40) == 0x80
  {
  }

  lemma OneTimes(a: bv8)
    ensures Mul(1, a) == a
  {
    hide Xtime;
    PowersOfTwo();
  }

  lemma MulOne(a: bv8)
    ensures Mul(a, 1) == a && Mul(1, a) == a
  {
    hide Mul;
    TimesOne(a);
    OneTimes(a);
  }

  // ---------------------------------------------------------------- inverses

  /** A right inverse is the inverse: its own inverse is the element it came from. */
  lemma InverseOfInverse(x: bv8)
    requires x != 0
    ensures var w := InvAffine(SubByte(x)); Mul(x, w) == 1 && Mul(w, x) == 1
  {
    hide Mul, InvAffine, SubByte;
    var w := InvAffine(SubByte(x));
    SubByteInverse(x);
    MulZero(x);
    SubByteInverse(w);
    var v := InvAffine(SubByte(w));
    MulAssociates(x, w, v);
    MulOne(x);
    MulOne(v);
  }

  lemma InverseUnique(x: bv8, y: bv8, z: bv8)
    requires Mul(x, y) == 1 && Mul(x, z) == 1
    ensures y == z
  {
    hide Mul, InvAffine, SubByte;
    if x == 0 {
      ZeroMul(y);
      assert false;
    } else {
      var w := InvAffine(SubByte(x));
      InverseOfInverse(x);
      MulAssociates(w, x, y);
      MulAssociates(w, x, z);
      MulOne(y);
      MulOne(z);
    }
  }

  lemma ZeroMul(a: bv8)
    ensures Mul(0, a) == 0
  {
    assert Xtime(0) == 0;
    hide Xtime;
  }

  /** The S-box is what section 5.1.1 of FIPS 197 describes, and nothing else is. */
  lemma SubByteIsOnlyFips(x: bv8, s: bv8)
    ensures IsSubByte(x, s) <==> s == SubByte(x)
  {
    hide Mul, Affine, InvAffine, SubByte;
    SubByteIsFips(x);
    if IsSubByte(x, s) {
      var y: bv8 :| s == Affine(y) && IsInverse(x, y);
      var z: bv8 :| SubByte(x) == Affine(z) && IsInverse(x, z);
      if x != 0 {
        InverseUnique(x, y, z);
      }
    }
  }
}
