/** Decryption undoes encryption: the algebra of the AES transformations, and the induction over rounds. */
module AesAlgebra {
  import opened AesField
  import opened AesTables
  import opened AesSpec

  // ---------------------------------------------------------------- field elements

  lemma AddCommutes(a: bv8, b: bv8)
    ensures Add(a, b) == Add(b, a)
  {
  }

  lemma AddAssociates(a: bv8, b: bv8, c: bv8)
    ensures Add(Add(a, b), c) == Add(a, Add(b, c))
  {
  }

  lemma Interchange(a: bv8, b: bv8, c: bv8, d: bv8)
    ensures Add(Add(a, b), Add(c, d)) == Add(Add(a, c), Add(b, d))
  {
    hide Add;
    AddAssociates(a, b, Add(c, d));
    AddAssociates(b, c, d);
    AddCommutes(b, c);
    AddAssociates(c, b, d);
    AddAssociates(a, c, Add(b, d));
  }

  lemma Sum4Linear(a: bv8, b: bv8, c: bv8, d: bv8, e: bv8, f: bv8, g: bv8, h: bv8)
    ensures Sum4(Add(a, e), Add(b, f), Add(c, g), Add(d, h)) == Add(Sum4(a, b, c, d), Sum4(e, f, g, h))
  {
    hide Add;
    Interchange(a, e, b, f);
    Interchange(Add(a, b), Add(e, f), c, g);
    Interchange(Add(Add(a, b), c), Add(Add(e, f), g), d, h);
  }

  lemma ShiftLinear(a: bv8, b: bv8)
    ensures Add(a, b) << 1 == Add(a << 1, b << 1)
  {
  }

  lemma ReductionLinear(a: bv8, b: bv8)
    ensures Reduction(Add(a, b)) == Add(Reduction(a), Reduction(b))
  {
  }

  /** Multiplication by x distributes over addition. */
  lemma XtimeLinear(a: bv8, b: bv8)
    ensures Xtime(Add(a, b)) == Add(Xtime(a), Xtime(b))
  {
    hide Add, Reduction;
    ShiftLinear(a, b);
    ReductionLinear(a, b);
    Interchange(a << 1, b << 1, Reduction(a), Reduction(b));
  }

  lemma PowersLinear(a: bv8, b: bv8)
    ensures Xtime(Add(a, b)) == Add(Xtime(a), Xtime(b))
    ensures Xtime(Xtime(Add(a, b))) == Add(Xtime(Xtime(a)), Xtime(Xtime(b)))
    ensures Xtime(Xtime(Xtime(Add(a, b)))) == Add(Xtime(Xtime(Xtime(a))), Xtime(Xtime(Xtime(b))))
  {
    hide Xtime, Add;
    XtimeLinear(a, b);
    XtimeLinear(Xtime(a), Xtime(b));
    XtimeLinear(Xtime(Xtime(a)), Xtime(Xtime(b)));
  }

  lemma MulLinear(a: bv8, b: bv8)
    ensures Mul9(Add(a, b)) == Add(Mul9(a), Mul9(b))
    ensures Mul11(Add(a, b)) == Add(Mul11(a), Mul11(b))
    ensures Mul13(Add(a, b)) == Add(Mul13(a), Mul13(b))
    ensures Mul14(Add(a, b)) == Add(Mul14(a), Mul14(b))
  {
    hide Xtime, Add;
    PowersLinear(a, b);
    var a1, a2, a3 := Xtime(a), Xtime(Xtime(a)), Xtime(Xtime(Xtime(a)));
    var b1, b2, b3 := Xtime(b), Xtime(Xtime(b)), Xtime(Xtime(Xtime(b)));
    Interchange(a3, b3, a, b);
    Interchange(a3, b3, a1, b1);
    Interchange(Add(a3, a1), Add(b3, b1), a, b);
    Interchange(a3, b3, a2, b2);
    Interchange(Add(a3, a2), Add(b3, b2), a, b);
    Interchange(Add(a3, a2), Add(b3, b2), a1, b1);
  }

  // ---------------------------------------------------------------- columns

  /** InvMixColumns distributes over the addition of a round key. */
  lemma InvMixLinear(a: Column, b: Column)
    ensures InvMixColumn(AddColumn(a, b)) == AddColumn(InvMixColumn(a), InvMixColumn(b))
  {
    hide Mul9, Mul11, Mul13, Mul14, Add, Sum4;
    MulLinear(a.b0, b.b0);
    MulLinear(a.b1, b.b1);
    MulLinear(a.b2, b.b2);
    MulLinear(a.b3, b.b3);
    Sum4Linear(Mul14(a.b0), Mul11(a.b1), Mul13(a.b2), Mul9(a.b3), Mul14(b.b0), Mul11(b.b1), Mul13(b.b2), Mul9(b.b3));
    Sum4Linear(Mul9(a.b0), Mul14(a.b1), Mul11(a.b2), Mul13(a.b3), Mul9(b.b0), Mul14(b.b1), Mul11(b.b2), Mul13(b.b3));
    Sum4Linear(Mul13(a.b0), Mul9(a.b1), Mul14(a.b2), Mul11(a.b3), Mul13(b.b0), Mul9(b.b1), Mul14(b.b2), Mul11(b.b3));
    Sum4Linear(Mul11(a.b0), Mul13(a.b1), Mul9(a.b2), Mul14(a.b3), Mul11(b.b0), Mul13(b.b1), Mul9(b.b2), Mul14(b.b3));
  }

  /** What one byte of a column contributes to its mixed column, by the row it stands in. */
  function Mixed0(b: bv8): Column { Column(Xtime(b), b, b, Mul3(b)) }

  function Mixed1(b: bv8): Column { Column(Mul3(b), Xtime(b), b, b) }

  function Mixed2(b: bv8): Column { Column(b, Mul3(b), Xtime(b), b) }

  function Mixed3(b: bv8): Column { Column(b, b, Mul3(b), Xtime(b)) }

  lemma MixIsSum(c: Column)
    ensures MixColumn(c) == AddColumn(AddColumn(AddColumn(Mixed0(c.b0), Mixed1(c.b1)), Mixed2(c.b2)), Mixed3(c.b3))
  {
    hide Xtime, Mul3, Add;
  }

  /** The coefficients of InvMixColumns invert those of MixColumns. */
  lemma CoefficientProducts(b: bv8)
    ensures Sum4(Mul14(Xtime(b)), Mul11(b), Mul13(b), Mul9(Mul3(b))) == b
    ensures Sum4(Mul9(Xtime(b)), Mul14(b), Mul11(b), Mul13(Mul3(b))) == 0
    ensures Sum4(Mul13(Xtime(b)), Mul9(b), Mul14(b), Mul11(Mul3(b))) == 0
    ensures Sum4(Mul11(Xtime(b)), Mul13(b), Mul9(b), Mul14(Mul3(b))) == 0
  {
    hide Mul9, Mul11, Mul13, Mul14, Mul3, Xtime, Sum4, Add;
    FirstProduct(b);
    SecondProduct(b);
    ThirdProduct(b);
    FourthProduct(b);
  }

  /** The multiples of b + x b. */
  lemma Multiples3(b: bv8)
    ensures Mul9(Mul3(b)) == Add(Mul9(Xtime(b)), Mul9(b)) && Mul11(Mul3(b)) == Add(Mul11(Xtime(b)), Mul11(b))
    ensures Mul13(Mul3(b)) == Add(Mul13(Xtime(b)), Mul13(b)) && Mul14(Mul3(b)) == Add(Mul14(Xtime(b)), Mul14(b))
  {
    hide Mul9, Mul11, Mul13, Mul14, Add, Xtime;
    MulLinear(Xtime(b), b);
  }

  /** With x1 to x16 for the multiples of a byte by powers of x, everything cancels but the byte itself. */
  lemma FirstCancels(x1: bv8, x2: bv8, x4: bv8, x8: bv8, x16: bv8)
    ensures Sum4(Add(Add(x16, x8), x4), Add(Add(x8, x2), x1), Add(Add(x8, x4), x1),
                 Add(Add(x16, x2), Add(x8, x1))) == x1
  {
  }

  lemma FirstProduct(b: bv8)
    ensures Sum4(Mul14(Xtime(b)), Mul11(b), Mul13(b), Mul9(Mul3(b))) == b
  {
    hide Add, Xtime, Mul3, Sum4;
    Multiples3(b);
    var x2 := Xtime(b);
    FirstCancels(b, x2, Xtime(x2), Xtime(Xtime(x2)), Xtime(Xtime(Xtime(x2))));
  }

  /** With x1 to x16 for the multiples of a byte by powers of x, everything cancels. */
  lemma SecondCancels(x1: bv8, x2: bv8, x4: bv8, x8: bv8, x16: bv8)
    ensures Sum4(Add(x16, x2), Add(Add(x8, x4), x2), Add(Add(x8, x2), x1),
                 Add(Add(Add(x16, x8), x2), Add(Add(x8, x4), x1))) == 0
  {
  }

  lemma SecondProduct(b: bv8)
    ensures Sum4(Mul9(Xtime(b)), Mul14(b), Mul11(b), Mul13(Mul3(b))) == 0
  {
    hide Add, Xtime, Mul3, Sum4;
    Multiples3(b);
    var x2 := Xtime(b);
    SecondCancels(b, x2, Xtime(x2), Xtime(Xtime(x2)), Xtime(Xtime(Xtime(x2))));
  }

  /** With x1 to x16 for the multiples of a byte by powers of x, everything cancels. */
  lemma ThirdCancels(x1: bv8, x2: bv8, x4: bv8, x8: bv8, x16: bv8)
    ensures Sum4(Add(Add(x16, x8), x2), Add(x8, x1), Add(Add(x8, x4), x2),
                 Add(Add(Add(x16, x4), x2), Add(Add(x8, x2), x1))) == 0
  {
  }

  lemma ThirdProduct(b: bv8)
    ensures Sum4(Mul13(Xtime(b)), Mul9(b), Mul14(b), Mul11(Mul3(b))) == 0
  {
    hide Add, Xtime, Mul3, Sum4;
    Multiples3(b);
    var x2 := Xtime(b);
    ThirdCancels(b, x2, Xtime(x2), Xtime(Xtime(x2)), Xtime(Xtime(Xtime(x2))));
  }

  /** With x1 to x16 for the multiples of a byte by powers of x, everything cancels. */
  lemma FourthCancels(x1: bv8, x2: bv8, x4: bv8, x8: bv8, x16: bv8)
    ensures Sum4(Add(Add(x16, x4), x2), Add(Add(x8, x4), x1), Add(x8, x1),
                 Add(Add(Add(x16, x8), x4), Add(Add(x8, x4), x2))) == 0
  {
  }

  lemma FourthProduct(b: bv8)
    ensures Sum4(Mul11(Xtime(b)), Mul13(b), Mul9(b), Mul14(Mul3(b))) == 0
  {
    hide Add, Xtime, Mul3, Sum4;
    Multiples3(b);
    var x2 := Xtime(b);
    FourthCancels(b, x2, Xtime(x2), Xtime(Xtime(x2)), Xtime(Xtime(Xtime(x2))));
  }

  lemma Cycle(a: bv8, b: bv8, c: bv8, d: bv8)
    ensures Sum4(a, b, c, d) == Sum4(d, a, b, c)
  {
    hide Add;
    AddCommutes(Add(Add(a, b), c), d);
    AddAssociates(d, Add(a, b), c);
    AddAssociates(d, a, b);
  }

  lemma UnmixByte0(b: bv8)
    ensures InvMixColumn(Mixed0(b)) == Column(b, 0, 0, 0)
  {
    hide Xtime, Mul3, Mul9, Mul11, Mul13, Mul14, Add, Sum4;
    CoefficientProducts(b);
  }

  lemma UnmixByte1(b: bv8)
    ensures InvMixColumn(Mixed1(b)) == Column(0, b, 0, 0)
  {
    hide Xtime, Mul3, Mul9, Mul11, Mul13, Mul14, Add, Sum4;
    CoefficientProducts(b);
    Cycle(Mul14(Xtime(b)), Mul11(b), Mul13(b), Mul9(Mul3(b)));
    Cycle(Mul9(Xtime(b)), Mul14(b), Mul11(b), Mul13(Mul3(b)));
    Cycle(Mul13(Xtime(b)), Mul9(b), Mul14(b), Mul11(Mul3(b)));
    Cycle(Mul11(Xtime(b)), Mul13(b), Mul9(b), Mul14(Mul3(b)));
  }

  lemma UnmixByte2(b: bv8)
    ensures InvMixColumn(Mixed2(b)) == Column(0, 0, b, 0)
  {
    hide Xtime, Mul3, Mul9, Mul11, Mul13, Mul14, Add, Sum4;
    UnmixByte1(b);
    Cycle(Mul14(Mul3(b)), Mul11(Xtime(b)), Mul13(b), Mul9(b));
    Cycle(Mul9(Mul3(b)), Mul14(Xtime(b)), Mul11(b), Mul13(b));
    Cycle(Mul13(Mul3(b)), Mul9(Xtime(b)), Mul14(b), Mul11(b));
    Cycle(Mul11(Mul3(b)), Mul13(Xtime(b)), Mul9(b), Mul14(b));
  }

  lemma UnmixByte3(b: bv8)
    ensures InvMixColumn(Mixed3(b)) == Column(0, 0, 0, b)
  {
    hide Xtime, Mul3, Mul9, Mul11, Mul13, Mul14, Add, Sum4;
    UnmixByte2(b);
    Cycle(Mul14(b), Mul11(Mul3(b)), Mul13(Xtime(b)), Mul9(b));
    Cycle(Mul9(b), Mul14(Mul3(b)), Mul11(Xtime(b)), Mul13(b));
    Cycle(Mul13(b), Mul9(Mul3(b)), Mul14(Xtime(b)), Mul11(b));
    Cycle(Mul11(b), Mul13(Mul3(b)), Mul9(Xtime(b)), Mul14(b));
  }

  lemma SplitColumn(c: Column)
    ensures AddColumn(AddColumn(AddColumn(Column(c.b0, 0, 0, 0), Column(0, c.b1, 0, 0)), Column(0, 0, c.b2, 0)),
                      Column(0, 0, 0, c.b3)) == c
  {
  }

  /** InvMixColumns undoes MixColumns. */
  lemma InvMixMix(c: Column)
    ensures InvMixColumn(MixColumn(c)) == c
  {
    hide InvMixColumn, MixColumn, AddColumn, Mixed0, Mixed1, Mixed2, Mixed3;
    MixIsSum(c);
    var m01 := AddColumn(Mixed0(c.b0), Mixed1(c.b1));
    InvMixLinear(AddColumn(m01, Mixed2(c.b2)), Mixed3(c.b3));
    InvMixLinear(m01, Mixed2(c.b2));
    InvMixLinear(Mixed0(c.b0), Mixed1(c.b1));
    UnmixByte0(c.b0);
    UnmixByte1(c.b1);
    UnmixByte2(c.b2);
    UnmixByte3(c.b3);
    SplitColumn(c);
  }

  lemma AddColumnTwice(a: Column, k: Column)
    ensures AddColumn(AddColumn(a, k), k) == a
  {
  }

  lemma InvSubColumnSubColumn(c: Column)
    ensures InvSubColumn(SubColumn(c)) == c
  {
    hide SubByte, InvSubByte;
    InvSubByteSubByte(c.b0);
    InvSubByteSubByte(c.b1);
    InvSubByteSubByte(c.b2);
    InvSubByteSubByte(c.b3);
  }

  lemma UndoMixColumn(c: Column, k: Column)
    ensures AddColumn(InvMixColumn(AddColumn(MixColumn(c), k)), InvMixColumn(k)) == c
  {
    hide MixColumn, InvMixColumn, AddColumn;
    InvMixLinear(MixColumn(c), k);
    InvMixMix(c);
    AddColumnTwice(c, InvMixColumn(k));
  }

  // ---------------------------------------------------------------- blocks

  lemma AddRoundKeyTwice(s: Block, k: Block)
    ensures AddRoundKey(AddRoundKey(s, k), k) == s
  {
    hide AddColumn;
    AddColumnTwice(s.c0, k.c0);
    AddColumnTwice(s.c1, k.c1);
    AddColumnTwice(s.c2, k.c2);
    AddColumnTwice(s.c3, k.c3);
  }

  /** Undoing SubBytes then ShiftRows, in the order the equivalent inverse cipher does it. */
  lemma UndoSubShift(s: Block)
    ensures InvShiftRows(InvSubBytes(ShiftRows(SubBytes(s)))) == s
  {
    hide SubByte, InvSubByte;
    InvSubColumnSubColumn(s.c0);
    InvSubColumnSubColumn(s.c1);
    InvSubColumnSubColumn(s.c2);
    InvSubColumnSubColumn(s.c3);
  }

  lemma UndoMix(s: Block, k: Block)
    ensures AddRoundKey(InvMixColumns(AddRoundKey(MixColumns(s), k)), InvMixColumns(k)) == s
  {
    hide MixColumn, InvMixColumn, AddColumn;
    UndoMixColumn(s.c0, k.c0);
    UndoMixColumn(s.c1, k.c1);
    UndoMixColumn(s.c2, k.c2);
    UndoMixColumn(s.c3, k.c3);
  }

  /** After r inverse rounds the state is what the cipher had before its last r + 1 key additions. */
  lemma {:induction false} InvRoundsMirror(input: Block, w: Schedule, inv: Schedule, r: nat)
    requires r < ROUNDS && Inverted(w, inv)
    ensures InvRounds(Cipher(input, w), inv, r) == ShiftRows(SubBytes(Rounds(input, w, ROUNDS - 1 - r)))
  {
    hide SubBytes, ShiftRows, MixColumns, AddRoundKey, InvSubBytes, InvShiftRows, InvMixColumns, RoundKey;
    if r == 0 {
      AddRoundKeyTwice(ShiftRows(SubBytes(Rounds(input, w, ROUNDS - 1))), RoundKey(w, ROUNDS));
    } else {
      InvRoundsMirror(input, w, inv, r - 1);
      UndoSubShift(Rounds(input, w, ROUNDS - r));
      UndoMix(ShiftRows(SubBytes(Rounds(input, w, ROUNDS - 1 - r))), RoundKey(w, ROUNDS - r));
    }
  }

  /** The equivalent inverse cipher, on the inverted key schedule, undoes the cipher. */
  lemma DecryptUndoesEncrypt(input: Block, w: Schedule, inv: Schedule)
    requires Inverted(w, inv)
    ensures EqInvCipher(Cipher(input, w), inv) == input
  {
    hide SubBytes, ShiftRows, MixColumns, AddRoundKey, InvSubBytes, InvShiftRows, InvMixColumns, Cipher, InvRounds,
      RoundKey;
    InvRoundsMirror(input, w, inv, ROUNDS - 1);
    UndoSubShift(Rounds(input, w, 0));
    AddRoundKeyTwice(input, RoundKey(w, 0));
  }
}
