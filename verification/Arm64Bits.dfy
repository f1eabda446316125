/** Unsigned words, bit masks and sign extension as the hook library uses them. */
module Arm64Bits {

  type U32 = x: int | 0 <= x < 0x1_0000_0000
  type U64 = x: int | 0 <= x < 0x1_0000_0000_0000_0000

  /** Truncation to 64 bits: every `uint64_t` sum or difference goes through it. */
  function Wrap64(x: int): U64 { x % 0x1_0000_0000_0000_0000 }

  /** Bitwise conjunction of unsigned numbers. */
  function And(a: nat, b: nat): nat
  {
    if a == 0 || b == 0 then 0 else 2 * And(a / 2, b / 2) + (if b % 2 == 1 then a % 2 else 0)
  }

  /** The test `data & bit`, for `bit` a power of two. */
  predicate HasBit(data: nat, bit: nat)
    requires bit > 0
  {
    (data / bit) % 2 == 1
  }

  /** `data | bit`, for `bit` a power of two. */
  function SetBit(data: nat, bit: nat): nat
    requires bit > 0
  {
    if HasBit(data, bit) then data else data + bit
  }

  // ---------------------------------------------------------------- masks, split at fixed positions

  lemma AndStep(a: nat, b: nat)
    ensures And(a, b) == 2 * And(a / 2, b / 2) + (if b % 2 == 1 then a % 2 else 0)
  {
  }

  lemma AndZero(a: nat)
    ensures And(a, 0) == 0
  {
  }

  /** A number by its groups of one and of two bits. */
  lemma BitPairs(a: nat)
    ensures a / 2 / 2 == a / 4 && a % 4 / 2 == a / 2 % 2 && a % 4 % 2 == a % 2
    ensures a == 2 * (a / 2) + a % 2 && a % 4 == 2 * (a / 2 % 2) + a % 2
  {
    DivUnique(a, 4, a / 2 / 2, 2 * (a / 2 % 2) + a % 2);
    DivUnique(a % 4, 2, a / 2 % 2, a % 2);
  }

  lemma Quads(a: nat)
    ensures a / 4 / 4 == a / 16 && a % 16 / 4 == a / 4 % 4 && a % 16 % 4 == a % 4
    ensures a == 4 * (a / 4) + a % 4 && a % 16 == 4 * (a / 4 % 4) + a % 4
  {
    DivUnique(a, 16, a / 4 / 4, 4 * (a / 4 % 4) + a % 4);
    DivUnique(a % 16, 4, a / 4 % 4, a % 4);
  }

  lemma AndSplit4(a: nat, high: nat, low: nat)
    requires low < 4
    ensures And(a, 4 * high + low) == 4 * And(a / 4, high) + And(a % 4, low)
  {
    hide And;
    BitPairs(a);
    BitPairs(low);
    DivUnique(4 * high + low, 2, 2 * high + low / 2, low % 2);
    DivUnique(2 * high + low / 2, 2, high, low / 2);
    AndStep(a, 4 * high + low);
    AndStep(a / 2, 2 * high + low / 2);
    AndStep(a % 4, low);
    AndStep(a % 4 / 2, low / 2);
    AndZero(a % 4 / 2 / 2);
  }

  lemma AndSplit16(a: nat, high: nat, low: nat)
    requires low < 16
    ensures And(a, 16 * high + low) == 16 * And(a / 16, high) + And(a % 16, low)
  {
    hide And;
    Quads(a);
    Quads(low);
    AndSplit4(a, 4 * high + low / 4, low % 4);
    AndSplit4(a / 4, high, low / 4);
    AndSplit4(a % 16, low / 4, low % 4);
  }

  /** The four-bit groups of a number. */
  lemma Nibbles(a: nat)
    ensures a / 16 / 16 == a / 256 && a % 256 / 16 == a / 16 % 16 && a % 256 % 16 == a % 16
    ensures a == 16 * (a / 16) + a % 16
  {
    DivUnique(a, 256, a / 16 / 16, 16 * (a / 16 % 16) + a % 16);
    DivUnique(a % 256, 16, a / 16 % 16, a % 16);
  }

  lemma AndSplit256(a: nat, high: nat, low: nat)
    requires low < 256
    ensures And(a, 256 * high + low) == 256 * And(a / 256, high) + And(a % 256, low)
  {
    hide And;
    Nibbles(a);
    Nibbles(low);
    AndSplit16(a, 16 * high + low / 16, low % 16);
    AndSplit16(a / 16, high, low / 16);
    AndSplit16(a % 256, low / 16, low % 16);
  }

  lemma AndShift8(a: nat, high: nat)
    ensures And(a, 256 * high) == 256 * And(a / 256, high)
  {
    hide And;
    AndSplit256(a, high, 0);
    AndZero(a % 256);
  }

  /** A mask that only looks at the top and the bottom byte of an instruction word. */
  lemma AndOuterBytes(a: U32, top: nat, bottom: nat)
    requires bottom < 256
    ensures And(a, 0x100_0000 * top + bottom) == 0x100_0000 * And(a / 0x100_0000, top) + And(a % 256, bottom)
  {
    hide And;
    var a1 := a / 256;
    var a2 := a1 / 256;
    DivUnique(a, 0x100_0000, a2 / 256, 0x1_0000 * (a2 % 256) + 256 * (a1 % 256) + a % 256);
    AndSplit256(a, 256 * (256 * top), bottom);
    AndShift8(a1, 256 * top);
    AndShift8(a2, top);
  }

  lemma AndOne(a: nat)
    ensures And(a, 1) == a % 2
  {
  }

  lemma AndThree(a: nat)
    ensures And(a, 3) == a % 4
  {
    hide And;
    BitPairs(a);
    AndStep(a, 3);
    AndOne(a / 2);
  }

  lemma AndFifteen(a: nat)
    ensures And(a, 15) == a % 16
  {
    hide And;
    Quads(a);
    AndSplit4(a, 3, 3);
    AndThree(a / 4);
    AndThree(a % 4);
  }

  // ---------------------------------------------------------------- SignExtend64

  function Pow2(n: nat): nat
    ensures Pow2(n) >= 1
  {
    if n == 0 then 1 else 2 * Pow2(n - 1)
  }

  lemma {:induction false} Pow2Monotone(m: nat, n: nat)
    requires m < n
    ensures 2 * Pow2(m) <= Pow2(n)
  {
    if m + 1 < n {
      Pow2Monotone(m, n - 1);
    }
  }

  lemma {:induction false} Pow2Sum(m: nat, n: nat)
    ensures Pow2(m + n) == Pow2(m) * Pow2(n)
  {
    if m > 0 {
      Pow2Sum(m - 1, n);
    }
  }

  lemma SmallPowers()
    ensures Pow2(5) == 0x20 && Pow2(7) == 0x80 && Pow2(8) == 0x100
  {
    assert Pow2(1) == 2;
    hide Pow2;
    Pow2Sum(1, 1);
    Pow2Sum(2, 1);
    Pow2Sum(3, 2);
    Pow2Sum(5, 2);
    Pow2Sum(7, 1);
  }

  lemma Pow2Of63()
    ensures Pow2(63) == 0x8000_0000_0000_0000
  {
    SmallPowers();
    hide Pow2;
    Pow2Sum(8, 7);
    Pow2Sum(8, 8);
    Pow2Sum(16, 15);
    Pow2Sum(16, 16);
    Pow2Sum(32, 31);
  }

  /** BIT15, BIT20, BIT27 and BIT32. */
  lemma Pow2Values()
    ensures Pow2(15) == 0x8000 && Pow2(20) == 0x10_0000 && Pow2(27) == 0x800_0000 && Pow2(32) == 0x1_0000_0000
  {
    SmallPowers();
    hide Pow2;
    Pow2Sum(8, 7);
    Pow2Sum(15, 5);
    Pow2Sum(20, 7);
    Pow2Sum(27, 5);
  }

  /** What sign extension from bit `topBit` means: two's complement replication of that bit. */
  function SignExtended(data: U64, topBit: U64): U64
    requires 0 < topBit <= 0x8000_0000_0000_0000
  {
    if HasBit(data, topBit) then data % (2 * topBit) + 0x1_0000_0000_0000_0000 - 2 * topBit else data
  }

  lemma AtLeastOnce(d: int, k: int)
    requires d > 0 && k >= 1
    ensures d * k >= d
  {
    assert d * (k - 1) >= 0;
  }

  lemma Distribute(d: int, x: int, y: int)
    ensures d * (x - y) == d * x - d * y
  {
  }

  lemma QuotientUnique(d: int, q: int, r: int, q': int, r': int)
    requires 0 <= r < d && 0 <= r' < d && d * q + r == d * q' + r'
    ensures q == q' && r == r'
  {
    if q < q' {
      Distribute(d, q', q);
      AtLeastOnce(d, q' - q);
    } else if q' < q {
      Distribute(d, q, q');
      AtLeastOnce(d, q - q');
    }
  }

  lemma DivUnique(a: int, d: int, q: int, r: int)
    requires a == d * q + r && 0 <= r < d
    ensures a / d == q && a % d == r
  {
    QuotientUnique(d, q, r, a / d, a % d);
  }

  lemma Regroup(t: int, h: int, r: int)
    ensures t * (2 * h + 1) + r == 2 * t * h + (t + r)
    ensures t * (2 * h) + r == 2 * t * h + r
  {
    var th := t * h;
    assert t * (2 * h) == 2 * th;
    assert 2 * t * h == 2 * th;
  }

  /** A set bit is the top of the remainder one position up. */
  lemma LowHalfSet(data: nat, t: nat)
    requires t > 0 && HasBit(data, t)
    ensures data / (2 * t) >= 0 && t <= data % (2 * t) < 2 * t
    ensures data == 2 * t * (data / (2 * t)) + data % (2 * t)
  {
    var q, r := data / t, data % t;
    var h := q / 2;
    assert q == 2 * h + 1;
    Regroup(t, h, r);
    DivUnique(data, 2 * t, h, t + r);
  }

  /** Setting the bit just above the remainder moves it from the quotient into the remainder. */
  lemma RaiseBit(d: nat, t: nat, q: nat, rest: nat)
    requires t > 0 && d == t * q + rest && rest < t
    ensures SetBit(d, t) == 2 * t * (q / 2) + (t + rest)
  {
    DivUnique(d, t, q, rest);
    Regroup(t, q / 2, rest);
    Regroup(t, q / 2, t + rest);
    assert q % 2 == 1 ==> q == 2 * (q / 2) + 1;
    assert q % 2 == 0 ==> q == 2 * (q / 2);
  }

  lemma MulMonotone(d: nat, x: int, y: int)
    requires x <= y
    ensures d * x <= d * y
  {
    Distribute(d, y, x);
    assert d * (y - x) >= 0;
  }

  lemma QuotientBelow(a: nat, d: nat, q: nat, r: nat, p: nat)
    requires a == d * q + r && a < d * p
    ensures q < p
  {
    if q >= p {
      MulMonotone(d, p, q);
    }
  }

  lemma TwiceTimes(a: nat, b: nat)
    ensures 2 * a * b == 2 * (a * b)
  {
  }

  /** A 64-bit word has at most 63 - k bits above bit k. */
  lemma QuotientBound(data: U64, k: nat)
    requires k <= 63
    ensures data / (2 * Pow2(k)) < Pow2(63 - k)
  {
    Pow2Of63();
    Pow2Sum(k, 63 - k);
    hide Pow2;
    TwiceTimes(Pow2(k), Pow2(63 - k));
    QuotientOfWord(data, 2 * Pow2(k), Pow2(63 - k));
  }

  lemma QuotientOfWord(data: U64, t: nat, p: nat)
    requires t > 0 && t * p == 0x1_0000_0000_0000_0000
    ensures data / t < p
  {
    QuotientBelow(data, t, data / t, data % t, p);
  }

  /** The word while ones are being filled in from `topBit` up to `top`. */
  ghost function Filled(top: nat, q: nat, low: int, topBit: nat): int
  {
    2 * top * q + (low + 2 * top - 2 * topBit)
  }

  lemma FillOne(top: nat, q: nat, low: nat, topBit: nat, d: nat)
    requires 1 <= topBit <= top && topBit <= low < 2 * topBit && d == Filled(top, q, low, topBit)
    ensures SetBit(d, 2 * top) == Filled(2 * top, q / 2, low, topBit)
  {
    RaiseBit(d, 2 * top, q, low + 2 * top - 2 * topBit);
  }

  /** How the loop ends: every bit above `topBit` is set. */
  lemma FilledUp(data: U64, topBit: U64)
    requires 1 <= topBit <= 0x8000_0000_0000_0000 && HasBit(data, topBit)
    ensures Filled(0x8000_0000_0000_0000, 0, data % (2 * topBit), topBit) == SignExtended(data, topBit)
  {
  }

  lemma DoublePow2(j: nat, q: nat)
    requires j < 63 && q < Pow2(63 - j)
    ensures Pow2(j + 1) == 2 * Pow2(j) && q / 2 < Pow2(63 - (j + 1))
    ensures HasBit(Pow2(j + 1), 0x8000_0000_0000_0000) <==> j + 1 == 63
  {
    Pow2Of63();
    if j + 1 < 63 { Pow2Monotone(j + 1, 63); }
  }

  method SignExtend64(data: U64, topBit: U64, ghost k: nat) returns (r: U64)
    requires k <= 63 && topBit == Pow2(k) <= 0x8000_0000_0000_0000
    ensures r == SignExtended(data, topBit)
  {
    Pow2Of63();
    if k < 63 { Pow2Monotone(k, 63); }
    if !HasBit(data, topBit) || topBit == 0x8000_0000_0000_0000 {
      return data;
    }
    r := FillOnes(data, topBit, k);
  }

  /** The do-while loop of the sign extension. */
  method FillOnes(data: U64, topBit: U64, ghost k: nat) returns (r: U64)
    requires k < 63 && topBit == Pow2(k) <= 0x8000_0000_0000_0000 && HasBit(data, topBit)
    ensures r == SignExtended(data, topBit)
  {
    LowHalfSet(data, topBit);
    var d: nat, top: nat := data, topBit;
    ghost var low: int, j: nat, q: int := data % (2 * topBit), k, data / (2 * topBit);
    QuotientBound(data, k);
    FilledUp(data, topBit);
    Pow2Of63();
    assert d == Filled(top, q, low, topBit);
    hide *;
    while true
      invariant k <= j < 63 && top == Pow2(j) && 1 <= topBit <= top
      invariant 0 <= q < Pow2(63 - j)
      invariant topBit <= low < 2 * topBit
      invariant d == Filled(top, q, low, topBit)
      decreases 63 - j
    {
      FillOne(top, q, low, topBit, d);
      DoublePow2(j, q);
      top := 2 * top;
      d := SetBit(d, top);
      q := q / 2;
      j := j + 1;
      if HasBit(top, 0x8000_0000_0000_0000) { break; }
    }
    assert q == 0 by { ZeroPow2(); }
    r := d;
  }

  lemma ZeroPow2()
    ensures Pow2(0) == 1
  {
  }
}
