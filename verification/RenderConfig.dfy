/** The seed configuration: four values derived from one, stored masked, and the formula that checks them. */
module RenderConfig {
  import Bits = Arm64Bits

  type U32 = Bits.U32

  const WORD_SIZE: nat := 0x1_0000_0000
  const FILTER_PRIME: U32 := 0x9e37_79b1
  const ANISO_FACTOR: U32 := 0x85eb_ca77
  const SHADOW_XOR: U32 := 0xdead_c0de
  const VALIDATION_MOD: nat := 17
  const CROSS_CHECK_MOD: nat := 23
  const OBFUSCATE_KEY_A: U32 := 0x5a3c_96f1
  const OBFUSCATE_KEY_B: U32 := 0xb7e2_4d8c
  const OBFUSCATE_KEY_C: U32 := 0xf19a_2b4e
  const OBFUSCATE_KEY_D: U32 := 0x3d8c_7a52
  const OBFUSCATE_KEY_HASH: U32 := 0x8e1f_3c7b

  // ---------------------------------------------------------------- exclusive or

  function XorNat(a: nat, b: nat): nat {
    if a == 0 then b else if b == 0 then a else 2 * XorNat(a / 2, b / 2) + (a % 2 + b % 2) % 2
  }

  lemma XorStep(a: nat, b: nat)
    ensures XorNat(a, b) == 2 * XorNat(a / 2, b / 2) + (a % 2 + b % 2) % 2
  {
  }

  lemma XorHalves(a: nat, b: nat)
    ensures XorNat(a, b) / 2 == XorNat(a / 2, b / 2) && XorNat(a, b) % 2 == (a % 2 + b % 2) % 2
  {
    hide XorNat;
    XorStep(a, b);
  }

  lemma XorZero()
    ensures XorNat(0, 0) == 0
  {
  }

  lemma ParityTwice(a: nat, b: nat)
    ensures ((a % 2 + b % 2) % 2 + b % 2) % 2 == a % 2
  {
  }

  lemma {:induction false} XorTwice(a: nat, b: nat)
    ensures XorNat(XorNat(a, b), b) == a
    decreases a + b
  {
    hide XorNat;
    if a == 0 && b == 0 {
      XorZero();
    } else {
      XorTwice(a / 2, b / 2);
      XorHalves(a, b);
      XorHalves(XorNat(a, b), b);
      ParityTwice(a, b);
    }
  }

  lemma {:induction false} XorBound(a: nat, b: nat, n: nat)
    requires a < Bits.Pow2(n) && b < Bits.Pow2(n)
    ensures XorNat(a, b) < Bits.Pow2(n)
  {
    if n > 0 {
      XorStep(a, b);
      XorBound(a / 2, b / 2, n - 1);
    }
  }

  function Xor(a: U32, b: U32): U32 {
    Bits.Pow2Values();
    XorBound(a, b, 32);
    XorNat(a, b)
  }

  /** Storing under a mask and loading under the same mask gives the value back. */
  lemma LoadStored(value: U32, key: U32)
    ensures Xor(Xor(value, key), key) == value
  {
    XorTwice(value, key);
  }

  // ---------------------------------------------------------------- derivations, modulo 2^32

  function DeriveAnisotropic(base: U32): U32 { RotatedProduct(Xor(base, FILTER_PRIME)) }

  function RotatedProduct(temp: U32): U32 {
    var rotated := temp / 128 + temp % 128 * 0x200_0000;
    rotated * ANISO_FACTOR % WORD_SIZE
  }

  function DeriveMipmap(base: U32): U32 {
    var low := base % 0x1_0000;
    SquareBound(low);
    var mixed := Xor(low * low, base / 0x1_0000);
    if mixed % 2 == 0 then mixed + 1 else mixed
  }

  lemma SquareBound(low: nat)
    requires low < 0x1_0000
    ensures low * low < WORD_SIZE
  {
    Bits.MulMonotone(low, low, 0xffff);
  }

  function DeriveShadow(base: U32): U32 {
    (Xor(base, SHADOW_XOR) + base / 0x100 % 0x100 + base / 0x100_0000 * 0x1_0000) % WORD_SIZE
  }

  function ConfigHash(a: U32, b: U32, c: U32, d: U32): U32 {
    (((a * 31 + b) * 31 + c) * 31 + d) % WORD_SIZE
  }

  // ---------------------------------------------------------------- the derivations at sample values

  lemma Unchanged(a: nat)
    ensures XorNat(a, 0) == a && XorNat(0, a) == a
  {
  }

  /** The prime, rotated by seven and multiplied. */
  lemma AnisotropicOfZero()
    ensures DeriveAnisotropic(0) == 0xe8b4_50f5
  {
    hide XorNat, RotatedProduct;
    Unchanged(0x9e37_79b1);
    RotatedPrime();
  }

  lemma RotatedPrime()
    ensures RotatedProduct(0x9e37_79b1) == 0xe8b4_50f5
  {
    Bits.DivUnique(0x9e37_79b1, 128, 0x013c_6ef3, 49);
    Bits.DivUnique(0x633c_6ef3 * ANISO_FACTOR, WORD_SIZE, 0x33e9_cc99, 0xe8b4_50f5);
  }

  /** The low half squared, the high half added without carry, and the lowest bit set. */
  lemma MipmapSamples()
    ensures DeriveMipmap(0) == 1 && DeriveMipmap(0xffff) == 0xfffe_0001 && DeriveMipmap(0xa_0000) == 0xb
  {
    hide XorNat;
    Unchanged(0);
    Unchanged(0xfffe_0001);
    Unchanged(0xa);
  }

  /** The mask, and the two bytes of the base that are added to it. */
  lemma ShadowSamples()
    ensures DeriveShadow(0) == 0xdead_c0de && DeriveShadow(0xdead_c0de) == 0xde_00c0
  {
    hide XorNat;
    Unchanged(0xdead_c0de);
    XorTwice(0, 0xdead_c0de);
  }

  // ---------------------------------------------------------------- the checksum

  /** The checksum in powers of 31. */
  function Polynomial(a: nat, b: nat, c: nat, d: nat): nat { (29791 * a + 961 * b + 31 * c + d) % 0x1_0000_0000 }

  lemma HashIsPolynomial(a: U32, b: U32, c: U32, d: U32)
    ensures ConfigHash(a, b, c, d) == Polynomial(a, b, c, d)
  {
  }

  /** Modulo 2^32, a number of 32 bits is lost by no factor that has an inverse. */
  lemma FactorLosesNothing(k: int, inverse: int, t: int, x: int, m: int)
    requires inverse * k == 1 + 0x1_0000_0000 * t && k * x == 0x1_0000_0000 * m
    requires -0x1_0000_0000 < x < 0x1_0000_0000
    ensures x == 0
  {
    var w := inverse * m - t * x;
    calc {
      x;
      inverse * k * x - 0x1_0000_0000 * t * x;
      inverse * (k * x) - 0x1_0000_0000 * (t * x);
      0x1_0000_0000 * w;
    }
  }

  lemma SameResidue(x: int, y: int)
    requires x % 0x1_0000_0000 == y % 0x1_0000_0000
    ensures x - y == 0x1_0000_0000 * (x / 0x1_0000_0000 - y / 0x1_0000_0000)
  {
  }

  /** A change of one value, whichever it is, changes the checksum. */
  lemma OneChangeChangesHash(a: U32, b: U32, c: U32, d: U32, x: U32)
    ensures x != a ==> Polynomial(x, b, c, d) != Polynomial(a, b, c, d)
    ensures x != b ==> Polynomial(a, x, c, d) != Polynomial(a, b, c, d)
    ensures x != c ==> Polynomial(a, b, x, d) != Polynomial(a, b, c, d)
    ensures x != d ==> Polynomial(a, b, c, x) != Polynomial(a, b, c, d)
  {
    hide Polynomial;
    FirstChanges(a, b, c, d, x);
    SecondChanges(a, b, c, d, x);
    ThirdChanges(a, b, c, d, x);
    FourthChanges(a, b, c, d, x);
  }

  lemma FirstChanges(a: U32, b: U32, c: U32, d: U32, x: U32)
    ensures x != a ==> Polynomial(x, b, c, d) != Polynomial(a, b, c, d)
  {
    if Polynomial(x, b, c, d) == Polynomial(a, b, c, d) {
      var y, z := 29791 * x + 961 * b + 31 * c + d, 29791 * a + 961 * b + 31 * c + d;
      SameResidue(y, z);
      FactorLosesNothing(29791, 0xd50a_e79f, 24792, x - a, y / 0x1_0000_0000 - z / 0x1_0000_0000);
    }
  }

  lemma SecondChanges(a: U32, b: U32, c: U32, d: U32, x: U32)
    ensures x != b ==> Polynomial(a, x, c, d) != Polynomial(a, b, c, d)
  {
    if Polynomial(a, x, c, d) == Polynomial(a, b, c, d) {
      var y, z := 29791 * a + 961 * x + 31 * c + d, 29791 * a + 961 * b + 31 * c + d;
      SameResidue(y, z);
      FactorLosesNothing(961, 0xcc52_0c41, 767, x - b, y / 0x1_0000_0000 - z / 0x1_0000_0000);
    }
  }

  lemma ThirdChanges(a: U32, b: U32, c: U32, d: U32, x: U32)
    ensures x != c ==> Polynomial(a, b, x, d) != Polynomial(a, b, c, d)
  {
    if Polynomial(a, b, x, d) == Polynomial(a, b, c, d) {
      var y, z := 29791 * a + 961 * b + 31 * x + d, 29791 * a + 961 * b + 31 * c + d;
      SameResidue(y, z);
      FactorLosesNothing(31, 0xbdef_7bdf, 23, x - c, y / 0x1_0000_0000 - z / 0x1_0000_0000);
    }
  }

  lemma FourthChanges(a: U32, b: U32, c: U32, d: U32, x: U32)
    ensures x != d ==> Polynomial(a, b, c, x) != Polynomial(a, b, c, d)
  {
    if Polynomial(a, b, c, x) == Polynomial(a, b, c, d) {
      var y, z := 29791 * a + 961 * b + 31 * c + x, 29791 * a + 961 * b + 31 * c + d;
      SameResidue(y, z);
      FactorLosesNothing(1, 0x1, 0, x - d, y / 0x1_0000_0000 - z / 0x1_0000_0000);
    }
  }

  // ---------------------------------------------------------------- the search for the shadow's residue

  /** What the formula needs of the shadow value, in residues. */
  predicate Solves(c: nat, d: nat, left: nat) { c * d % VALIDATION_MOD == left }

  /** The first residue that solves the formula, or 0. */
  function TargetFrom(c: nat, left: nat, i: nat): (t: nat)
    requires i <= VALIDATION_MOD
    ensures t < VALIDATION_MOD
    ensures (exists j :: i <= j < VALIDATION_MOD && Solves(c, j, left)) ==> i <= t && Solves(c, t, left)
    ensures (forall j :: i <= j < VALIDATION_MOD ==> !Solves(c, j, left)) ==> t == 0
    ensures forall j :: i <= j < t ==> !Solves(c, j, left)
    decreases VALIDATION_MOD - i
  {
    if i == VALIDATION_MOD then 0 else if Solves(c, i, left) then i else TargetFrom(c, left, i + 1)
  }

  /** The inverse of a non-zero residue: 17 is prime. */
  function Inverse(c: nat): (v: nat)
    requires 0 < c < VALIDATION_MOD
    ensures c * v % VALIDATION_MOD == 1
  {
    if c == 1 then 1 else if c == 2 then 9 else if c == 3 then 6 else if c == 4 then 13
    else if c == 5 then 7 else if c == 6 then 3 else if c == 7 then 5 else if c == 8 then 15
    else if c == 9 then 2 else if c == 10 then 12 else if c == 11 then 14 else if c == 12 then 10
    else if c == 13 then 4 else if c == 14 then 11 else if c == 15 then 8 else 16
  }

  lemma ModProduct(a: int, b: int)
    ensures Times(a, b % VALIDATION_MOD) % VALIDATION_MOD == Times(a, b) % VALIDATION_MOD
  {
    var q := b / VALIDATION_MOD;
    assert b == VALIDATION_MOD * q + b % VALIDATION_MOD;
    assert a * b == a * (b % VALIDATION_MOD) + VALIDATION_MOD * (a * q);
    ModPlus(a * (b % VALIDATION_MOD), a * q);
  }

  /** Multiplication, by name. */
  function Times(a: int, b: int): int { a * b }

  lemma Regroup(c: nat, v: nat, left: nat)
    ensures Times(c, Times(v, left)) == Times(left, Times(c, v))
  {
  }

  lemma ModPlus(x: int, k: int)
    ensures (x + VALIDATION_MOD * k) % VALIDATION_MOD == x % VALIDATION_MOD
  {
  }

  /** For every non-zero residue c and every left side the search succeeds. */
  lemma SearchSucceeds(c: nat, left: nat)
    requires 0 < c < VALIDATION_MOD && left < VALIDATION_MOD
    ensures Solves(c, TargetFrom(c, left, 0), left)
  {
    hide Inverse;
    InverseSolves(c, left);
  }

  lemma InverseSolves(c: nat, left: nat)
    requires 0 < c < VALIDATION_MOD && left < VALIDATION_MOD
    ensures Solves(c, Inverse(c) * left % VALIDATION_MOD, left)
  {
    hide Inverse, Times, Solves;
    var v := Inverse(c);
    ModProduct(c, Times(v, left));
    Regroup(c, v, left);
    ModProduct(left, Times(c, v));
    InverseTimes(c);
    TimesOne(left);
    SolvesByTimes(c, v, left);
  }

  lemma InverseTimes(c: nat)
    requires 0 < c < VALIDATION_MOD
    ensures Times(c, Inverse(c)) % VALIDATION_MOD == 1
  {
    hide Inverse;
  }

  lemma TimesOne(left: nat)
    requires left < VALIDATION_MOD
    ensures Times(left, 1) % VALIDATION_MOD == left
  {
  }

  lemma SolvesByTimes(c: nat, v: nat, left: nat)
    requires Times(c, Times(v, left) % VALIDATION_MOD) % VALIDATION_MOD == left
    ensures Solves(c, v * left % VALIDATION_MOD, left)
  {
  }

  /** For the zero residue it succeeds only for a left side of zero. */
  lemma ZeroResidue(left: nat)
    requires left < VALIDATION_MOD
    ensures TargetFrom(0, left, 0) == 0 && (Solves(0, 0, left) <==> left == 0)
  {
    if left == 0 {
      assert Solves(0, 0, left);
    } else {
      assert forall j :: 0 <= j < VALIDATION_MOD ==> !Solves(0, j, left);
    }
  }

  // ---------------------------------------------------------------- the adjusted shadow value

  function LeftSide(base: U32): nat { Xor(base, DeriveAnisotropic(base)) % VALIDATION_MOD }

  function Target(base: U32): (t: nat)
    ensures t < VALIDATION_MOD
  {
    TargetFrom(DeriveMipmap(base) % VALIDATION_MOD, LeftSide(base), 0)
  }

  /** The shadow value moved to a residue; 32-bit arithmetic, so the sum may wrap. */
  function Adjusted(shadow: U32, target: nat): U32
    requires target < VALIDATION_MOD
  {
    (shadow - shadow % VALIDATION_MOD + target) % WORD_SIZE
  }

  lemma AdjustedResidue(shadow: U32, target: nat)
    requires target < VALIDATION_MOD && (shadow != WORD_SIZE - 1 || target == 0)
    ensures Adjusted(shadow, target) % VALIDATION_MOD == target
    ensures Adjusted(shadow, target) / VALIDATION_MOD == shadow / VALIDATION_MOD
  {
    var q := shadow / VALIDATION_MOD;
    assert shadow - shadow % VALIDATION_MOD == VALIDATION_MOD * q;
    assert VALIDATION_MOD * q + target < WORD_SIZE;
    ModPlus(target, q);
  }

  function ShadowOf(base: U32): U32 { Adjusted(DeriveShadow(base), Target(base)) }

  /** The formula and the check of the base value. */
  predicate Accepted(a: U32, b: U32, c: U32, d: U32) {
    && Xor(a, b) % VALIDATION_MOD == c % VALIDATION_MOD * (d % VALIDATION_MOD) % VALIDATION_MOD
    && a % CROSS_CHECK_MOD == 0
  }

  // ---------------------------------------------------------------- the one base value whose shadow would wrap

  lemma XorSplit2(a: nat, b: nat, c: nat, d: nat)
    requires b < 2 && d < 2
    ensures XorNat(2 * a + b, 2 * c + d) == 2 * XorNat(a, c) + XorNat(b, d)
  {
    hide XorNat;
    XorStep(2 * a + b, 2 * c + d);
    XorStep(b, d);
    XorZero();
  }

  lemma XorSplit4(a: nat, b: nat, c: nat, d: nat)
    requires b < 4 && d < 4
    ensures XorNat(4 * a + b, 4 * c + d) == 4 * XorNat(a, c) + XorNat(b, d)
  {
    hide XorNat;
    XorSplit2(2 * a + b / 2, b % 2, 2 * c + d / 2, d % 2);
    XorSplit2(a, b / 2, c, d / 2);
    XorSplit2(b / 2, b % 2, d / 2, d % 2);
  }

  lemma XorSplit16(a: nat, b: nat, c: nat, d: nat)
    requires b < 16 && d < 16
    ensures XorNat(16 * a + b, 16 * c + d) == 16 * XorNat(a, c) + XorNat(b, d)
  {
    hide XorNat;
    XorSplit4(4 * a + b / 4, b % 4, 4 * c + d / 4, d % 4);
    XorSplit4(a, b / 4, c, d / 4);
    XorSplit4(b / 4, b % 4, d / 4, d % 4);
  }

  lemma XorSplit256(a: nat, b: nat, c: nat, d: nat)
    requires b < 256 && d < 256
    ensures XorNat(256 * a + b, 256 * c + d) == 256 * XorNat(a, c) + XorNat(b, d)
  {
    hide XorNat;
    XorSplit16(16 * a + b / 16, b % 16, 16 * c + d / 16, d % 16);
    XorSplit16(a, b / 16, c, d / 16);
    XorSplit16(b / 16, b % 16, d / 16, d % 16);
  }

  function Byte(w: U32, k: nat): (b: nat)
    requires k < 4
    ensures b < 256
  {
    if k == 0 then w % 0x100
    else if k == 1 then w / 0x100 % 0x100
    else if k == 2 then w / 0x1_0000 % 0x100
    else w / 0x100_0000
  }

  lemma BytesOf(w: U32)
    ensures w == 256 * (256 * (256 * Byte(w, 3) + Byte(w, 2)) + Byte(w, 1)) + Byte(w, 0)
  {
    var h := w / 0x100;
    assert w / 0x1_0000 == h / 0x100 && w / 0x100_0000 == h / 0x100 / 0x100;
  }

  /** The bytes of a word combine one by one. */
  lemma XorBytes(a: U32, b: U32)
    ensures Xor(a, b) == 256 * (256 * (256 * XorNat(Byte(a, 3), Byte(b, 3)) + XorNat(Byte(a, 2), Byte(b, 2)))
                                + XorNat(Byte(a, 1), Byte(b, 1))) + XorNat(Byte(a, 0), Byte(b, 0))
  {
    hide XorNat, Byte;
    BytesOf(a);
    BytesOf(b);
    XorSplit256(256 * (256 * Byte(a, 3) + Byte(a, 2)) + Byte(a, 1), Byte(a, 0),
                256 * (256 * Byte(b, 3) + Byte(b, 2)) + Byte(b, 1), Byte(b, 0));
    XorSplit256(256 * Byte(a, 3) + Byte(a, 2), Byte(a, 1), 256 * Byte(b, 3) + Byte(b, 2), Byte(b, 1));
    XorSplit256(Byte(a, 3), Byte(a, 2), Byte(b, 3), Byte(b, 2));
  }

  lemma ByteBound(a: nat, b: nat)
    requires a < 256 && b < 256
    ensures XorNat(a, b) < 256
  {
    assert Bits.Pow2(4) == 16 && Bits.Pow2(8) == 256;
    XorBound(a, b, 8);
  }

  lemma ByteFrom(a: nat, b: nat, x: nat)
    requires XorNat(a, b) == x
    ensures a == XorNat(x, b)
  {
    XorTwice(a, b);
  }

  lemma MaskBytes()
    ensures Byte(SHADOW_XOR, 0) == 0xde && Byte(SHADOW_XOR, 1) == 0xc0
    ensures Byte(SHADOW_XOR, 2) == 0xad && Byte(SHADOW_XOR, 3) == 0xde
  {
  }

  lemma Pairs()
    ensures XorNat(3, 3) == 0 && XorNat(3, 1) == 2 && XorNat(3, 2) == 1 && XorNat(3, 0) == 3
    ensures XorNat(1, 2) == 3 && XorNat(2, 1) == 3 && XorNat(0, 1) == 1 && XorNat(0, 3) == 3 && XorNat(0, 2) == 2
  {
  }

  lemma Nibbles()
    ensures XorNat(0xf, 0xd) == 0x2 && XorNat(0xf, 0xe) == 0x1 && XorNat(0xf, 0xc) == 0x3 && XorNat(0xf, 0x0) == 0xf
    ensures XorNat(0xd, 0xa) == 0x7 && XorNat(0xe, 0xd) == 0x3 && XorNat(0xc, 0xd) == 0x1 && XorNat(0x0, 0xe) == 0xe
  {
    hide XorNat;
    Pairs();
    XorSplit4(3, 3, 3, 1);
    XorSplit4(3, 3, 3, 2);
    XorSplit4(3, 3, 3, 0);
    XorSplit4(3, 3, 0, 0);
    XorSplit4(3, 1, 2, 2);
    XorSplit4(3, 2, 3, 1);
    XorSplit4(3, 0, 3, 1);
    XorSplit4(0, 0, 3, 2);
  }

  lemma MaskedBytes()
    ensures XorNat(0xff, 0xde) == 0x21 && XorNat(0xff, 0xc0) == 0x3f
    ensures XorNat(0xde, 0xad) == 0x73 && XorNat(0xc0, 0xde) == 0x1e
  {
    hide XorNat;
    Nibbles();
    XorSplit16(0xf, 0xf, 0xd, 0xe);
    XorSplit16(0xf, 0xf, 0xc, 0x0);
    XorSplit16(0xd, 0xe, 0xa, 0xd);
    XorSplit16(0xc, 0x0, 0xd, 0xe);
  }

  /** A sum of bytes that is all ones has no carry. */
  lemma NoCarry(x0: nat, x1: nat, x2: nat, x3: nat, y0: nat, y2: nat)
    requires x0 < 256 && x1 < 256 && x2 < 256 && x3 < 256 && y0 < 256 && y2 < 256
    requires (256 * (256 * (256 * x3 + x2) + x1) + x0 + y0 + y2 * 0x1_0000) % WORD_SIZE == WORD_SIZE - 1
    ensures x0 + y0 == 0xff && x1 == 0xff && x2 + y2 == 0xff && x3 == 0xff
  {
    var sum := 256 * (256 * (256 * x3 + x2) + x1) + x0 + y0 + y2 * 0x1_0000;
    assert sum < 2 * WORD_SIZE - 1;
  }

  /** Only one base value derives the shadow value whose adjustment would wrap, and the check of the base refuses it. */
  lemma OneBaseWraps(base: U32)
    requires DeriveShadow(base) == WORD_SIZE - 1
    ensures base == 0x2173_3f1e && base % CROSS_CHECK_MOD != 0
  {
    hide XorNat, Xor;
    XorBytes(base, SHADOW_XOR);
    MaskBytes();
    MaskedBytes();
    BytesOf(base);
    var x0, x1 := XorNat(Byte(base, 0), 0xde), XorNat(Byte(base, 1), 0xc0);
    var x2, x3 := XorNat(Byte(base, 2), 0xad), XorNat(Byte(base, 3), 0xde);
    ByteBound(Byte(base, 0), 0xde);
    ByteBound(Byte(base, 1), 0xc0);
    ByteBound(Byte(base, 2), 0xad);
    ByteBound(Byte(base, 3), 0xde);
    NoCarry(x0, x1, x2, x3, Byte(base, 1), Byte(base, 3));
    ByteFrom(Byte(base, 1), 0xc0, 0xff);
    ByteFrom(Byte(base, 3), 0xde, 0xff);
    ByteFrom(Byte(base, 0), 0xde, x0);
    ByteFrom(Byte(base, 2), 0xad, x2);
  }

  // ---------------------------------------------------------------- when an update is accepted

  /** The condition on a base value that the checks amount to. */
  predicate GoodBase(base: U32) {
    && base % CROSS_CHECK_MOD == 0
    && (LeftSide(base) == 0 || DeriveMipmap(base) % VALIDATION_MOD != 0)
  }

  lemma FormulaHolds(base: U32)
    requires DeriveShadow(base) != WORD_SIZE - 1
    ensures ShadowOf(base) % VALIDATION_MOD == Target(base)
    ensures Solves(DeriveMipmap(base) % VALIDATION_MOD, Target(base), LeftSide(base))
       <==> LeftSide(base) == 0 || DeriveMipmap(base) % VALIDATION_MOD != 0
  {
    hide DeriveShadow, DeriveMipmap, DeriveAnisotropic, Xor, Solves, Adjusted;
    AdjustedResidue(DeriveShadow(base), Target(base));
    var c := DeriveMipmap(base) % VALIDATION_MOD;
    if c == 0 {
      ZeroResidue(LeftSide(base));
    } else {
      SearchSucceeds(c, LeftSide(base));
    }
  }

  /** After an update the formula and the base check hold for exactly the good base values. */
  lemma AcceptedAfterUpdate(base: U32)
    ensures Accepted(base, DeriveAnisotropic(base), DeriveMipmap(base), ShadowOf(base)) <==> GoodBase(base)
  {
    hide DeriveShadow, DeriveMipmap, DeriveAnisotropic, Xor, ShadowOf, Target;
    if DeriveShadow(base) == WORD_SIZE - 1 {
      OneBaseWraps(base);
    } else {
      FormulaHolds(base);
    }
  }

  // ---------------------------------------------------------------- the configuration

  class Configuration {
    var textureSampling: U32
    var anisotropicLevel: U32
    var mipmapBias: U32
    var shadowQuality: U32
    var lastConfigUpdate: int
    var configChecksum: U32

    function A(): U32 reads this { Xor(textureSampling, OBFUSCATE_KEY_A) }

    function B(): U32 reads this { Xor(anisotropicLevel, OBFUSCATE_KEY_B) }

    function C(): U32 reads this { Xor(mipmapBias, OBFUSCATE_KEY_C) }

    function D(): U32 reads this { Xor(shadowQuality, OBFUSCATE_KEY_D) }

    function StoredHash(): U32 reads this { Xor(configChecksum, OBFUSCATE_KEY_HASH) }

    /** What the fields hold: each value under its own mask. */
    predicate StoredUnderKeys(a: U32, b: U32, c: U32, d: U32, hash: U32)
      reads this
    {
      && textureSampling == Xor(a, 0x5a3c_96f1) && anisotropicLevel == Xor(b, 0xb7e2_4d8c)
      && mipmapBias == Xor(c, 0xf19a_2b4e) && shadowQuality == Xor(d, 0x3d8c_7a52)
      && configChecksum == Xor(hash, 0x8e1f_3c7b)
    }

    /** The fields before any initialization hold 1, unmasked, and no checksum. */
    constructor ()
      ensures textureSampling == anisotropicLevel == mipmapBias == shadowQuality == 1
      ensures configChecksum == 0 && lastConfigUpdate == 0
    {
      textureSampling, anisotropicLevel, mipmapBias, shadowQuality := 1, 1, 1, 1;
      lastConfigUpdate, configChecksum := 0, 0;
    }

    method InitializeDefaults()
      modifies this
      ensures A() == B() == C() == D() == 1 && StoredHash() == 0 && lastConfigUpdate == 0
      ensures StoredUnderKeys(1, 1, 1, 1, 0)
    {
      hide Xor;
      textureSampling := Xor(1, OBFUSCATE_KEY_A);
      anisotropicLevel := Xor(1, OBFUSCATE_KEY_B);
      mipmapBias := Xor(1, OBFUSCATE_KEY_C);
      shadowQuality := Xor(1, OBFUSCATE_KEY_D);
      lastConfigUpdate := 0;
      configChecksum := Xor(0, OBFUSCATE_KEY_HASH);
      LoadStored(1, OBFUSCATE_KEY_A);
      LoadStored(1, OBFUSCATE_KEY_B);
      LoadStored(1, OBFUSCATE_KEY_C);
      LoadStored(1, OBFUSCATE_KEY_D);
      LoadStored(0, OBFUSCATE_KEY_HASH);
    }

    method ComputeConfigHash() returns (hash: U32)
      ensures hash == Polynomial(A(), B(), C(), D())
    {
      hide Xor, ConfigHash, Polynomial;
      HashIsPolynomial(A(), B(), C(), D());
      hash := ConfigHash(A(), B(), C(), D());
    }

    /** The first residue that solves the formula, tried in order; 0 if there is none. */
    static method FindTarget(c: nat, left: nat) returns (target: nat)
      ensures target == TargetFrom(c, left, 0) && target < 17
      ensures (exists t :: 0 <= t < 17 && Solves(c, t, left)) ==> c * target % 17 == left
      ensures (forall t :: 0 <= t < 17 ==> !Solves(c, t, left)) ==> target == 0
      ensures forall t :: 0 <= t < target ==> !Solves(c, t, left)
    {
      FoundSolves(c, left);
      hide Solves;
      target := 0;
      var i := 0;
      while i < VALIDATION_MOD
        invariant 0 <= i <= VALIDATION_MOD && target == 0
        invariant TargetFrom(c, left, 0) == TargetFrom(c, left, i)
      {
        if Solves(c, i, left) {
          return i;
        }
        i := i + 1;
      }
    }

    /** Derives, adjusts and stores the four values and their checksum. */
    method UpdateTextureConfig(base: U32, now: int)
      modifies this
      ensures A() == base && B() == DeriveAnisotropic(base) && C() == DeriveMipmap(base) && D() == ShadowOf(base)
      ensures StoredHash() == Polynomial(A(), B(), C(), D()) && lastConfigUpdate == now
      ensures StoredUnderKeys(A(), B(), C(), D(), StoredHash())
    {
      hide Xor, DeriveAnisotropic, DeriveMipmap, DeriveShadow, Adjusted, Polynomial, TargetFrom;
      textureSampling := Xor(base, OBFUSCATE_KEY_A);
      var anisoVal := DeriveAnisotropic(base);
      var mipmapVal := DeriveMipmap(base);
      var shadowVal := DeriveShadow(base);
      var leftSide := Xor(base, anisoVal) % VALIDATION_MOD;
      var targetDMod := FindTarget(mipmapVal % VALIDATION_MOD, leftSide);
      var currentDMod := shadowVal % VALIDATION_MOD;
      UnchangedResidue(shadowVal);
      if currentDMod != targetDMod {
        shadowVal := Adjusted(shadowVal, targetDMod);
      }
      anisotropicLevel := Xor(anisoVal, OBFUSCATE_KEY_B);
      mipmapBias := Xor(mipmapVal, OBFUSCATE_KEY_C);
      shadowQuality := Xor(shadowVal, OBFUSCATE_KEY_D);
      LoadStored(base, OBFUSCATE_KEY_A);
      LoadStored(anisoVal, OBFUSCATE_KEY_B);
      LoadStored(mipmapVal, OBFUSCATE_KEY_C);
      LoadStored(shadowVal, OBFUSCATE_KEY_D);
      lastConfigUpdate := now;
      var checksum := ComputeConfigHash();
      configChecksum := Xor(checksum, OBFUSCATE_KEY_HASH);
      LoadStored(checksum, OBFUSCATE_KEY_HASH);
    }

    method ValidateRenderingConfig() returns (ok: bool)
      ensures ok == (&& Xor(A(), B()) % 17 == C() % 17 * (D() % 17) % 17
                     && A() % 23 == 0
                     && StoredHash() == Polynomial(A(), B(), C(), D()))
    {
      hide Xor, Polynomial;
      var a, b, c, d := A(), B(), C(), D();
      var left := Xor(a, b) % VALIDATION_MOD;
      var right := c % VALIDATION_MOD * (d % VALIDATION_MOD) % VALIDATION_MOD;
      if left != right {
        return false;
      }
      if a % CROSS_CHECK_MOD != 0 {
        return false;
      }
      var computedHash := ComputeConfigHash();
      if computedHash != StoredHash() {
        return false;
      }
      ok := true;
    }

    /** Updating and then validating succeeds for exactly the good base values. */
    method UpdateAndValidate(base: U32, now: int) returns (ok: bool)
      modifies this
      ensures ok == GoodBase(base)
    {
      hide Xor, Polynomial, GoodBase;
      UpdateTextureConfig(base, now);
      AcceptedAfterUpdate(base);
      ok := ValidateRenderingConfig();
    }

    /** Exactly one of the four loaded values is not the given one. */
    predicate OneDiffers(a: U32, b: U32, c: U32, d: U32)
      reads this
    {
      || (A() != a && B() == b && C() == c && D() == d) || (A() == a && B() != b && C() == c && D() == d)
      || (A() == a && B() == b && C() != c && D() == d) || (A() == a && B() == b && C() == c && D() != d)
    }

    /** After an update, other values get into the four fields: if exactly one of them loads differently, the validation
        fails. */
    method UpdateTamperAndValidate(base: U32, now: int, texture: U32, level: U32, bias: U32, quality: U32)
      returns (ok: bool)
      modifies this
      ensures OneDiffers(base, DeriveAnisotropic(base), DeriveMipmap(base), ShadowOf(base)) ==> !ok
    {
      hide Xor, Polynomial, DeriveAnisotropic, DeriveMipmap, ShadowOf;
      UpdateTextureConfig(base, now);
      var a, b, c, d := A(), B(), C(), D();
      textureSampling, anisotropicLevel, mipmapBias, shadowQuality := texture, level, bias, quality;
      OneChangeChangesHash(a, b, c, d, A());
      OneChangeChangesHash(a, b, c, d, B());
      OneChangeChangesHash(a, b, c, d, C());
      OneChangeChangesHash(a, b, c, d, D());
      ok := ValidateRenderingConfig();
    }
  }

  lemma FoundSolves(c: nat, left: nat)
    ensures var t := TargetFrom(c, left, 0); Solves(c, t, left) <==> c * t % 17 == left
  {
  }

  lemma UnchangedResidue(shadow: U32)
    ensures Adjusted(shadow, shadow % VALIDATION_MOD) == shadow
  {
  }

  /** A base value that passes the check of the base and whose update is refused all the same. */
  lemma RefusedBase()
    ensures 276 % CROSS_CHECK_MOD == 0 && !GoodBase(276)
  {
    hide Xor;
    RefusedAnisotropic();
    RefusedMipmap();
  }

  lemma XorWithZero(a: nat)
    ensures XorNat(a, 0) == a && XorNat(0, a) == a
  {
  }

  /** A number below 0x200 combined with a longer one. */
  lemma XorShort(high: nat, p: nat, q: nat, r: nat, x: nat, y: nat, z: nat)
    requires p < 16 && q < 16 && r < 16 && x < 16 && y < 16 && z < 16
    ensures XorNat(16 * (16 * x + y) + z, 16 * (16 * (16 * high + p) + q) + r)
         == 16 * (16 * (16 * high + XorNat(x, p)) + XorNat(y, q)) + XorNat(z, r)
  {
    hide XorNat;
    XorSplit16(16 * x + y, z, 16 * (16 * high + p) + q, r);
    XorSplit16(x, y, 16 * high + p, q);
    XorSplit16(0, x, high, p);
    XorWithZero(high);
  }

  lemma RefusedNibbles()
    ensures XorNat(1, 9) == 8 && XorNat(1, 0xb) == 0xa && XorNat(4, 1) == 5
    ensures XorNat(1, 0xc) == 0xd && XorNat(1, 0) == 1 && XorNat(4, 7) == 3
  {
    hide XorNat;
    Pairs();
    XorWithZero(0);
    XorWithZero(1);
    XorWithZero(2);
    XorWithZero(3);
    RefusedPairs();
    XorSplit4(0, 1, 2, 1);
    XorSplit4(0, 1, 2, 3);
    XorSplit4(1, 0, 0, 1);
    XorSplit4(0, 1, 3, 0);
    XorSplit4(1, 0, 1, 3);
  }

  lemma RefusedPairs()
    ensures XorNat(1, 1) == 0 && XorNat(1, 3) == 2
  {
  }

  lemma RefusedMixed()
    ensures Xor(276, FILTER_PRIME) == 0x9e37_78a5 && Xor(276, 0xb4dc_bc07) == 0xb4dc_bd13
  {
    hide XorNat;
    RefusedNibbles();
    XorShort(0x9e377, 9, 0xb, 1, 1, 1, 4);
    XorShort(0xb4dcb, 0xc, 0, 7, 1, 1, 4);
  }

  lemma RefusedAnisotropic()
    ensures LeftSide(276) == 13
  {
    hide Xor, RotatedProduct;
    RefusedMixed();
    RefusedProduct();
  }

  lemma RefusedProduct()
    ensures RotatedProduct(0x9e37_78a5) == 0xb4dc_bc07 && 0xb4dc_bd13 % VALIDATION_MOD == 13
  {
    Bits.DivUnique(0x9e37_78a5, 128, 0x013c_6ef1, 37);
    Bits.DivUnique(0x4b3c_6ef1 * ANISO_FACTOR, WORD_SIZE, 0x275b_b19d, 0xb4dc_bc07);
    Bits.DivUnique(0xb4dc_bd13, 17, 0x0aa3_92a6, 13);
  }

  lemma RefusedMipmap()
    ensures DeriveMipmap(276) % VALIDATION_MOD == 0
  {
    hide XorNat;
    XorWithZero(276 * 276);
    assert Xor(76176, 0) == 76176;
  }
}
