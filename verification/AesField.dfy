/** Arithmetic of section 4 of FIPS 197: bytes as elements of GF(2^8), words as columns of four bytes. */
module AesField {

  /** Addition of field elements. */
  function Add(a: bv8, b: bv8): bv8 { a ^ b }

  function Sum4(a: bv8, b: bv8, c: bv8, d: bv8): bv8 { Add(Add(Add(a, b), c), d) }

  /** Multiplication by x. */
  function Xtime(b: bv8): bv8 { Add(b << 1, Reduction(b)) }

  /** What the polynomial x^8 + x^4 + x^3 + x + 1 leaves of a carry out of the top bit. */
  function Reduction(b: bv8): bv8 { if b & 0x80 != 0 then 0x1b else 0 }

  function Mul3(b: bv8): bv8 { Add(Xtime(b), b) }

  function Mul9(b: bv8): bv8 { Add(Xtime(Xtime(Xtime(b))), b) }

  function Mul11(b: bv8): bv8 { Add(Add(Xtime(Xtime(Xtime(b))), Xtime(b)), b) }

  function Mul13(b: bv8): bv8 { Add(Add(Xtime(Xtime(Xtime(b))), Xtime(Xtime(b))), b) }

  function Mul14(b: bv8): bv8 { Add(Add(Xtime(Xtime(Xtime(b))), Xtime(Xtime(b))), Xtime(b)) }

  /** A coefficient of a field element. */
  predicate Bit(b: bv8, k: nat)
    requires k < 8
  {
    if k == 0 then b & 0x01 != 0
    else if k == 1 then b & 0x02 != 0
    else if k == 2 then b & 0x04 != 0
    else if k == 3 then b & 0x08 != 0
    else if k == 4 then b & 0x10 != 0
    else if k == 5 then b & 0x20 != 0
    else if k == 6 then b & 0x40 != 0
    else b & 0x80 != 0
  }

  function Part(bit: bool, a: bv8): bv8 { if bit then a else 0 }

  /** General multiplication, by the bits of the second factor. */
  function Mul(a: bv8, b: bv8): bv8 {
    var a1 := Xtime(a);
    var a2 := Xtime(a1);
    var a3 := Xtime(a2);
    var a4 := Xtime(a3);
    var a5 := Xtime(a4);
    var a6 := Xtime(a5);
    var a7 := Xtime(a6);
    Add(Sum4(Part(Bit(b, 0), a), Part(Bit(b, 1), a1), Part(Bit(b, 2), a2), Part(Bit(b, 3), a3)),
        Sum4(Part(Bit(b, 4), a4), Part(Bit(b, 5), a5), Part(Bit(b, 6), a6), Part(Bit(b, 7), a7)))
  }

  /** y is the multiplicative inverse of x, with zero mapped to itself. */
  predicate IsInverse(x: bv8, y: bv8) {
    if x == 0 then y == 0 else Mul(x, y) == 1
  }

  function RotL(b: bv8, k: bv4): bv8
    requires 0 < k < 8
  {
    (b << k) | (b >> (8 - k))
  }

  /** The affine map of section 5.1.1, and its inverse. */
  function Affine(b: bv8): bv8 { b ^ RotL(b, 1) ^ RotL(b, 2) ^ RotL(b, 3) ^ RotL(b, 4) ^ 0x63 }

  function InvAffine(s: bv8): bv8 { RotL(s, 1) ^ RotL(s, 3) ^ RotL(s, 6) ^ 0x05 }

  /** A big-endian word. */
  function Word(a: bv8, b: bv8, c: bv8, d: bv8): bv32 {
    ((a as bv32) << 24) | ((b as bv32) << 16) | ((c as bv32) << 8) | (d as bv32)
  }

  /** The bytes of a word under a mask. */
  function Masked(w: bv32, mask: bv32): bv32 { w & mask }
}
