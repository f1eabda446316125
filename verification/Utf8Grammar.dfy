/** UTF-8 as RFC 3629 defines it: encodings of scalar values (section 3), and strings made of them (section 4). */
module Utf8Grammar {

  predicate IsScalar(c: bv32) {
    c <= 0x10ffff && !(0xd800 <= c <= 0xdfff)
  }

  function Tail(bits: bv32): bv8 { (0x80 | (bits & 0x3f)) as bv8 }

  /** The shortest form of a scalar value. */
  function Encoding(c: bv32): (s: seq<bv8>)
    requires IsScalar(c)
    ensures 1 <= |s| <= 4
  {
    if c < 0x80 then [c as bv8]
    else if c < 0x800 then [(0xc0 | (c >> 6)) as bv8, Tail(c)]
    else if c < 0x10000 then [(0xe0 | (c >> 12)) as bv8, Tail(c >> 6), Tail(c)]
    else [(0xf0 | (c >> 18)) as bv8, Tail(c >> 12), Tail(c >> 6), Tail(c)]
  }

  ghost predicate AllScalars(cs: seq<bv32>) { forall k | 0 <= k < |cs| :: IsScalar(cs[k]) }

  function EncodeAll(cs: seq<bv32>): seq<bv8>
    requires forall k | 0 <= k < |cs| :: IsScalar(cs[k])
  {
    if cs == [] then [] else Encoding(cs[0]) + EncodeAll(cs[1..])
  }

  /** The string is a concatenation of encodings of scalar values. */
  ghost predicate IsUtf8(s: seq<bv8>) {
    exists cs :: AllScalars(cs) && s == EncodeAll(cs)
  }
}
