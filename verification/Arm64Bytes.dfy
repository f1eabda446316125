/** The byte loops behind 64-bit literals, little-endian, and the word memory that the machine model reads them from. */
module Arm64Bytes {
  import opened Arm64Bits

  type U8 = x: int | 0 <= x < 0x100

  /** The number that bytes stand for, least significant first. */
  function Little(s: seq<U8>): nat {
    if s == [] then 0 else s[0] + 0x100 * Little(s[1..])
  }

  /** `value >> 8 * i`. */
  function Shifted(value: nat, i: nat): nat {
    if i == 0 then value else Shifted(value, i - 1) / 0x100
  }

  /** `1 << 8 * i`. */
  function Place(i: nat): nat {
    if i == 0 then 1 else 0x100 * Place(i - 1)
  }

  lemma PlaceAndRest(p: int, b: int, rest: int)
    ensures p * (b + 0x100 * rest) == b * p + 0x100 * p * rest
  {
    assert p * (b + 0x100 * rest) == p * b + p * (0x100 * rest);
    assert p * (0x100 * rest) == 0x100 * p * rest;
  }

  /** Adds up the eight bytes, each shifted to its place. */
  method Get8(p: array<U8>, at: nat) returns (ret: nat)
    requires at + 8 <= p.Length
    ensures ret == Little(p[at..at + 8])
  {
    hide Little;
    ret := 0;
    for i := 0 to 8
      invariant ret + Place(i) * Little(p[at + i..at + 8]) == Little(p[at..at + 8])
    {
      LittleStep(p[at + i..at + 8]);
      assert p[at + i..at + 8][1..] == p[at + i + 1..at + 8];
      PlaceAndRest(Place(i), p[at + i], Little(p[at + i + 1..at + 8]));
      ret := ret + p[at + i] * Place(i);
    }
    assert p[at + 8..at + 8] == [];
    LittleOfNothing();
  }

  lemma LittleStep(s: seq<U8>)
    requires s != []
    ensures Little(s) == s[0] + 0x100 * Little(s[1..])
  {
  }

  lemma LittleOfNothing()
    ensures Little([]) == 0
  {
  }

  /** Stores the eight bytes of a word; nothing else changes. */
  method Set8(p: array<U8>, at: nat, value: U64)
    requires at + 8 <= p.Length
    modifies p
    ensures Little(p[at..at + 8]) == value
    ensures forall k | 0 <= k < at || at + 8 <= k < p.Length :: p[k] == old(p[k])
  {
    hide Little, Shifted;
    for i := 0 to 8
      invariant forall k: nat | k < i :: p[at + k] == Shifted(value, k) % 0x100
      invariant forall k | 0 <= k < at || at + 8 <= k < p.Length :: p[k] == old(p[k])
    {
      p[at + i] := Shifted(value, i) % 0x100;
    }
    ShiftedAway(value);
    assert p[at..at + 8][0..] == p[at..at + 8];
    StoredBytes(p[at..at + 8], value, 0);
  }

  /** The bytes from place i on stand for the value shifted by i bytes, when eight bytes hold it all. */
  lemma {:induction false} StoredBytes(s: seq<U8>, value: nat, i: nat)
    requires |s| == 8 && i <= 8 && Shifted(value, 8) == 0
    requires forall k: nat | k < 8 :: s[k] == Shifted(value, k) % 0x100
    ensures Little(s[i..]) == Shifted(value, i)
    decreases 8 - i
  {
    hide Little;
    if i == 8 {
      LittleOfNothing();
    } else {
      StoredBytes(s, value, i + 1);
      LittleStep(s[i..]);
      assert s[i..][1..] == s[i + 1..];
    }
  }

  lemma ShiftedAway(value: U64)
    ensures Shifted(value, 8) == 0 && Shifted(value, 0) == value
  {
    ShiftedNone(value);
    hide Shifted;
    ShiftedBound(value, 0x100_0000_0000_0000, 1);
    ShiftedBound(value, 0x1_0000_0000_0000, 2);
    ShiftedBound(value, 0x100_0000_0000, 3);
    ShiftedBound(value, 0x1_0000_0000, 4);
    ShiftedBound(value, 0x100_0000, 5);
    ShiftedBound(value, 0x1_0000, 6);
    ShiftedBound(value, 0x100, 7);
    ShiftedBound(value, 1, 8);
  }

  lemma ShiftedNone(value: nat)
    ensures Shifted(value, 0) == value
  {
  }

  lemma ShiftedBound(value: nat, bound: nat, i: nat)
    requires i > 0 && Shifted(value, i - 1) < 0x100 * bound
    ensures Shifted(value, i) < bound
  {
  }

  lemma {:induction false} LittleJoin(s: seq<U8>, t: seq<U8>)
    ensures Little(s + t) == Little(s) + Place(|s|) * Little(t)
  {
    if s == [] {
      assert s + t == t;
    } else {
      LittleJoin(s[1..], t);
      assert (s + t)[1..] == s[1..] + t;
      PlaceAndRest(1, s[0], Little(s[1..]) + Place(|s| - 1) * Little(t));
      assert 0x100 * (Place(|s| - 1) * Little(t)) == Place(|s|) * Little(t);
    }
  }

  /** Eight bytes are two words, the lower one first: what `Arm64Machine.Read64` assumes of the word memory. */
  lemma TwoWords(s: seq<U8>)
    requires |s| == 8
    ensures Little(s) == Little(s[..4]) + 0x1_0000_0000 * Little(s[4..])
  {
    assert s == s[..4] + s[4..];
    LittleJoin(s[..4], s[4..]);
    assert Place(2) == 0x1_0000 && Place(4) == 0x1_0000_0000;
  }
}
