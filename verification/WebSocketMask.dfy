/** The masking of section 5.3 of RFC 6455: one byte at a time, one word at a time, and in chunks. */
module WebSocketMask {

  /** Bytes in a machine word; keys and words are little-endian. */
  const WORD: nat := 8

  function KeyByte(key: bv32, i: nat): bv8
    requires i < 4
  {
    if i == 0 then (key & 0xff) as bv8
    else if i == 1 then ((key >> 8) & 0xff) as bv8
    else if i == 2 then ((key >> 16) & 0xff) as bv8
    else ((key >> 24) & 0xff) as bv8
  }

  function WordByte(w: bv64, i: nat): bv8
    requires i < WORD
  {
    if i == 0 then (w & 0xff) as bv8
    else if i == 1 then ((w >> 8) & 0xff) as bv8
    else if i == 2 then ((w >> 16) & 0xff) as bv8
    else if i == 3 then ((w >> 24) & 0xff) as bv8
    else if i == 4 then ((w >> 32) & 0xff) as bv8
    else if i == 5 then ((w >> 40) & 0xff) as bv8
    else if i == 6 then ((w >> 48) & 0xff) as bv8
    else ((w >> 56) & 0xff) as bv8
  }

  function WordOf(a: bv8, b: bv8, c: bv8, d: bv8, e: bv8, f: bv8, g: bv8, h: bv8): bv64 {
    (a as bv64) | ((b as bv64) << 8) | ((c as bv64) << 16) | ((d as bv64) << 24)
    | ((e as bv64) << 32) | ((f as bv64) << 40) | ((g as bv64) << 48) | ((h as bv64) << 56)
  }

  function Xor(a: bv8, b: bv8): bv8 { a ^ b }

  // ---------------------------------------------------------------- the masking of the standard

  /** Octet i of the data is combined with octet (i + offset) mod 4 of the key. */
  function Masked(s: seq<bv8>, key: bv32, offset: nat): (t: seq<bv8>)
    ensures |t| == |s|
  {
    seq(|s|, i requires 0 <= i < |s| => Xor(s[i], KeyByte(key, (offset + i) % 4)))
  }

  lemma XorTwice(a: bv8, b: bv8)
    ensures Xor(Xor(a, b), b) == a
  {
  }

  /** Masking twice gives the data back. */
  lemma MaskedTwice(s: seq<bv8>, key: bv32, offset: nat)
    ensures Masked(Masked(s, key, offset), key, offset) == s
  {
    hide Xor, KeyByte;
    forall i | 0 <= i < |s| ensures Masked(Masked(s, key, offset), key, offset)[i] == s[i] {
      XorTwice(s[i], KeyByte(key, (offset + i) % 4));
    }
  }

  lemma MaskedJoin(s: seq<bv8>, t: seq<bv8>, key: bv32, offset: nat)
    ensures Masked(s + t, key, offset) == Masked(s, key, offset) + Masked(t, key, offset + |s|)
  {
    hide Xor, KeyByte;
  }

  // ---------------------------------------------------------------- prepared keys

  function PrepareMaskingKey(key: bv32): bv64 {
    ((key as bv64) << 32) | (key as bv64)
  }

  /** Rotates right by that many bytes: (p >> 8 * offset) | (p << 8 * (8 - offset)). */
  function CircshiftPreparedKey(p: bv64, offset: nat): bv64
    requires offset < WORD
  {
    if offset == 0 then p
    else if offset == 1 then (p >> 8) | (p << 56)
    else if offset == 2 then (p >> 16) | (p << 48)
    else if offset == 3 then (p >> 24) | (p << 40)
    else if offset == 4 then (p >> 32) | (p << 32)
    else if offset == 5 then (p >> 40) | (p << 24)
    else if offset == 6 then (p >> 48) | (p << 16)
    else (p >> 56) | (p << 8)
  }

  /** The word repeats the key, starting at one of its octets. */
  ghost predicate Prepared(p: bv64, key: bv32, offset: nat) {
    forall i | 0 <= i < WORD :: WordByte(p, i) == KeyByte(key, (offset + i) % 4)
  }

  lemma PreparedKeyBytes(key: bv32)
    ensures WordByte(PrepareMaskingKey(key), 0) == KeyByte(key, 0)
            && WordByte(PrepareMaskingKey(key), 1) == KeyByte(key, 1)
    ensures WordByte(PrepareMaskingKey(key), 2) == KeyByte(key, 2)
            && WordByte(PrepareMaskingKey(key), 3) == KeyByte(key, 3)
    ensures WordByte(PrepareMaskingKey(key), 4) == KeyByte(key, 0)
            && WordByte(PrepareMaskingKey(key), 5) == KeyByte(key, 1)
    ensures WordByte(PrepareMaskingKey(key), 6) == KeyByte(key, 2)
            && WordByte(PrepareMaskingKey(key), 7) == KeyByte(key, 3)
  {
  }

  /** A fresh prepared key starts at the key's first octet. */
  lemma PreparedKey(key: bv32)
    ensures Prepared(PrepareMaskingKey(key), key, 0)
  {
    hide PrepareMaskingKey, WordByte, KeyByte;
    PreparedKeyBytes(key);
  }

  lemma ShiftedBytes(p: bv64, offset: nat, i: nat)
    requires offset < WORD && i < WORD
    ensures WordByte(CircshiftPreparedKey(p, offset), i) == WordByte(p, (offset + i) % WORD)
  {
    hide WordByte, CircshiftPreparedKey;
    if offset == 0 { Shifted0(p); }
    else if offset == 1 { Shifted1(p); }
    else if offset == 2 { Shifted2(p); }
    else if offset == 3 { Shifted3(p); }
    else if offset == 4 { Shifted4(p); }
    else if offset == 5 { Shifted5(p); }
    else if offset == 6 { Shifted6(p); }
    else { Shifted7(p); }
    if i == 0 { } else if i == 1 { } else if i == 2 { } else if i == 3 { }
    else if i == 4 { } else if i == 5 { } else if i == 6 { } else { }
  }

  lemma Shifted0(p: bv64)
    ensures WordByte(CircshiftPreparedKey(p, 0), 0) == WordByte(p, 0)
            && WordByte(CircshiftPreparedKey(p, 0), 1) == WordByte(p, 1)
    ensures WordByte(CircshiftPreparedKey(p, 0), 2) == WordByte(p, 2)
            && WordByte(CircshiftPreparedKey(p, 0), 3) == WordByte(p, 3)
    ensures WordByte(CircshiftPreparedKey(p, 0), 4) == WordByte(p, 4)
            && WordByte(CircshiftPreparedKey(p, 0), 5) == WordByte(p, 5)
    ensures WordByte(CircshiftPreparedKey(p, 0), 6) == WordByte(p, 6)
            && WordByte(CircshiftPreparedKey(p, 0), 7) == WordByte(p, 7)
  {
  }

  lemma Shifted1(p: bv64)
    ensures WordByte(CircshiftPreparedKey(p, 1), 0) == WordByte(p, 1)
            && WordByte(CircshiftPreparedKey(p, 1), 1) == WordByte(p, 2)
    ensures WordByte(CircshiftPreparedKey(p, 1), 2) == WordByte(p, 3)
            && WordByte(CircshiftPreparedKey(p, 1), 3) == WordByte(p, 4)
    ensures WordByte(CircshiftPreparedKey(p, 1), 4) == WordByte(p, 5)
            && WordByte(CircshiftPreparedKey(p, 1), 5) == WordByte(p, 6)
    ensures WordByte(CircshiftPreparedKey(p, 1), 6) == WordByte(p, 7)
            && WordByte(CircshiftPreparedKey(p, 1), 7) == WordByte(p, 0)
  {
  }

  lemma Shifted2(p: bv64)
    ensures WordByte(CircshiftPreparedKey(p, 2), 0) == WordByte(p, 2)
            && WordByte(CircshiftPreparedKey(p, 2), 1) == WordByte(p, 3)
    ensures WordByte(CircshiftPreparedKey(p, 2), 2) == WordByte(p, 4)
            && WordByte(CircshiftPreparedKey(p, 2), 3) == WordByte(p, 5)
    ensures WordByte(CircshiftPreparedKey(p, 2), 4) == WordByte(p, 6)
            && WordByte(CircshiftPreparedKey(p, 2), 5) == WordByte(p, 7)
    ensures WordByte(CircshiftPreparedKey(p, 2), 6) == WordByte(p, 0)
            && WordByte(CircshiftPreparedKey(p, 2), 7) == WordByte(p, 1)
  {
  }

  lemma Shifted3(p: bv64)
    ensures WordByte(CircshiftPreparedKey(p, 3), 0) == WordByte(p, 3)
            && WordByte(CircshiftPreparedKey(p, 3), 1) == WordByte(p, 4)
    ensures WordByte(CircshiftPreparedKey(p, 3), 2) == WordByte(p, 5)
            && WordByte(CircshiftPreparedKey(p, 3), 3) == WordByte(p, 6)
    ensures WordByte(CircshiftPreparedKey(p, 3), 4) == WordByte(p, 7)
            && WordByte(CircshiftPreparedKey(p, 3), 5) == WordByte(p, 0)
    ensures WordByte(CircshiftPreparedKey(p, 3), 6) == WordByte(p, 1)
            && WordByte(CircshiftPreparedKey(p, 3), 7) == WordByte(p, 2)
  {
  }

  lemma Shifted4(p: bv64)
    ensures WordByte(CircshiftPreparedKey(p, 4), 0) == WordByte(p, 4)
            && WordByte(CircshiftPreparedKey(p, 4), 1) == WordByte(p, 5)
    ensures WordByte(CircshiftPreparedKey(p, 4), 2) == WordByte(p, 6)
            && WordByte(CircshiftPreparedKey(p, 4), 3) == WordByte(p, 7)
    ensures WordByte(CircshiftPreparedKey(p, 4), 4) == WordByte(p, 0)
            && WordByte(CircshiftPreparedKey(p, 4), 5) == WordByte(p, 1)
    ensures WordByte(CircshiftPreparedKey(p, 4), 6) == WordByte(p, 2)
            && WordByte(CircshiftPreparedKey(p, 4), 7) == WordByte(p, 3)
  {
  }

  lemma Shifted5(p: bv64)
    ensures WordByte(CircshiftPreparedKey(p, 5), 0) == WordByte(p, 5)
            && WordByte(CircshiftPreparedKey(p, 5), 1) == WordByte(p, 6)
    ensures WordByte(CircshiftPreparedKey(p, 5), 2) == WordByte(p, 7)
            && WordByte(CircshiftPreparedKey(p, 5), 3) == WordByte(p, 0)
    ensures WordByte(CircshiftPreparedKey(p, 5), 4) == WordByte(p, 1)
            && WordByte(CircshiftPreparedKey(p, 5), 5) == WordByte(p, 2)
    ensures WordByte(CircshiftPreparedKey(p, 5), 6) == WordByte(p, 3)
            && WordByte(CircshiftPreparedKey(p, 5), 7) == WordByte(p, 4)
  {
  }

  lemma Shifted6(p: bv64)
    ensures WordByte(CircshiftPreparedKey(p, 6), 0) == WordByte(p, 6)
            && WordByte(CircshiftPreparedKey(p, 6), 1) == WordByte(p, 7)
    ensures WordByte(CircshiftPreparedKey(p, 6), 2) == WordByte(p, 0)
            && WordByte(CircshiftPreparedKey(p, 6), 3) == WordByte(p, 1)
    ensures WordByte(CircshiftPreparedKey(p, 6), 4) == WordByte(p, 2)
            && WordByte(CircshiftPreparedKey(p, 6), 5) == WordByte(p, 3)
    ensures WordByte(CircshiftPreparedKey(p, 6), 6) == WordByte(p, 4)
            && WordByte(CircshiftPreparedKey(p, 6), 7) == WordByte(p, 5)
  {
  }

  lemma Shifted7(p: bv64)
    ensures WordByte(CircshiftPreparedKey(p, 7), 0) == WordByte(p, 7)
            && WordByte(CircshiftPreparedKey(p, 7), 1) == WordByte(p, 0)
    ensures WordByte(CircshiftPreparedKey(p, 7), 2) == WordByte(p, 1)
            && WordByte(CircshiftPreparedKey(p, 7), 3) == WordByte(p, 2)
    ensures WordByte(CircshiftPreparedKey(p, 7), 4) == WordByte(p, 3)
            && WordByte(CircshiftPreparedKey(p, 7), 5) == WordByte(p, 4)
    ensures WordByte(CircshiftPreparedKey(p, 7), 6) == WordByte(p, 5)
            && WordByte(CircshiftPreparedKey(p, 7), 7) == WordByte(p, 6)
  {
  }

  lemma ModShift(x: nat, k: nat)
    ensures (x + 4 * k) % 4 == x % 4
  {
  }

  lemma ModFour(a: nat, b: nat)
    ensures (a + b % WORD) % 4 == (a + b) % 4 && (a + b % 4) % 4 == (a + b) % 4
  {
    ModShift(a + b % WORD, 2 * (b / WORD));
    ModShift(a + b % 4, b / 4);
  }

  lemma ModNext(n: nat)
    ensures (n % 4 + 1) % 4 == (n + 1) % 4
  {
    ModShift(n % 4 + 1, n / 4);
  }

  /** Shifting a prepared key moves its start along the key. */
  lemma ShiftedKey(p: bv64, key: bv32, offset: nat, count: nat)
    requires count < WORD && Prepared(p, key, offset)
    ensures Prepared(CircshiftPreparedKey(p, count), key, offset + count)
  {
    hide CircshiftPreparedKey, WordByte, KeyByte;
    forall i | 0 <= i < WORD
      ensures WordByte(CircshiftPreparedKey(p, count), i) == KeyByte(key, (offset + count + i) % 4)
    {
      ShiftedBytes(p, count, i);
      ModFour(offset, count + i);
    }
  }

  lemma WordBytesDecide(p: bv64, q: bv64)
    requires WordByte(p, 0) == WordByte(q, 0) && WordByte(p, 1) == WordByte(q, 1)
    requires WordByte(p, 2) == WordByte(q, 2) && WordByte(p, 3) == WordByte(q, 3)
    requires WordByte(p, 4) == WordByte(q, 4) && WordByte(p, 5) == WordByte(q, 5)
    requires WordByte(p, 6) == WordByte(q, 6) && WordByte(p, 7) == WordByte(q, 7)
    ensures p == q
  {
  }

  /** A key has one prepared word for each starting octet. */
  lemma PreparedOnce(p: bv64, q: bv64, key: bv32, offset: nat, other: nat)
    requires Prepared(p, key, offset) && Prepared(q, key, other) && offset % 4 == other % 4
    ensures p == q
  {
    hide WordByte, KeyByte;
    forall i: nat | i < WORD ensures WordByte(p, i) == WordByte(q, i) {
      ModFour(i, offset);
      ModFour(i, other);
    }
    WordBytesDecide(p, q);
  }

  // ---------------------------------------------------------------- circular masking

  /** What masking a chunk with a word, over and over, gives. */
  function Circular(s: seq<bv8>, p: bv64): (t: seq<bv8>)
    ensures |t| == |s|
  {
    seq(|s|, i requires 0 <= i < |s| => Xor(s[i], WordByte(p, i % WORD)))
  }

  /** The key for the data that follows n bytes. */
  function NextKey(p: bv64, n: nat): bv64 { CircshiftPreparedKey(p, n % WORD) }

  lemma CircularIsMasked(s: seq<bv8>, p: bv64, key: bv32, offset: nat)
    requires Prepared(p, key, offset)
    ensures Circular(s, p) == Masked(s, key, offset) && Prepared(NextKey(p, |s|), key, offset + |s|)
  {
    hide Xor, WordByte, KeyByte, CircshiftPreparedKey;
    forall i | 0 <= i < |s| ensures Circular(s, p)[i] == Masked(s, key, offset)[i] {
      ModFour(offset, i);
    }
    NextKeyPrepared(p, key, offset, |s|);
  }

  lemma NextKeyPrepared(p: bv64, key: bv32, offset: nat, n: nat)
    requires Prepared(p, key, offset)
    ensures Prepared(NextKey(p, n), key, offset + n)
  {
    hide Prepared, CircshiftPreparedKey;
    ShiftedKey(p, key, offset, n % WORD);
    ModFour(offset, n);
    SameStart(NextKey(p, n), key, offset + n % WORD, offset + n);
  }

  lemma SameStart(p: bv64, key: bv32, offset: nat, other: nat)
    requires Prepared(p, key, offset) && offset % 4 == other % 4
    ensures Prepared(p, key, other)
  {
    hide WordByte, KeyByte;
    forall i | 0 <= i < WORD ensures WordByte(p, i) == KeyByte(key, (other + i) % 4) {
      ModFour(i, offset);
      ModFour(i, other);
    }
  }

  function Joined(chunks: seq<seq<bv8>>): seq<bv8> {
    if chunks == [] then [] else chunks[0] + Joined(chunks[1..])
  }

  /** Masking chunk after chunk, each with the key that the one before returned. */
  function Streamed(chunks: seq<seq<bv8>>, p: bv64): seq<bv8> {
    if chunks == [] then [] else Circular(chunks[0], p) + Streamed(chunks[1..], NextKey(p, |chunks[0]|))
  }

  function LastKey(chunks: seq<seq<bv8>>, p: bv64): bv64 {
    if chunks == [] then p else LastKey(chunks[1..], NextKey(p, |chunks[0]|))
  }

  /** However a message is split, masking its chunks is masking the whole, octet by octet. */
  lemma {:induction false} StreamedIsMasked(chunks: seq<seq<bv8>>, p: bv64, key: bv32, offset: nat)
    requires Prepared(p, key, offset)
    ensures Streamed(chunks, p) == Masked(Joined(chunks), key, offset)
    ensures Prepared(LastKey(chunks, p), key, offset + |Joined(chunks)|)
    decreases |chunks|
  {
    hide Prepared, NextKey, Masked, Circular;
    if chunks == [] {
      assert Masked([], key, offset) == [];
    } else {
      CircularIsMasked(chunks[0], p, key, offset);
      StreamedIsMasked(chunks[1..], NextKey(p, |chunks[0]|), key, offset + |chunks[0]|);
      MaskedJoin(chunks[0], Joined(chunks[1..]), key, offset);
    }
  }

  /** What the byte-wise circular masking gives: only the low half of the word is used. */
  function ByteCircular(s: seq<bv8>, p: bv64): (t: seq<bv8>)
    ensures |t| == |s|
  {
    seq(|s|, i requires 0 <= i < |s| => Xor(s[i], WordByte(p, i % 4)))
  }

  /** On prepared keys the byte-wise and the word-wise maskings write the same bytes and return the same key. */
  lemma ByteCircularIsCircular(s: seq<bv8>, p: bv64, key: bv32, offset: nat)
    requires Prepared(p, key, offset)
    ensures ByteCircular(s, p) == Circular(s, p)
    ensures CircshiftPreparedKey(p, |s| % 4) == NextKey(p, |s|)
  {
    hide Xor, WordByte, KeyByte, CircshiftPreparedKey;
    forall i | 0 <= i < |s| ensures ByteCircular(s, p)[i] == Circular(s, p)[i] {
      ModFour(offset, i);
    }
    SameNextKey(p, key, offset, |s|);
  }

  lemma SameNextKey(p: bv64, key: bv32, offset: nat, n: nat)
    requires Prepared(p, key, offset)
    ensures CircshiftPreparedKey(p, n % 4) == NextKey(p, n)
  {
    hide Prepared, CircshiftPreparedKey;
    ShiftedKey(p, key, offset, n % 4);
    ShiftedKey(p, key, offset, n % WORD);
    ModFour(offset, n);
    PreparedOnce(CircshiftPreparedKey(p, n % 4), NextKey(p, n), key, offset + n % 4, offset + n % WORD);
  }

  // ---------------------------------------------------------------- the loops over buffers

  /** Byte by byte, from any octet of the key; the output may be the input's own buffer. */
  method ByteMask(input: array<bv8>, output: array<bv8>, length: nat, key: bv32, keyOffset: nat)
    requires length <= input.Length && length <= output.Length
    modifies output
    ensures output[..length] == Masked(old(input[..length]), key, keyOffset)
    ensures forall k | length <= k < output.Length :: output[k] == old(output[k])
  {
    hide Xor, KeyByte;
    var keyIndex := keyOffset % 4;
    for i := 0 to length
      invariant keyIndex == (keyOffset + i) % 4
      invariant forall k | 0 <= k < i :: output[k] == Xor(old(input[k]), KeyByte(key, (keyOffset + k) % 4))
      invariant forall k | i <= k < output.Length :: output[k] == old(output[k])
      invariant forall k | i <= k < length :: input[k] == old(input[k])
    {
      output[i] := Xor(input[i], KeyByte(key, keyIndex));
      ModNext(keyOffset + i);
      keyIndex := (keyIndex + 1) % 4;
    }
  }

  /** Eight bytes at a time. */
  method MaskWords(input: array<bv8>, output: array<bv8>, n: nat, p: bv64)
    requires WORD * n <= input.Length && WORD * n <= output.Length
    modifies output
    ensures forall k | 0 <= k < WORD * n :: output[k] == Xor(old(input[k]), WordByte(p, k % WORD))
    ensures forall k | WORD * n <= k < output.Length :: output[k] == old(output[k])
    ensures input != output ==> input[..] == old(input[..])
  {
    hide Xor, WordByte, WordOf;
    for i := 0 to n
      invariant forall k | 0 <= k < WORD * i :: output[k] == Xor(old(input[k]), WordByte(p, k % WORD))
      invariant forall k | WORD * i <= k < output.Length :: output[k] == old(output[k])
      invariant forall k | WORD * i <= k < input.Length :: input[k] == old(input[k])
    {
      MaskAlignedWord(input, output, WORD * i, p);
    }
  }

  method MaskAlignedWord(input: array<bv8>, output: array<bv8>, at: nat, p: bv64)
    requires at % WORD == 0 && at + WORD <= input.Length && at + WORD <= output.Length
    modifies output
    ensures forall k | at <= k < at + WORD :: output[k] == Xor(old(input[k]), WordByte(p, k % WORD))
    ensures forall k | 0 <= k < at || at + WORD <= k < output.Length :: output[k] == old(output[k])
  {
    hide Xor, WordByte;
    MaskWord(input, output, at, p);
    forall k | at <= k < at + WORD ensures output[k] == Xor(old(input[k]), WordByte(p, k % WORD)) {
      assert k % WORD == k - at;
    }
  }

  /** One word, read, combined and written back as a whole. */
  method MaskWord(input: array<bv8>, output: array<bv8>, at: nat, p: bv64)
    requires at + WORD <= input.Length && at + WORD <= output.Length
    modifies output
    ensures output[at] == Xor(old(input[at]), WordByte(p, 0))
            && output[at + 1] == Xor(old(input[at + 1]), WordByte(p, 1))
    ensures output[at + 2] == Xor(old(input[at + 2]), WordByte(p, 2))
            && output[at + 3] == Xor(old(input[at + 3]), WordByte(p, 3))
    ensures output[at + 4] == Xor(old(input[at + 4]), WordByte(p, 4))
            && output[at + 5] == Xor(old(input[at + 5]), WordByte(p, 5))
    ensures output[at + 6] == Xor(old(input[at + 6]), WordByte(p, 6))
            && output[at + 7] == Xor(old(input[at + 7]), WordByte(p, 7))
    ensures forall k | 0 <= k < at || at + WORD <= k < output.Length :: output[k] == old(output[k])
  {
    hide Xor, WordByte, WordOf, Xor64;
    var a, b, c, d := input[at], input[at + 1], input[at + 2], input[at + 3];
    var e, f, g, h := input[at + 4], input[at + 5], input[at + 6], input[at + 7];
    var w := Xor64(WordOf(a, b, c, d, e, f, g, h), p);
    XorWordBytes(a, b, c, d, e, f, g, h, p);
    StoreWord(output, at, w);
  }

  method StoreWord(output: array<bv8>, at: nat, w: bv64)
    requires at + WORD <= output.Length
    modifies output
    ensures output[at] == WordByte(w, 0) && output[at + 1] == WordByte(w, 1)
    ensures output[at + 2] == WordByte(w, 2) && output[at + 3] == WordByte(w, 3)
    ensures output[at + 4] == WordByte(w, 4) && output[at + 5] == WordByte(w, 5)
    ensures output[at + 6] == WordByte(w, 6) && output[at + 7] == WordByte(w, 7)
    ensures forall k | 0 <= k < at || at + WORD <= k < output.Length :: output[k] == old(output[k])
  {
    hide WordByte;
    output[at], output[at + 1], output[at + 2], output[at + 3] :=
      WordByte(w, 0), WordByte(w, 1), WordByte(w, 2), WordByte(w, 3);
    output[at + 4], output[at + 5], output[at + 6], output[at + 7] :=
      WordByte(w, 4), WordByte(w, 5), WordByte(w, 6), WordByte(w, 7);
  }

  function Xor64(v: bv64, w: bv64): bv64 { v ^ w }

  /** Combining words combines their bytes. */
  lemma XorWordBytes(a: bv8, b: bv8, c: bv8, d: bv8, e: bv8, f: bv8, g: bv8, h: bv8, p: bv64)
    ensures var w := Xor64(WordOf(a, b, c, d, e, f, g, h), p);
            && WordByte(w, 0) == Xor(a, WordByte(p, 0)) && WordByte(w, 1) == Xor(b, WordByte(p, 1))
            && WordByte(w, 2) == Xor(c, WordByte(p, 2)) && WordByte(w, 3) == Xor(d, WordByte(p, 3))
            && WordByte(w, 4) == Xor(e, WordByte(p, 4)) && WordByte(w, 5) == Xor(f, WordByte(p, 5))
            && WordByte(w, 6) == Xor(g, WordByte(p, 6)) && WordByte(w, 7) == Xor(h, WordByte(p, 7))
  {
    hide Xor, WordByte, Xor64, WordOf;
    var v := WordOf(a, b, c, d, e, f, g, h);
    BytesOfWord(a, b, c, d, e, f, g, h);
    XorByte0(v, p);
    XorByte1(v, p);
    XorByte2(v, p);
    XorByte3(v, p);
    XorByte4(v, p);
    XorByte5(v, p);
    XorByte6(v, p);
    XorByte7(v, p);
  }

  lemma BytesOfWord(a: bv8, b: bv8, c: bv8, d: bv8, e: bv8, f: bv8, g: bv8, h: bv8)
    ensures var v := WordOf(a, b, c, d, e, f, g, h);
            && WordByte(v, 0) == a && WordByte(v, 1) == b && WordByte(v, 2) == c && WordByte(v, 3) == d
            && WordByte(v, 4) == e && WordByte(v, 5) == f && WordByte(v, 6) == g && WordByte(v, 7) == h
  {
  }

  lemma XorByte0(v: bv64, p: bv64)
    ensures WordByte(Xor64(v, p), 0) == Xor(WordByte(v, 0), WordByte(p, 0))
  {
  }

  lemma XorByte1(v: bv64, p: bv64)
    ensures WordByte(Xor64(v, p), 1) == Xor(WordByte(v, 1), WordByte(p, 1))
  {
  }

  lemma XorByte2(v: bv64, p: bv64)
    ensures WordByte(Xor64(v, p), 2) == Xor(WordByte(v, 2), WordByte(p, 2))
  {
  }

  lemma XorByte3(v: bv64, p: bv64)
    ensures WordByte(Xor64(v, p), 3) == Xor(WordByte(v, 3), WordByte(p, 3))
  {
  }

  lemma XorByte4(v: bv64, p: bv64)
    ensures WordByte(Xor64(v, p), 4) == Xor(WordByte(v, 4), WordByte(p, 4))
  {
  }

  lemma XorByte5(v: bv64, p: bv64)
    ensures WordByte(Xor64(v, p), 5) == Xor(WordByte(v, 5), WordByte(p, 5))
  {
  }

  lemma XorByte6(v: bv64, p: bv64)
    ensures WordByte(Xor64(v, p), 6) == Xor(WordByte(v, 6), WordByte(p, 6))
  {
  }

  lemma XorByte7(v: bv64, p: bv64)
    ensures WordByte(Xor64(v, p), 7) == Xor(WordByte(v, 7), WordByte(p, 7))
  {
  }

  method MaskKeyWords(input: array<bv8>, output: array<bv8>, n: nat, key: bv32)
    requires WORD * n <= input.Length && WORD * n <= output.Length
    modifies output
    ensures forall k | 0 <= k < WORD * n :: output[k] == Xor(old(input[k]), KeyByte(key, k % 4))
    ensures forall k | WORD * n <= k < output.Length :: output[k] == old(output[k])
    ensures input != output ==> input[..] == old(input[..])
  {
    hide Xor, WordByte, KeyByte, PrepareMaskingKey;
    var p := PrepareMaskingKey(key);
    MaskWords(input, output, n, p);
    PreparedKey(key);
    RepeatedKey(p, key);
  }

  /** Whole words, then the remainder byte by byte. */
  method WordMaskExact(input: array<bv8>, output: array<bv8>, length: nat, key: bv32)
    requires length <= input.Length && length <= output.Length
    modifies output
    ensures output[..length] == Masked(old(input[..length]), key, 0)
    ensures forall k | length <= k < output.Length :: output[k] == old(output[k])
  {
    hide Xor, KeyByte;
    var n := length / WORD;
    MaskKeyWords(input, output, n, key);
    for i := n * WORD to length
      invariant forall k | 0 <= k < i :: output[k] == Xor(old(input[k]), KeyByte(key, k % 4))
      invariant forall k | i <= k < output.Length :: output[k] == old(output[k])
      invariant forall k | i <= k < length :: input[k] == old(input[k])
    {
      output[i] := Xor(input[i], KeyByte(key, i % 4));
    }
  }

  lemma RepeatedKey(p: bv64, key: bv32)
    requires Prepared(p, key, 0)
    ensures forall k: nat :: WordByte(p, k % WORD) == KeyByte(key, k % 4)
  {
    hide WordByte, KeyByte;
    forall k: nat ensures WordByte(p, k % WORD) == KeyByte(key, k % 4) {
      ModFour(0, k);
    }
  }

  /** Whole words, then the remainder with the word's own bytes; returns the key for the data that follows. */
  method WordMaskCirc(input: array<bv8>, output: array<bv8>, length: nat, p: bv64) returns (next: bv64)
    requires length <= input.Length && length <= output.Length
    modifies output
    ensures output[..length] == Circular(old(input[..length]), p) && next == NextKey(p, length)
    ensures forall k | length <= k < output.Length :: output[k] == old(output[k])
  {
    hide Xor, WordByte, CircshiftPreparedKey;
    var n := length / WORD;
    var l := length - n * WORD;
    MaskWords(input, output, n, p);
    var start := length - l;
    for i := 0 to l
      invariant forall k | 0 <= k < start + i :: output[k] == Xor(old(input[k]), WordByte(p, k % WORD))
      invariant forall k | start + i <= k < output.Length :: output[k] == old(output[k])
      invariant forall k | start + i <= k < length :: input[k] == old(input[k])
    {
      assert (start + i) % WORD == i;
      output[start + i] := Xor(input[start + i], WordByte(p, i));
    }
    next := CircshiftPreparedKey(p, l);
  }

  /** Byte by byte, with the low half of the word as the key. */
  method ByteMaskCirc(input: array<bv8>, output: array<bv8>, length: nat, p: bv64) returns (next: bv64)
    requires length <= input.Length && length <= output.Length
    modifies output
    ensures output[..length] == ByteCircular(old(input[..length]), p) && next == CircshiftPreparedKey(p, length % 4)
    ensures forall k | length <= k < output.Length :: output[k] == old(output[k])
  {
    hide Xor, WordByte, KeyByte, CircshiftPreparedKey;
    var key := (p & 0xffff_ffff) as bv32;
    LowHalf(p);
    for i := 0 to length
      invariant forall k | 0 <= k < i :: output[k] == Xor(old(input[k]), WordByte(p, k % 4))
      invariant forall k | i <= k < output.Length :: output[k] == old(output[k])
      invariant forall k | i <= k < length :: input[k] == old(input[k])
    {
      output[i] := Xor(input[i], KeyByte(key, i % 4));
    }
    next := CircshiftPreparedKey(p, length % 4);
  }

  lemma LowHalf(p: bv64)
    ensures forall i | 0 <= i < 4 :: KeyByte((p & 0xffff_ffff) as bv32, i) == WordByte(p, i)
  {
  }
}
