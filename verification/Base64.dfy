/** Base64 as section 4 of RFC 4648 defines it, and the encoder and decoder that step through it byte by byte. */
module Base64 {

  const PAD: bv8 := 0x3d
  const DECODE_FIRST: bv8 := 0x2b
  const DECODE_LAST: bv8 := 0x7a
  const WORD_SIZE: nat := 0x1_0000_0000

  // ---------------------------------------------------------------- the tables

  function EncodeTable(x: bv8): bv8 {
    var b5, b4, b3 := x & 0x20 != 0, x & 0x10 != 0, x & 0x08 != 0;
    var b2, b1, b0 := x & 0x04 != 0, x & 0x02 != 0, x & 0x01 != 0;
    (if !b5 then
    (if !b4 then
    (if !b3 then
    (if !b2 then
    (if b1 then (if b0 then 0x44 else 0x43) else (if b0 then 0x42 else 0x41))
    else
    (if b1 then (if b0 then 0x48 else 0x47) else (if b0 then 0x46 else 0x45)))
    else
    (if !b2 then
    (if b1 then (if b0 then 0x4c else 0x4b) else (if b0 then 0x4a else 0x49))
    else
    (if b1 then (if b0 then 0x50 else 0x4f) else (if b0 then 0x4e else 0x4d))))
    else
    (if !b3 then
    (if !b2 then
    (if b1 then (if b0 then 0x54 else 0x53) else (if b0 then 0x52 else 0x51))
    else
    (if b1 then (if b0 then 0x58 else 0x57) else (if b0 then 0x56 else 0x55)))
    else
    (if !b2 then
    (if b1 then (if b0 then 0x62 else 0x61) else (if b0 then 0x5a else 0x59))
    else
    (if b1 then (if b0 then 0x66 else 0x65) else (if b0 then 0x64 else 0x63)))))
    else
    (if !b4 then
    (if !b3 then
    (if !b2 then
    (if b1 then (if b0 then 0x6a else 0x69) else (if b0 then 0x68 else 0x67))
    else
    (if b1 then (if b0 then 0x6e else 0x6d) else (if b0 then 0x6c else 0x6b)))
    else
    (if !b2 then
    (if b1 then (if b0 then 0x72 else 0x71) else (if b0 then 0x70 else 0x6f))
    else
    (if b1 then (if b0 then 0x76 else 0x75) else (if b0 then 0x74 else 0x73))))
    else
    (if !b3 then
    (if !b2 then
    (if b1 then (if b0 then 0x7a else 0x79) else (if b0 then 0x78 else 0x77))
    else
    (if b1 then (if b0 then 0x33 else 0x32) else (if b0 then 0x31 else 0x30)))
    else
    (if !b2 then
    (if b1 then (if b0 then 0x37 else 0x36) else (if b0 then 0x35 else 0x34))
    else
    (if b1 then (if b0 then 0x2f else 0x2b) else (if b0 then 0x39 else 0x38))))))
  }

  /** The decoding table, by the seven bits of an index below 128; 255 marks a character outside the alphabet. */
  function DecodeTable(x: bv8): bv8 {
    var b6, b5, b4, b3 := x & 0x40 != 0, x & 0x20 != 0, x & 0x10 != 0, x & 0x08 != 0;
    var b2, b1, b0 := x & 0x04 != 0, x & 0x02 != 0, x & 0x01 != 0;
    (if !b6 then
    (if !b5 then
    255
    else
    (if !b4 then
    (if !b3 then
    255
    else
    (if !b2 then
    (if b1 then (if b0 then 62 else 255) else (if b0 then 255 else 255))
    else
    (if b1 then (if b0 then 63 else 255) else (if b0 then 255 else 255))))
    else
    (if !b3 then
    (if !b2 then
    (if b1 then (if b0 then 55 else 54) else (if b0 then 53 else 52))
    else
    (if b1 then (if b0 then 59 else 58) else (if b0 then 57 else 56)))
    else
    (if !b2 then
    (if b1 then (if b0 then 255 else 255) else (if b0 then 61 else 60))
    else
    (if b1 then (if b0 then 255 else 255) else (if b0 then 255 else 255))))))
    else
    (if !b5 then
    (if !b4 then
    (if !b3 then
    (if !b2 then
    (if b1 then (if b0 then 2 else 1) else (if b0 then 0 else 255))
    else
    (if b1 then (if b0 then 6 else 5) else (if b0 then 4 else 3)))
    else
    (if !b2 then
    (if b1 then (if b0 then 10 else 9) else (if b0 then 8 else 7))
    else
    (if b1 then (if b0 then 14 else 13) else (if b0 then 12 else 11))))
    else
    (if !b3 then
    (if !b2 then
    (if b1 then (if b0 then 18 else 17) else (if b0 then 16 else 15))
    else
    (if b1 then (if b0 then 22 else 21) else (if b0 then 20 else 19)))
    else
    (if !b2 then
    (if b1 then (if b0 then 255 else 25) else (if b0 then 24 else 23))
    else
    (if b1 then (if b0 then 255 else 255) else (if b0 then 255 else 255)))))
    else
    (if !b4 then
    (if !b3 then
    (if !b2 then
    (if b1 then (if b0 then 28 else 27) else (if b0 then 26 else 255))
    else
    (if b1 then (if b0 then 32 else 31) else (if b0 then 30 else 29)))
    else
    (if !b2 then
    (if b1 then (if b0 then 36 else 35) else (if b0 then 34 else 33))
    else
    (if b1 then (if b0 then 40 else 39) else (if b0 then 38 else 37))))
    else
    (if !b3 then
    (if !b2 then
    (if b1 then (if b0 then 44 else 43) else (if b0 then 42 else 41))
    else
    (if b1 then (if b0 then 48 else 47) else (if b0 then 46 else 45)))
    else
    (if !b2 then
    (if b1 then (if b0 then 255 else 51) else (if b0 then 50 else 49))
    else
    (if b1 then (if b0 then 255 else 255) else (if b0 then 255 else 255)))))))
  }

  /** Table 1 of RFC 4648: A-Z, a-z, 0-9, '+' and '/'. */
  function Alphabet(x: bv8): bv8
    requires x < 64
  {
    if x < 26 then 0x41 + x
    else if x < 52 then 0x61 + (x - 26)
    else if x < 62 then 0x30 + (x - 52)
    else if x == 62 then 0x2b
    else 0x2f
  }

  lemma EncodeTableIsAlphabet(x: bv8)
    requires x < 64
    ensures EncodeTable(x) == Alphabet(x)
  {
  }

  /** What the decoder makes of one character that is not the pad: its value, or 255. */
  function Value(c: bv8): bv8 {
    if c < DECODE_FIRST || c > DECODE_LAST then 255 else DecodeTable(c)
  }

  /** The decoder knows the alphabet, the whole alphabet and nothing else. */
  lemma ValueOfAlphabet(x: bv8)
    requires x < 64
    ensures Value(Alphabet(x)) == x && Alphabet(x) != PAD
  {
  }

  lemma AlphabetOfValue(c: bv8)
    requires Value(c) != 255
    ensures Value(c) < 64 && Alphabet(Value(c)) == c
  {
  }

  // ---------------------------------------------------------------- the encoding

  /** The number of six-bit groups that n bytes fill, the last one padded with zero bits. */
  function SextetCount(n: nat): nat { (4 * n + 2) / 3 }

  /** The number of characters that n bytes complete. */
  function Completed(n: nat): nat { 4 * n / 3 }

  function EncodedLength(n: nat): nat { 4 * ((n + 2) / 3) }

  /** The buffer size that the callers allocate, terminator included. */
  function EncodeOutSize(n: nat): nat { EncodedLength(n) + 1 }

  function DecodeOutSize(n: nat): nat { 3 * (n / 4) }

  function ByteOrZero(s: seq<bv8>, k: nat): bv8 {
    if k < |s| then s[k] else 0
  }

  /** Bits 6m to 6m + 5 of the byte string, most significant first, and zeros past its end. */
  function SextetAt(s: seq<bv8>, m: nat): (x: bv8)
    ensures x < 64
  {
    var g := m / 4 * 3;
    if m % 4 == 0 then First(ByteOrZero(s, g))
    else if m % 4 == 1 then Second(ByteOrZero(s, g), ByteOrZero(s, g + 1))
    else if m % 4 == 2 then Third(ByteOrZero(s, g + 1), ByteOrZero(s, g + 2))
    else Fourth(ByteOrZero(s, g + 2))
  }

  function First(a: bv8): (x: bv8)
    ensures x < 64
  {
    (a >> 2) & 0x3f
  }

  function Second(a: bv8, b: bv8): (x: bv8)
    ensures x < 64
  {
    ((a & 0x3) << 4) | ((b >> 4) & 0xf)
  }

  function Third(b: bv8, c: bv8): (x: bv8)
    ensures x < 64
  {
    ((b & 0xf) << 2) | ((c >> 6) & 0x3)
  }

  function Fourth(c: bv8): (x: bv8)
    ensures x < 64
  {
    c & 0x3f
  }

  /** Bit k of a byte, the most significant first. */
  function Bit(b: bv8, k: nat): bool
    requires k < 8
  {
    if k == 0 then b & 0x80 != 0 else if k == 1 then b & 0x40 != 0
    else if k == 2 then b & 0x20 != 0 else if k == 3 then b & 0x10 != 0
    else if k == 4 then b & 0x08 != 0 else if k == 5 then b & 0x04 != 0
    else if k == 6 then b & 0x02 != 0 else b & 0x01 != 0
  }

  /** Bit p of a byte string, and zero past its end. */
  function StreamBit(s: seq<bv8>, p: nat): bool { Bit(ByteOrZero(s, p / 8), p % 8) }

  lemma FirstBits(a: bv8, t: nat)
    requires t < 6
    ensures Bit(First(a), t + 2) == Bit(a, t)
  {
  }

  lemma SecondBits(a: bv8, b: bv8, t: nat)
    requires t < 6
    ensures Bit(Second(a, b), t + 2) == if t < 2 then Bit(a, t + 6) else Bit(b, t - 2)
  {
  }

  lemma ThirdBits(b: bv8, c: bv8, t: nat)
    requires t < 6
    ensures Bit(Third(b, c), t + 2) == if t < 4 then Bit(b, t + 4) else Bit(c, t - 4)
  {
  }

  lemma FourthBits(c: bv8, t: nat)
    requires t < 6
    ensures Bit(Fourth(c), t + 2) == Bit(c, t + 2)
  {
  }

  /** The six bits of sextet m are bits 6m to 6m + 5 of the byte string: the regrouping that RFC 4648 describes. */
  lemma SextetBits(s: seq<bv8>, m: nat, t: nat)
    requires t < 6
    ensures Bit(SextetAt(s, m), t + 2) == StreamBit(s, 6 * m + t)
  {
    hide Bit, First, Second, Third, Fourth, ByteOrZero;
    var g, r := m / 4 * 3, m % 4;
    Regrouped(m, t);
    if r == 0 {
      FirstBits(ByteOrZero(s, g), t);
    } else if r == 1 {
      SecondBits(ByteOrZero(s, g), ByteOrZero(s, g + 1), t);
    } else if r == 2 {
      ThirdBits(ByteOrZero(s, g + 1), ByteOrZero(s, g + 2), t);
    } else {
      FourthBits(ByteOrZero(s, g + 2), t);
    }
  }

  lemma Regrouped(m: nat, t: nat)
    requires t < 6
    ensures var g, q := m / 4 * 3, 6 * (m % 4) + t; (6 * m + t) / 8 == g + q / 8 && (6 * m + t) % 8 == q % 8
  {
    var h, q := m / 4, 6 * (m % 4) + t;
    assert 6 * m + t == 8 * (3 * h) + q;
  }

  /** The m-th character of the encoding of s. */
  function Symbol(s: seq<bv8>, m: nat): bv8 {
    if m < SextetCount(|s|) then Alphabet(SextetAt(s, m)) else PAD
  }

  function Encoded(s: seq<bv8>): (t: seq<bv8>)
    ensures |t| == EncodedLength(|s|)
  {
    seq(EncodedLength(|s|), m requires 0 <= m => Symbol(s, m))
  }

  /** How an encoding ends: in two equals signs, in one, or in none, by the number of bytes left over. */
  lemma EqualsSigns(s: seq<bv8>)
    ensures var t, n := Encoded(s), |Encoded(s)|;
            && (|s| % 3 == 1 ==> n >= 4 && t[n - 1] == t[n - 2] == 0x3d && t[n - 3] != 0x3d)
            && (|s| % 3 == 2 ==> n >= 4 && t[n - 1] == 0x3d && t[n - 2] != 0x3d)
            && (|s| % 3 == 0 && n > 0 ==> t[n - 1] != 0x3d)
  {
    hide Alphabet, SextetAt, EncodedLength, SextetCount, Completed;
    LengthByRest(|s|);
    ThirdsOf(|s|);
    var n := |Encoded(s)|;
    if n > 0 {
      AlphabetHasNoPad(SextetAt(s, n - 1));
      AlphabetHasNoPad(SextetAt(s, n - 2));
      AlphabetHasNoPad(SextetAt(s, n - 3));
    }
  }

  lemma ThirdsOf(n: nat)
    ensures n % 3 != 0 ==> EncodedLength(n) >= 4 && EncodedLength(n) == 4 * (n / 3) + 4
    ensures n % 3 == 0 ==> EncodedLength(n) == 4 * (n / 3)
    ensures Completed(n) == 4 * (n / 3) + n % 3
  {
    var q, r := n / 3, n % 3;
    Thirds(n + 2, if r == 0 then q else q + 1, if r == 0 then 2 else r - 1);
    Thirds(4 * n, 4 * q + r, r);
  }

  lemma AlphabetHasNoPad(x: bv8)
    requires x < 64
    ensures Alphabet(x) != 0x3d
  {
  }

  /** The fifth example of section 10 of RFC 4648: "foob" is encoded as "Zm9vYg==". */
  lemma EncodedFoob()
    ensures var t := Encoded([0x66, 0x6f, 0x6f, 0x62]);
            && |t| == 8 && t[0] == 0x5a && t[1] == 0x6d && t[2] == 0x39 && t[3] == 0x76
            && t[4] == 0x59 && t[5] == 0x67 && t[6] == 0x3d && t[7] == 0x3d
  {
    assert EncodedLength(4) == 8;
    hide Symbol, EncodedLength;
    FoobSymbols([0x66, 0x6f, 0x6f, 0x62]);
  }

  lemma FoobSymbols(s: seq<bv8>)
    requires s == [0x66, 0x6f, 0x6f, 0x62]
    ensures Symbol(s, 0) == 0x5a && Symbol(s, 1) == 0x6d && Symbol(s, 2) == 0x39 && Symbol(s, 3) == 0x76
    ensures Symbol(s, 4) == 0x59 && Symbol(s, 5) == 0x67 && Symbol(s, 6) == 0x3d && Symbol(s, 7) == 0x3d
  {
    hide Alphabet;
    FoobSextets();
    FoobAlphabet();
  }

  lemma FoobSextets()
    ensures First(0x66) == 25 && Second(0x66, 0x6f) == 38 && Third(0x6f, 0x6f) == 61 && Fourth(0x6f) == 47
    ensures First(0x62) == 24 && Second(0x62, 0) == 32
  {
  }

  lemma FoobAlphabet()
    ensures Alphabet(25) == 0x5a && Alphabet(38) == 0x6d && Alphabet(61) == 0x39 && Alphabet(47) == 0x76
    ensures Alphabet(24) == 0x59 && Alphabet(32) == 0x67
  {
  }

  // ---------------------------------------------------------------- the decoding

  /** The number of characters before the first that is outside the alphabet, which the pad is. */
  function Stop(t: seq<bv8>): (n: nat)
    ensures n <= |t|
    ensures forall k | 0 <= k < n :: Value(t[k]) != 255
    ensures n < |t| ==> Value(t[n]) == 255
  {
    if t == [] || Value(t[0]) == 255 then 0 else 1 + Stop(t[1..])
  }

  /** The text has a whole number of quads, and only characters of the alphabet before its first pad. */
  ghost predicate WellFormed(t: seq<bv8>) {
    |t| % 4 == 0 && (Stop(t) < |t| ==> t[Stop(t)] == PAD)
  }

  /** What a character leaves for the next byte, by its place in the quad. */
  function Carry0(c: bv8): bv8 { (c << 2) & 0xff }

  function Carry1(c: bv8): bv8 { (c & 0xf) << 4 }

  function Carry2(c: bv8): bv8 { (c & 0x3) << 6 }

  /** The byte that a character completes. */
  function Join1(carry: bv8, c: bv8): bv8 { carry | ((c >> 4) & 0x3) }

  function Join2(carry: bv8, c: bv8): bv8 { carry | ((c >> 2) & 0xf) }

  function Join3(carry: bv8, c: bv8): bv8 { carry | c }

  function ValueOrZero(t: seq<bv8>, m: nat): bv8 {
    if m < |t| then Value(t[m]) else 0
  }

  /** Bits 8k to 8k + 7 of the character values, six bits each. */
  function ByteAt(t: seq<bv8>, k: nat): bv8 {
    var g := k / 3 * 4;
    if k % 3 == 0 then Join1(Carry0(ValueOrZero(t, g)), ValueOrZero(t, g + 1))
    else if k % 3 == 1 then Join2(Carry1(ValueOrZero(t, g + 1)), ValueOrZero(t, g + 2))
    else Join3(Carry2(ValueOrZero(t, g + 2)), ValueOrZero(t, g + 3))
  }

  function ByteCount(n: nat): nat { n * 3 / 4 }

  function DecodedBytes(t: seq<bv8>, n: nat): (s: seq<bv8>)
    requires n <= |t|
    ensures |s| == ByteCount(n)
  {
    seq(ByteCount(n), k requires 0 <= k => ByteAt(t, k))
  }

  /** What decoding returns: nothing for a malformed text, else the whole bytes before the first pad. */
  ghost function Decoded(t: seq<bv8>): seq<bv8> {
    if WellFormed(t) then DecodedBytes(t, Stop(t)) else []
  }

  // ---------------------------------------------------------------- round trip

  lemma GroupParts(a: bv8, b: bv8, c: bv8)
    ensures Join1(Carry0(First(a)), Second(a, b)) == a
    ensures Join2(Carry1(Second(a, b)), Third(b, c)) == b
    ensures Join3(Carry2(Third(b, c)), Fourth(c)) == c
  {
  }

  lemma SymbolsBeforePad(s: seq<bv8>, m: nat)
    requires m < SextetCount(|s|)
    ensures m < EncodedLength(|s|) && Value(Encoded(s)[m]) == ValueOrZero(Encoded(s), m) == SextetAt(s, m)
    ensures Encoded(s)[m] != PAD
  {
    hide Value, Alphabet, SextetAt;
    ValueOfAlphabet(SextetAt(s, m));
  }

  lemma StopIs(t: seq<bv8>, n: nat)
    requires n <= |t| && (forall k | 0 <= k < n :: Value(t[k]) != 255) && (n < |t| ==> Value(t[n]) == 255)
    ensures Stop(t) == n
  {
    hide Value;
  }

  lemma ValueOfPad()
    ensures Value(PAD) == 255
  {
  }

  lemma EncodedIsWellFormed(s: seq<bv8>)
    ensures WellFormed(Encoded(s)) && Stop(Encoded(s)) == SextetCount(|s|)
  {
    hide Value, Alphabet, SextetAt, Stop;
    var t := Encoded(s);
    forall m | 0 <= m < SextetCount(|s|) ensures Value(t[m]) != 255 {
      SymbolsBeforePad(s, m);
    }
    ValueOfPad();
    StopIs(t, SextetCount(|s|));
  }

  lemma InRange(s: seq<bv8>, k: nat)
    requires k < |s|
    ensures ByteOrZero(s, k) == s[k]
  {
  }

  lemma DecodedByte(s: seq<bv8>, k: nat)
    requires k < |s|
    ensures ByteAt(Encoded(s), k) == s[k]
  {
    hide Value, Alphabet, First, Second, Third, Fourth, Carry0, Carry1, Carry2, Join1, Join2, Join3, Encoded,
      ByteOrZero, ValueOrZero, SextetAt;
    var g, q := k / 3 * 3, k / 3 * 4;
    GroupParts(ByteOrZero(s, g), ByteOrZero(s, g + 1), ByteOrZero(s, g + 2));
    InRange(s, k);
    GroupSextets(s, k / 3);
    if k % 3 == 0 {
      SymbolsBeforePad(s, q);
      SymbolsBeforePad(s, q + 1);
    } else if k % 3 == 1 {
      SymbolsBeforePad(s, q + 1);
      SymbolsBeforePad(s, q + 2);
    } else {
      SymbolsBeforePad(s, q + 2);
      SymbolsBeforePad(s, q + 3);
    }
  }

  lemma GroupSextets(s: seq<bv8>, h: nat)
    ensures SextetAt(s, 4 * h) == First(ByteOrZero(s, 3 * h))
    ensures SextetAt(s, 4 * h + 1) == Second(ByteOrZero(s, 3 * h), ByteOrZero(s, 3 * h + 1))
    ensures SextetAt(s, 4 * h + 2) == Third(ByteOrZero(s, 3 * h + 1), ByteOrZero(s, 3 * h + 2))
    ensures SextetAt(s, 4 * h + 3) == Fourth(ByteOrZero(s, 3 * h + 2))
  {
    hide First, Second, Third, Fourth, ByteOrZero;
    assert (4 * h + 1) / 4 == h && (4 * h + 2) / 4 == h && (4 * h + 3) / 4 == h;
  }

  /** Decoding an encoding returns the bytes and their number. */
  lemma DecodedEncoded(s: seq<bv8>)
    ensures Decoded(Encoded(s)) == s
  {
    hide Encoded, WellFormed, Stop, ByteAt;
    EncodedIsWellFormed(s);
    assert ByteCount(SextetCount(|s|)) == |s|;
    forall k | 0 <= k < |s| ensures Decoded(Encoded(s))[k] == s[k] {
      DecodedByte(s, k);
    }
  }

  // ---------------------------------------------------------------- the encoder

  method Encode(input: seq<bv8>, out: array<bv8>) returns (j: nat)
    requires EncodeOutSize(|input|) < WORD_SIZE && EncodeOutSize(|input|) <= out.Length
    modifies out
    ensures j == EncodedLength(|input|) && out[..j] == Encoded(input) && out[j] == 0
    ensures forall k | j < k < out.Length :: out[k] == old(out[k])
  {
    hide Symbol, EncodeTable, SextetCount;
    var s := 0;
    var l: bv8 := 0;
    j := 0;
    for i := 0 to |input|
      invariant 0 <= s < 3 && s == i % 3 && j == Completed(i)
      invariant i > 0 ==> l == input[i - 1]
      invariant j <= EncodedLength(|input|)
      invariant forall m | 0 <= m < j :: out[m] == Symbol(input, m)
      invariant forall k | EncodedLength(|input|) < k < out.Length :: out[k] == old(out[k])
    {
      s, j := EncodeByte(input, i, s, l, out, j);
      l := input[i];
    }
    LengthByRest(|input|);
    j := EncodeRest(input, s, l, out, j);
    out[j] := 0;
  }

  /** The characters that byte i completes. */
  method EncodeByte(input: seq<bv8>, i: nat, s: nat, l: bv8, out: array<bv8>, j: nat) returns (s': nat, j': nat)
    requires i < |input| && s == i % 3 && (i > 0 ==> l == input[i - 1]) && j == Completed(i)
    requires EncodeOutSize(|input|) <= out.Length
    modifies out
    ensures s' == (i + 1) % 3 && j' == Completed(i + 1) && j' <= EncodedLength(|input|)
    ensures forall m | j <= m < j' :: out[m] == Symbol(input, m)
    ensures forall k | 0 <= k < j || j' <= k < out.Length :: out[k] == old(out[k])
  {
    hide Symbol, EncodeTable, SextetCount, First, Second, Third, Fourth, Completed, EncodedLength;
    var c := input[i];
    Room(|input|, i);
    if s == 0 {
      s' := 1;
      out[j] := EncodeTable(First(c));
      FirstSymbol(input, i);
      j' := j + 1;
    } else if s == 1 {
      s' := 2;
      out[j] := EncodeTable(Second(l, c));
      SecondSymbol(input, i);
      j' := j + 1;
    } else {
      s' := 0;
      out[j] := EncodeTable(Third(l, c));
      out[j + 1] := EncodeTable(Fourth(c));
      LastSymbols(input, i);
      j' := j + 2;
    }
  }

  /** The partial group and its pads. */
  method EncodeRest(input: seq<bv8>, s: nat, l: bv8, out: array<bv8>, j: nat) returns (j': nat)
    requires s == |input| % 3 && (|input| > 0 ==> l == input[|input| - 1]) && j == Completed(|input|)
    requires EncodeOutSize(|input|) <= out.Length
    modifies out
    ensures j <= j' == EncodedLength(|input|)
    ensures forall m | j <= m < j' :: out[m] == Symbol(input, m)
    ensures forall k | 0 <= k < j || j' <= k < out.Length :: out[k] == old(out[k])
  {
    hide Symbol, EncodeTable, SextetCount;
    LengthByRest(|input|);
    j' := j;
    if s == 1 {
      out[j] := EncodeTable((l & 0x3) << 4);
      out[j + 1] := PAD;
      out[j + 2] := PAD;
      OneByteLeft(input);
      j' := j + 3;
    } else if s == 2 {
      out[j] := EncodeTable((l & 0xf) << 2);
      out[j + 1] := PAD;
      TwoBytesLeft(input);
      j' := j + 2;
    }
  }

  lemma Room(n: nat, i: nat)
    requires i < n
    ensures Completed(i) + 2 <= EncodedLength(n) && Completed(i + 1) <= EncodedLength(n)
  {
  }

  lemma LengthByRest(n: nat)
    ensures n % 3 == 0 ==> EncodedLength(n) == Completed(n) == SextetCount(n)
    ensures n % 3 == 1 ==> EncodedLength(n) == Completed(n) + 3 && SextetCount(n) == Completed(n) + 1
    ensures n % 3 == 2 ==> EncodedLength(n) == Completed(n) + 2 && SextetCount(n) == Completed(n) + 1
  {
    var q, r := n / 3, n % 3;
    Thirds(4 * n, 4 * q + r, r);
    Thirds(n + 2, if r == 0 then q else q + 1, if r == 0 then 2 else r - 1);
    Thirds(4 * n + 2, if r == 0 then 4 * q else 4 * q + r + 1, if r == 0 then 2 else r - 1);
  }

  lemma Thirds(n: nat, q: nat, r: nat)
    requires n == 3 * q + r && r < 3
    ensures n / 3 == q && n % 3 == r
  {
  }

  lemma Quarters(n: nat, q: nat, r: nat)
    requires n == 4 * q + r && r < 4
    ensures n / 4 == q && n % 4 == r
  {
  }

  lemma NextQuarter(i: nat)
    ensures (i + 1) / 4 == (if i % 4 == 3 then i / 4 + 1 else i / 4)
    ensures (i + 1) % 4 == (if i % 4 == 3 then 0 else i % 4 + 1)
  {
    var q, r := i / 4, i % 4;
    Quarters(i + 1, if r == 3 then q + 1 else q, if r == 3 then 0 else r + 1);
  }

  /** How many bytes q quads and r more characters hold. */
  lemma CountOf(q: nat, r: nat)
    requires r < 4
    ensures ByteCount(4 * q + r) == 3 * q + (if r == 0 then 0 else r - 1)
  {
    Quarters(3 * (4 * q + r), 3 * q + (if r == 0 then 0 else r - 1), if r == 0 then 0 else 4 - r);
  }

  lemma FirstSymbol(s: seq<bv8>, i: nat)
    requires i < |s| && i % 3 == 0
    ensures Completed(i + 1) == Completed(i) + 1
    ensures Symbol(s, Completed(i)) == EncodeTable(First(s[i]))
  {
    hide EncodeTable, Alphabet, First, Second, Third, Fourth;
    assert Completed(i) == i / 3 * 4;
    EncodeTableIsAlphabet(First(s[i]));
  }

  lemma SecondSymbol(s: seq<bv8>, i: nat)
    requires i < |s| && i % 3 == 1
    ensures Completed(i + 1) == Completed(i) + 1
    ensures Symbol(s, Completed(i)) == EncodeTable(Second(s[i - 1], s[i]))
  {
    hide EncodeTable, Alphabet, First, Second, Third, Fourth;
    assert Completed(i) == i / 3 * 4 + 1;
    EncodeTableIsAlphabet(Second(s[i - 1], s[i]));
  }

  lemma LastSymbols(s: seq<bv8>, i: nat)
    requires i < |s| && i % 3 == 2
    ensures Completed(i + 1) == Completed(i) + 2
    ensures Symbol(s, Completed(i)) == EncodeTable(Third(s[i - 1], s[i]))
    ensures Symbol(s, Completed(i) + 1) == EncodeTable(Fourth(s[i]))
  {
    hide EncodeTable, Alphabet, First, Second, Third, Fourth;
    assert Completed(i) == i / 3 * 4 + 2;
    EncodeTableIsAlphabet(Third(s[i - 1], s[i]));
    EncodeTableIsAlphabet(Fourth(s[i]));
  }

  lemma OneByteLeft(s: seq<bv8>)
    requires |s| % 3 == 1
    ensures Symbol(s, Completed(|s|)) == EncodeTable((s[|s| - 1] & 0x3) << 4)
    ensures Symbol(s, Completed(|s|) + 1) == Symbol(s, Completed(|s|) + 2) == PAD
  {
    hide EncodeTable, Alphabet;
    var n := |s|;
    assert Completed(n) == n / 3 * 4 + 1;
    ZeroSecond(s[n - 1]);
    EncodeTableIsAlphabet(Second(s[n - 1], 0));
  }

  lemma TwoBytesLeft(s: seq<bv8>)
    requires |s| % 3 == 2
    ensures Symbol(s, Completed(|s|)) == EncodeTable((s[|s| - 1] & 0xf) << 2)
    ensures Symbol(s, Completed(|s|) + 1) == PAD
  {
    hide EncodeTable, Alphabet;
    var n := |s|;
    assert Completed(n) == n / 3 * 4 + 2;
    ZeroThird(s[n - 1]);
    EncodeTableIsAlphabet(Third(s[n - 1], 0));
  }

  lemma ZeroSecond(a: bv8)
    ensures Second(a, 0) == (a & 0x3) << 4
  {
  }

  lemma ZeroThird(b: bv8)
    ensures Third(b, 0) == (b & 0xf) << 2
  {
  }

  // ---------------------------------------------------------------- the decoder

  /** What decoding i characters has left in the byte it is filling. */
  function Pending(t: seq<bv8>, i: nat): bv8
    requires 0 < i <= |t| && i % 4 != 0
  {
    if i % 4 == 1 then Carry0(Value(t[i - 1]))
    else if i % 4 == 2 then Carry1(Value(t[i - 1]))
    else Carry2(Value(t[i - 1]))
  }

  /** How much of the buffer decoding i characters has written. */
  function Touched(i: nat): nat { ByteCount(i) + if i % 4 == 0 then 0 else 1 }

  /** How far decoding gets: nowhere in a text that is not made of quads. */
  function Progress(t: seq<bv8>): (i: nat)
    ensures i <= |t|
  {
    if |t| % 4 != 0 then 0 else Stop(t)
  }

  /**
   * Writes only below three quarters of the text's length; the result does not depend on what the buffer held;
   * and a text that is refused leaves the bytes decoded so far behind.
   */
  method Decode(input: seq<bv8>, out: array<bv8>) returns (j: nat)
    requires |input| < WORD_SIZE && DecodeOutSize(|input|) <= out.Length
    modifies out
    ensures j == |Decoded(input)| && j <= DecodeOutSize(|input|) && out[..j] == Decoded(input)
    ensures Touched(Progress(input)) <= DecodeOutSize(|input|) && Filled(out[..], input, Progress(input))
    ensures forall k | Touched(Progress(input)) <= k < out.Length :: out[k] == old(out[k])
  {
    hide Value, DecodeTable, Stop, Filled, ByteCount, Touched, DecodeOutSize;
    NothingFilled(out[..], input);
    if |input| % 4 != 0 {
      return 0;
    }
    j := 0;
    var i := 0;
    while i < |input|
      invariant 0 <= i <= |input| && j == ByteCount(i)
      invariant forall k | 0 <= k < i :: Value(input[k]) != 255
      invariant Filled(out[..], input, i) && Touched(i) <= DecodeOutSize(|input|)
      invariant forall k | Touched(i) <= k < out.Length :: out[k] == old(out[k])
    {
      ValueOfPad();
      if input[i] == PAD {
        break;
      }
      OutOfRange(input[i]);
      if input[i] < DECODE_FIRST || input[i] > DECODE_LAST {
        StopIs(input, i);
        return 0;
      }
      var c := DecodeTable(input[i]);
      if c == 255 {
        StopIs(input, i);
        return 0;
      }
      TouchedGrows(i);
      j := DecodeSymbol(input, i, c, out, j);
      i := i + 1;
    }
    StopIs(input, i);
    DecodedIsFilled(out[..], input, i);
  }

  /** The bytes that i characters complete are in place, and the next one holds what they leave over. */
  ghost predicate Filled(out: seq<bv8>, t: seq<bv8>, i: nat)
    requires i <= |t|
  {
    && ByteCount(i) <= |out|
    && (forall k | 0 <= k < ByteCount(i) :: out[k] == ByteAt(t, k))
    && (i % 4 != 0 ==> ByteCount(i) < |out| && out[ByteCount(i)] == Pending(t, i))
  }

  lemma TouchedGrows(i: nat)
    ensures Touched(i) <= Touched(i + 1)
  {
    hide ByteCount;
    NextQuarter(i);
    Counts(i);
  }

  lemma NothingFilled(out: seq<bv8>, t: seq<bv8>)
    ensures Filled(out, t, 0) && ByteCount(0) == 0 && Touched(0) == 0
  {
  }

  lemma DecodedIsFilled(out: seq<bv8>, t: seq<bv8>, n: nat)
    requires n <= |t| && Filled(out, t, n) && WellFormed(t) && Stop(t) == n
    ensures Decoded(t) == out[..ByteCount(n)] && ByteCount(n) <= DecodeOutSize(|t|)
  {
    hide ByteAt, Pending, Value, Stop;
  }

  /** The value of character i, added to the byte it completes and to the one it starts. */
  method DecodeSymbol(input: seq<bv8>, i: nat, c: bv8, out: array<bv8>, j: nat) returns (j': nat)
    requires i < |input| && |input| % 4 == 0 && c == Value(input[i]) && DecodeOutSize(|input|) <= out.Length
    requires j == ByteCount(i) && Filled(out[..], input, i)
    modifies out
    ensures j' == ByteCount(i + 1) && Filled(out[..], input, i + 1) && Touched(i + 1) <= DecodeOutSize(|input|)
    ensures forall k | Touched(i + 1) <= k < out.Length :: out[k] == old(out[k])
  {
    hide Value, Filled, ByteCount, Touched, DecodeOutSize, Carry0, Carry1, Carry2, Join1, Join2, Join3;
    DecodeRoom(|input|, i);
    ghost var was := out[..];
    j' := j;
    if i % 4 == 0 {
      out[j] := Carry0(c);
    } else if i % 4 == 1 {
      out[j] := Join1(out[j], c);
      j' := j + 1;
      out[j'] := Carry1(c);
    } else if i % 4 == 2 {
      out[j] := Join2(out[j], c);
      j' := j + 1;
      out[j'] := Carry2(c);
    } else {
      out[j] := Join3(out[j], c);
      j' := j + 1;
    }
    FilledStep(was, out[..], input, i);
  }

  /** What each of the four cases writes is what the next character adds. */
  lemma FilledStep(before: seq<bv8>, after: seq<bv8>, t: seq<bv8>, i: nat)
    requires i < |t| && Filled(before, t, i) && |after| == |before| && ByteCount(i + 1) <= |after|
    requires ByteCount(i) < |after| && (i % 4 == 1 || i % 4 == 2 ==> ByteCount(i) + 1 < |after|)
    requires forall k | 0 <= k < ByteCount(i) :: after[k] == before[k]
    requires i % 4 == 0 ==> after[ByteCount(i)] == Carry0(Value(t[i]))
    requires i % 4 == 1 ==> after[ByteCount(i)] == Join1(before[ByteCount(i)], Value(t[i]))
    requires i % 4 == 1 ==> after[ByteCount(i) + 1] == Carry1(Value(t[i]))
    requires i % 4 == 2 ==> after[ByteCount(i)] == Join2(before[ByteCount(i)], Value(t[i]))
    requires i % 4 == 2 ==> after[ByteCount(i) + 1] == Carry2(Value(t[i]))
    requires i % 4 == 3 ==> after[ByteCount(i)] == Join3(before[ByteCount(i)], Value(t[i]))
    ensures Filled(after, t, i + 1)
  {
    hide Value, ByteAt, Pending, ByteCount, Carry0, Carry1, Carry2, Join1, Join2, Join3;
    Counts(i);
    if i % 4 == 0 {
      StartPending(t, i);
    } else if i % 4 == 1 {
      SecondByte(t, i);
    } else if i % 4 == 2 {
      ThirdByte(t, i);
    } else {
      FourthByte(t, i);
    }
  }

  lemma Counts(i: nat)
    ensures ByteCount(i + 1) == if i % 4 == 0 then ByteCount(i) else ByteCount(i) + 1
  {
    hide ByteCount;
    NextQuarter(i);
    CountOf(i / 4, i % 4);
    CountOf((i + 1) / 4, (i + 1) % 4);
  }

  lemma OutOfRange(c: bv8)
    ensures Value(c) == if c < DECODE_FIRST || c > DECODE_LAST then 255 else DecodeTable(c)
  {
    hide DecodeTable;
  }

  lemma DecodeRoom(n: nat, i: nat)
    requires i < n && n % 4 == 0
    ensures ByteCount(i) < DecodeOutSize(n)
    ensures i % 4 == 0 ==> ByteCount(i + 1) == ByteCount(i)
    ensures i % 4 == 1 || i % 4 == 2 ==> ByteCount(i + 1) == ByteCount(i) + 1 < DecodeOutSize(n)
    ensures i % 4 == 3 ==> ByteCount(i + 1) == ByteCount(i) + 1
    ensures ByteCount(i + 1) <= Touched(i + 1) <= DecodeOutSize(n)
    ensures Touched(i + 1) == ByteCount(i + 1) + if i % 4 == 3 then 0 else 1
  {
    hide ByteCount;
    var q, r := i / 4, i % 4;
    CountOf(q, r);
    if r == 3 { CountOf(q + 1, 0); } else { CountOf(q, r + 1); }
    NextQuarter(i);
  }

  lemma StartPending(t: seq<bv8>, i: nat)
    requires i < |t| && i % 4 == 0
    ensures Pending(t, i + 1) == Carry0(Value(t[i]))
  {
    hide Value, Carry0, Carry1, Carry2, Join1, Join2, Join3;
    NextQuarter(i);
  }

  /** Where the byte that character i completes stands in its group of three. */
  lemma ByteIndex(i: nat)
    requires i % 4 != 0
    ensures ByteCount(i) / 3 * 4 == i - i % 4 && ByteCount(i) % 3 == i % 4 - 1
  {
    CountOf(i / 4, i % 4);
    Thirds(ByteCount(i), i / 4, i % 4 - 1);
  }

  lemma SecondByte(t: seq<bv8>, i: nat)
    requires i < |t| && i % 4 == 1
    ensures ByteAt(t, ByteCount(i)) == Join1(Pending(t, i), Value(t[i])) && Pending(t, i + 1) == Carry1(Value(t[i]))
  {
    hide ByteCount, Value, Carry0, Carry1, Carry2, Join1, Join2, Join3;
    ByteIndex(i);
    NextQuarter(i);
  }

  lemma ThirdByte(t: seq<bv8>, i: nat)
    requires i < |t| && i % 4 == 2
    ensures ByteAt(t, ByteCount(i)) == Join2(Pending(t, i), Value(t[i])) && Pending(t, i + 1) == Carry2(Value(t[i]))
  {
    hide ByteCount, Value, Carry0, Carry1, Carry2, Join1, Join2, Join3;
    ByteIndex(i);
    NextQuarter(i);
  }

  lemma FourthByte(t: seq<bv8>, i: nat)
    requires i < |t| && i % 4 == 3
    ensures ByteAt(t, ByteCount(i)) == Join3(Pending(t, i), Value(t[i]))
  {
    hide ByteCount, Value, Carry0, Carry1, Carry2, Join1, Join2, Join3;
    ByteIndex(i);
    NextQuarter(i);
  }
}
