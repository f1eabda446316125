/** Frame headers: written field by field, sent in their shortest form, and read back (section 5.2 of RFC 6455). */
module WebSocketHeader {
  import opened WebSocketMask

  const BHB0_OPCODE: bv8 := 0x0f
  const BHB0_RSV3: bv8 := 0x10
  const BHB0_RSV2: bv8 := 0x20
  const BHB0_RSV1: bv8 := 0x40
  const BHB0_FIN: bv8 := 0x80
  const BHB1_PAYLOAD: bv8 := 0x7f
  const BHB1_MASK: bv8 := 0x80
  const PAYLOAD_SIZE_BASIC: bv64 := 125
  const PAYLOAD_SIZE_EXTENDED: bv64 := 0xffff
  const PAYLOAD_SIZE_CODE_16BIT: bv8 := 0x7e
  const PAYLOAD_SIZE_CODE_64BIT: bv8 := 0x7f
  const BASIC_HEADER_LENGTH: nat := 2
  const MAX_HEADER_LENGTH: nat := 14
  const MAX_EXTENDED_HEADER_LENGTH: nat := 12

  datatype BasicHeader = BasicHeader(b0: bv8, b1: bv8)

  /** The flags and the opcode of the first byte, and the mask flag. */
  datatype Fields = Fields(fin: bool, rsv1: bool, rsv2: bool, rsv3: bool, opcode: bv8, masked: bool)

  // ---------------------------------------------------------------- reading

  function GetFin(h: BasicHeader): bool { h.b0 & BHB0_FIN == BHB0_FIN }

  function GetRsv1(h: BasicHeader): bool { h.b0 & BHB0_RSV1 == BHB0_RSV1 }

  function GetRsv2(h: BasicHeader): bool { h.b0 & BHB0_RSV2 == BHB0_RSV2 }

  function GetRsv3(h: BasicHeader): bool { h.b0 & BHB0_RSV3 == BHB0_RSV3 }

  function GetOpcode(h: BasicHeader): bv8 { h.b0 & BHB0_OPCODE }

  function GetMasked(h: BasicHeader): bool { h.b1 & BHB1_MASK == BHB1_MASK }

  function GetBasicSize(h: BasicHeader): bv8 { h.b1 & BHB1_PAYLOAD }

  function GetFields(h: BasicHeader): Fields {
    Fields(GetFin(h), GetRsv1(h), GetRsv2(h), GetRsv3(h), GetOpcode(h), GetMasked(h))
  }

  function GetMaskingKeyOffset(h: BasicHeader): nat {
    if GetBasicSize(h) == PAYLOAD_SIZE_CODE_16BIT then 2
    else if GetBasicSize(h) == PAYLOAD_SIZE_CODE_64BIT then 8
    else 0
  }

  function GetHeaderLen(h: BasicHeader): (n: nat)
    ensures BASIC_HEADER_LENGTH <= n <= MAX_HEADER_LENGTH
  {
    BASIC_HEADER_LENGTH + GetMaskingKeyOffset(h) + if GetMasked(h) then 4 else 0
  }

  function KeyOf(a: bv8, b: bv8, c: bv8, d: bv8): bv32 {
    (a as bv32) | ((b as bv32) << 8) | ((c as bv32) << 16) | ((d as bv32) << 24)
  }

  /** The masking key of a masked frame, and zero for one that is not. */
  function GetMaskingKey(h: BasicHeader, e: seq<bv8>): bv32
    requires |e| == MAX_EXTENDED_HEADER_LENGTH
  {
    if !GetMasked(h) then 0
    else
      var o := GetMaskingKeyOffset(h);
      KeyOf(e[o], e[o + 1], e[o + 2], e[o + 3])
  }

  /** Two bytes in network order. */
  function GetExtendedSize(e: seq<bv8>): bv64
    requires |e| == MAX_EXTENDED_HEADER_LENGTH
  {
    WordOf(e[1], e[0], 0, 0, 0, 0, 0, 0)
  }

  /** Eight bytes in network order. */
  function GetJumboSize(e: seq<bv8>): bv64
    requires |e| == MAX_EXTENDED_HEADER_LENGTH
  {
    WordOf(e[7], e[6], e[5], e[4], e[3], e[2], e[1], e[0])
  }

  function GetPayloadSize(h: BasicHeader, e: seq<bv8>): bv64
    requires |e| == MAX_EXTENDED_HEADER_LENGTH
  {
    var v := GetBasicSize(h);
    if v as bv64 <= PAYLOAD_SIZE_BASIC then v as bv64
    else if v == PAYLOAD_SIZE_CODE_16BIT then GetExtendedSize(e)
    else GetJumboSize(e)
  }

  // ---------------------------------------------------------------- the layout, in numbers

  function Flag(on: bool, value: bv8): bv8 { if on then value else 0 }

  /** The first byte: FIN, RSV1, RSV2, RSV3 from the top bit down, and the opcode in the lower four bits. */
  predicate FirstByteIs(b0: bv8, op: bv8, fin: bool, rsv1: bool, rsv2: bool, rsv3: bool) {
    b0 == Flag(fin, 128) + Flag(rsv1, 64) + Flag(rsv2, 32) + Flag(rsv3, 16) + op % 16
  }

  /** The second byte: MASK in the top bit, and the size, 126 for one of two bytes, or 127 for one of eight. */
  predicate SecondByteIs(b1: bv8, size: bv64, mask: bool) {
    b1 == Flag(mask, 128) + if size <= 125 then size as bv8 else if size <= 65535 then 126 else 127
  }

  function SizeLength(size: bv64): nat { if size <= 125 then 0 else if size <= 65535 then 2 else 8 }

  /** The field from the third byte on holds the size, most significant byte first. */
  predicate SizeFieldIs(wire: seq<bv8>, size: bv64)
    requires |wire| >= 2 + SizeLength(size)
  {
    && (125 < size <= 65535 ==> size == (wire[2] as bv64) * 256 + (wire[3] as bv64))
    && (65535 < size ==> size == NetworkOrder(wire[2], wire[3], wire[4], wire[5], wire[6], wire[7], wire[8], wire[9]))
  }

  function NetworkOrder(a: bv8, b: bv8, c: bv8, d: bv8, e: bv8, f: bv8, g: bv8, h: bv8): bv64 {
    (a as bv64) * 0x100_0000_0000_0000 + (b as bv64) * 0x1_0000_0000_0000 + (c as bv64) * 0x100_0000_0000
    + (d as bv64) * 0x1_0000_0000 + (e as bv64) * 0x100_0000 + (f as bv64) * 0x1_0000 + (g as bv64) * 0x100
    + (h as bv64)
  }

  /** The last four bytes hold the octets of the key, lowest first. */
  predicate KeyFieldIs(wire: seq<bv8>, key: bv32)
    requires |wire| >= 4
  {
    var n := |wire|;
    key == (wire[n - 4] as bv32) + (wire[n - 3] as bv32) * 0x100
         + (wire[n - 2] as bv32) * 0x1_0000 + (wire[n - 1] as bv32) * 0x100_0000
  }

  lemma SecondByteNumbers(mask: bool, size: bv64)
    ensures SecondByteIs((if mask then BHB1_MASK else 0) | SizeCode(size), size, mask)
  {
  }

  lemma SmallSizeNumbers(size: bv64)
    requires size <= 65535
    ensures size == (WordByte(size, 1) as bv64) * 256 + (WordByte(size, 0) as bv64)
  {
  }

  lemma LargeSizeNumbers(size: bv64)
    ensures size == NetworkOrder(WordByte(size, 7), WordByte(size, 6), WordByte(size, 5), WordByte(size, 4),
                                 WordByte(size, 3), WordByte(size, 2), WordByte(size, 1), WordByte(size, 0))
  {
  }

  lemma KeyNumbers(key: bv32)
    ensures key == (KeyByte(key, 0) as bv32) + (KeyByte(key, 1) as bv32) * 0x100
                 + (KeyByte(key, 2) as bv32) * 0x1_0000 + (KeyByte(key, 3) as bv32) * 0x100_0000
  {
  }

  lemma SizeLengthIs(size: bv64)
    ensures |SizeBytes(size)| == SizeLength(size)
  {
    hide WordByte;
  }

  lemma SizeFieldNumbers(wire: seq<bv8>, size: bv64)
    requires |wire| >= 2 && SizeBytes(size) <= wire[2..]
    ensures |wire| >= 2 + SizeLength(size) && SizeFieldIs(wire, size)
  {
    hide WordByte, NetworkOrder;
    SizeLengthIs(size);
    var n := |SizeBytes(size)|;
    assert forall k | 0 <= k < n :: wire[2 + k] == SizeBytes(size)[k];
    if size <= 65535 {
      SmallSizeNumbers(size);
    } else {
      LargeSizeNumbers(size);
    }
  }

  lemma KeyFieldNumbers(wire: seq<bv8>, key: bv32)
    requires |wire| >= 4 && wire[|wire| - 4..] == KeyBytes(key)
    ensures KeyFieldIs(wire, key)
  {
    hide KeyByte;
    var n := |wire|;
    assert forall k | 0 <= k < 4 :: wire[n - 4 + k] == KeyBytes(key)[k];
    KeyNumbers(key);
  }

  // ---------------------------------------------------------------- writing

  /** The seven-bit size: the size itself, or the code of the field that holds it. */
  function SizeCode(size: bv64): bv8 {
    if size <= PAYLOAD_SIZE_BASIC then (size & 0x7f) as bv8
    else if size <= PAYLOAD_SIZE_EXTENDED then PAYLOAD_SIZE_CODE_16BIT
    else PAYLOAD_SIZE_CODE_64BIT
  }

  /** The basic header, flag by flag; every getter gives back what was put in. */
  method WriteBasicHeader(op: bv8, size: bv64, fin: bool, mask: bool, rsv1: bool, rsv2: bool, rsv3: bool)
    returns (h: BasicHeader)
    ensures GetFields(h) == Fields(fin, rsv1, rsv2, rsv3, op & 0x0f, mask) && GetBasicSize(h) == SizeCode(size)
    ensures FirstByteIs(h.b0, op, fin, rsv1, rsv2, rsv3) && SecondByteIs(h.b1, size, mask)
  {
    hide FirstByteIs, SecondByteIs;
    var b0 := FirstByte(op, fin, rsv1, rsv2, rsv3);
    var b1: bv8 := 0;
    if mask {
      b1 := b1 | BHB1_MASK;
    }
    var basicValue: bv8;
    if size <= PAYLOAD_SIZE_BASIC {
      basicValue := (size & 0xff) as bv8;
    } else if size <= PAYLOAD_SIZE_EXTENDED {
      basicValue := PAYLOAD_SIZE_CODE_16BIT;
    } else {
      basicValue := PAYLOAD_SIZE_CODE_64BIT;
    }
    b1 := b1 | basicValue;
    SecondByteNumbers(mask, size);
    h := BasicHeader(b0, b1);
  }

  method FirstByte(op: bv8, fin: bool, rsv1: bool, rsv2: bool, rsv3: bool) returns (b0: bv8)
    ensures forall b1 :: var h := BasicHeader(b0, b1);
      GetFin(h) == fin && GetRsv1(h) == rsv1 && GetRsv2(h) == rsv2 && GetRsv3(h) == rsv3 && GetOpcode(h) == op & 0x0f
    ensures FirstByteIs(b0, op, fin, rsv1, rsv2, rsv3)
  {
    b0 := 0;
    if fin {
      b0 := b0 | BHB0_FIN;
    }
    if rsv1 {
      b0 := b0 | BHB0_RSV1;
    }
    if rsv2 {
      b0 := b0 | BHB0_RSV2;
    }
    if rsv3 {
      b0 := b0 | BHB0_RSV3;
    }
    b0 := b0 | (op & BHB0_OPCODE);
  }

  /** Size bytes in network order, as few as the size code announces. */
  function SizeBytes(size: bv64): seq<bv8> {
    if size <= PAYLOAD_SIZE_BASIC then []
    else if size <= PAYLOAD_SIZE_EXTENDED then [WordByte(size, 1), WordByte(size, 0)]
    else [WordByte(size, 7), WordByte(size, 6), WordByte(size, 5), WordByte(size, 4),
          WordByte(size, 3), WordByte(size, 2), WordByte(size, 1), WordByte(size, 0)]
  }

  function KeyBytes(key: bv32): (s: seq<bv8>)
    ensures |s| == 4
  {
    [KeyByte(key, 0), KeyByte(key, 1), KeyByte(key, 2), KeyByte(key, 3)]
  }

  class ExtendedHeader {
    const bytes: array<bv8>

    /** Zeros, the size, and then the masking key if there is one. */
    constructor (size: bv64, masked: bool, key: bv32)
      ensures fresh(bytes) && bytes.Length == MAX_EXTENDED_HEADER_LENGTH
      ensures SizeBytes(size) + (if masked then KeyBytes(key) else []) <= bytes[..]
    {
      hide WordByte, KeyByte;
      bytes := new bv8[MAX_EXTENDED_HEADER_LENGTH](_ => 0);
      new;
      var offset := CopyPayload(size);
      if masked {
        CopyKey(offset, key);
        assert bytes[..offset + 4] == SizeBytes(size) + KeyBytes(key);
      }
    }

    method CopyKey(offset: nat, key: bv32)
      requires offset + 4 <= bytes.Length
      modifies bytes
      ensures bytes[offset..offset + 4] == KeyBytes(key) && bytes[..offset] == old(bytes[..offset])
    {
      hide KeyByte;
      bytes[offset], bytes[offset + 1], bytes[offset + 2], bytes[offset + 3] :=
        KeyByte(key, 0), KeyByte(key, 1), KeyByte(key, 2), KeyByte(key, 3);
    }

    /** The last bytes of the size in network order: all, two, or none of them. */
    method CopyPayload(size: bv64) returns (offset: nat)
      requires bytes.Length == MAX_EXTENDED_HEADER_LENGTH
      modifies bytes
      ensures offset == |SizeBytes(size)| <= 8 && bytes[..offset] == SizeBytes(size)
    {
      hide WordByte;
      var payloadOffset := 0;
      if size <= PAYLOAD_SIZE_BASIC {
        payloadOffset := 8;
      } else if size <= PAYLOAD_SIZE_EXTENDED {
        payloadOffset := 6;
      }
      for i := payloadOffset to 8
        invariant forall k | 0 <= k < i - payloadOffset :: bytes[k] == WordByte(size, 7 - payloadOffset - k)
      {
        bytes[i - payloadOffset] := WordByte(size, 7 - i);
      }
      offset := 8 - payloadOffset;
      CopiedIs(bytes[..], size, payloadOffset);
    }
  }

  lemma CopiedIs(s: seq<bv8>, size: bv64, payloadOffset: nat)
    requires |s| >= 8 && payloadOffset == 8 - |SizeBytes(size)|
    requires forall k | 0 <= k < 8 - payloadOffset :: s[k] == WordByte(size, 7 - payloadOffset - k)
    ensures s[..8 - payloadOffset] == SizeBytes(size)
  {
    hide WordByte;
  }

  /** The header on the wire: both bytes of the basic header, and as much of the extended one as it announces. */
  function PrepareHeader(h: BasicHeader, e: seq<bv8>): (wire: seq<bv8>)
    requires |e| == MAX_EXTENDED_HEADER_LENGTH
    ensures |wire| == GetHeaderLen(h)
  {
    [h.b0, h.b1] + e[..GetHeaderLen(h) - BASIC_HEADER_LENGTH]
  }

  // ---------------------------------------------------------------- round trip

  lemma SmallSizeBytes(size: bv64)
    requires size <= PAYLOAD_SIZE_EXTENDED
    ensures WordOf(WordByte(size, 0), WordByte(size, 1), 0, 0, 0, 0, 0, 0) == size
  {
  }

  lemma LargeSizeBytes(size: bv64)
    ensures WordOf(WordByte(size, 0), WordByte(size, 1), WordByte(size, 2), WordByte(size, 3),
                   WordByte(size, 4), WordByte(size, 5), WordByte(size, 6), WordByte(size, 7)) == size
  {
  }

  lemma KeyOfBytes(key: bv32)
    ensures KeyOf(KeyByte(key, 0), KeyByte(key, 1), KeyByte(key, 2), KeyByte(key, 3)) == key
  {
  }

  lemma SizeCodes(size: bv64)
    ensures size <= PAYLOAD_SIZE_BASIC ==> SizeCode(size) as bv64 == size
    ensures (size <= PAYLOAD_SIZE_BASIC) == (SizeCode(size) as bv64 <= PAYLOAD_SIZE_BASIC)
    ensures (PAYLOAD_SIZE_BASIC < size <= PAYLOAD_SIZE_EXTENDED) == (SizeCode(size) == PAYLOAD_SIZE_CODE_16BIT)
  {
  }

  lemma KeyOffsetIsSizeLength(h: BasicHeader, size: bv64)
    requires GetBasicSize(h) == SizeCode(size)
    ensures GetMaskingKeyOffset(h) == |SizeBytes(size)|
  {
    hide WordByte;
  }

  /**
   * A reader that has the bytes of a prepared header, and anything after them, recovers the size and the key;
   * `extended` is the twelve-byte buffer that it filled from the third byte on.
   */
  lemma HeaderRoundTrip(h: BasicHeader, e: seq<bv8>, size: bv64, key: bv32, extended: seq<bv8>)
    requires |e| == |extended| == MAX_EXTENDED_HEADER_LENGTH
    requires GetBasicSize(h) == SizeCode(size)
    requires SizeBytes(size) + (if GetMasked(h) then KeyBytes(key) else []) <= e
    requires PrepareHeader(h, e)[BASIC_HEADER_LENGTH..] <= extended
    ensures BasicHeader(PrepareHeader(h, e)[0], PrepareHeader(h, e)[1]) == h
    ensures GetPayloadSize(h, extended) == size
    ensures GetMaskingKey(h, extended) == if GetMasked(h) then key else 0
  {
    hide WordByte, WordOf, KeyByte, GetMasked, GetBasicSize, SizeCode, SizeBytes, KeyBytes, GetMaskingKeyOffset,
      GetPayloadSize, GetMaskingKey;
    KeyOffsetIsSizeLength(h, size);
    var tail := if GetMasked(h) then KeyBytes(key) else [];
    assert PrepareHeader(h, e)[BASIC_HEADER_LENGTH..] == e[..|SizeBytes(size) + tail|] == SizeBytes(size) + tail;
    SizeReads(h, size, tail, extended);
    KeyReads(h, size, key, extended);
  }

  lemma SizeReads(h: BasicHeader, size: bv64, tail: seq<bv8>, extended: seq<bv8>)
    requires |extended| == MAX_EXTENDED_HEADER_LENGTH && GetBasicSize(h) == SizeCode(size)
    requires SizeBytes(size) + tail <= extended
    ensures GetPayloadSize(h, extended) == size
  {
    hide GetBasicSize, SizeCode, SizeBytes, GetExtendedSize, GetJumboSize;
    SizeCodes(size);
    assert SizeBytes(size) <= extended;
    SmallOrLarge(size, extended);
  }

  lemma KeyReads(h: BasicHeader, size: bv64, key: bv32, extended: seq<bv8>)
    requires |extended| == MAX_EXTENDED_HEADER_LENGTH && GetMaskingKeyOffset(h) == |SizeBytes(size)|
    requires SizeBytes(size) + (if GetMasked(h) then KeyBytes(key) else []) <= extended
    ensures GetMaskingKey(h, extended) == if GetMasked(h) then key else 0
  {
    hide GetMasked, GetMaskingKeyOffset, SizeBytes, KeyOf, KeyByte;
    if GetMasked(h) {
      var n := |SizeBytes(size)|;
      assert forall k | 0 <= k < 4 :: extended[n + k] == KeyBytes(key)[k];
      KeyOfBytes(key);
    }
  }

  lemma SmallOrLarge(size: bv64, extended: seq<bv8>)
    requires |extended| == MAX_EXTENDED_HEADER_LENGTH && SizeBytes(size) <= extended
    ensures PAYLOAD_SIZE_BASIC < size <= PAYLOAD_SIZE_EXTENDED ==> GetExtendedSize(extended) == size
    ensures PAYLOAD_SIZE_EXTENDED < size ==> GetJumboSize(extended) == size
  {
    hide WordByte, WordOf;
    if PAYLOAD_SIZE_BASIC < size <= PAYLOAD_SIZE_EXTENDED {
      SmallSizeBytes(size);
    }
    if PAYLOAD_SIZE_EXTENDED < size {
      LargeSizeBytes(size);
    }
  }

  lemma SmallReads(a: bv8, b: bv8)
    ensures WordOf(a, b, 0, 0, 0, 0, 0, 0) <= PAYLOAD_SIZE_EXTENDED
  {
  }

  /** No header that states the same size has a shorter length field. */
  lemma ShortestForm(h: BasicHeader, size: bv64, other: BasicHeader, e: seq<bv8>)
    requires GetBasicSize(h) == SizeCode(size)
    requires |e| == MAX_EXTENDED_HEADER_LENGTH && GetPayloadSize(other, e) == size
    ensures GetMaskingKeyOffset(h) <= GetMaskingKeyOffset(other)
  {
    hide WordOf, GetBasicSize, SizeCode;
    SizeCodes(size);
    SmallReads(e[1], e[0]);
    CodeRange(other);
  }

  lemma CodeRange(h: BasicHeader)
    ensures GetBasicSize(h) as bv64 <= PAYLOAD_SIZE_BASIC || GetBasicSize(h) == PAYLOAD_SIZE_CODE_16BIT
         || GetBasicSize(h) == PAYLOAD_SIZE_CODE_64BIT
  {
  }

  /** What a prepared header has behind its first two bytes. */
  lemma WireFields(h: BasicHeader, e: seq<bv8>, wire: seq<bv8>, size: bv64, mask: bool, key: bv32)
    requires |e| == MAX_EXTENDED_HEADER_LENGTH && SizeBytes(size) + (if mask then KeyBytes(key) else []) <= e
    requires GetMaskingKeyOffset(h) == |SizeBytes(size)| && GetMasked(h) == mask && wire == PrepareHeader(h, e)
    ensures |wire| >= 2 + SizeLength(size) && SizeFieldIs(wire, size)
    ensures mask ==> KeyFieldIs(wire, key)
  {
    hide SizeBytes, KeyBytes, GetMaskingKeyOffset, GetMasked, SizeFieldIs, KeyFieldIs, SizeLength;
    var tail := if mask then KeyBytes(key) else [];
    assert wire[2..] == e[..|SizeBytes(size) + tail|] == SizeBytes(size) + tail;
    SizeFieldNumbers(wire, size);
    if mask {
      assert wire[|wire| - 4..] == wire[2..][|SizeBytes(size)|..] == tail;
      KeyFieldNumbers(wire, key);
    }
  }

  /** Building a header, sending it and reading it back, for every field, size and key. */
  method BuildAndRead(op: bv8, size: bv64, fin: bool, mask: bool, rsv1: bool, rsv2: bool, rsv3: bool, key: bv32)
    returns (wire: seq<bv8>)
    ensures BASIC_HEADER_LENGTH <= |wire| <= MAX_HEADER_LENGTH
    ensures var h := BasicHeader(wire[0], wire[1]);
      && |wire| == GetHeaderLen(h)
      && GetFields(h) == Fields(fin, rsv1, rsv2, rsv3, op & 0x0f, mask)
      && forall e | |e| == MAX_EXTENDED_HEADER_LENGTH && wire[BASIC_HEADER_LENGTH..] <= e ::
           GetPayloadSize(h, e) == size && GetMaskingKey(h, e) == if mask then key else 0
    ensures FirstByteIs(wire[0], op, fin, rsv1, rsv2, rsv3) && SecondByteIs(wire[1], size, mask)
    ensures |wire| == 2 + SizeLength(size) + (if mask then 4 else 0) && SizeFieldIs(wire, size)
    ensures mask ==> KeyFieldIs(wire, key)
  {
    hide FirstByteIs, SecondByteIs, SizeFieldIs, KeyFieldIs, KeyBytes, GetMaskingKeyOffset, SizeLength, GetPayloadSize,
      GetMaskingKey, GetBasicSize, SizeCode, SizeBytes;
    var h := WriteBasicHeader(op, size, fin, mask, rsv1, rsv2, rsv3);
    var extended := new ExtendedHeader(size, mask, key);
    ghost var bytes := extended.bytes[..];
    wire := PrepareHeader(h, extended.bytes[..]);
    forall e | |e| == MAX_EXTENDED_HEADER_LENGTH && wire[BASIC_HEADER_LENGTH..] <= e
      ensures GetPayloadSize(h, e) == size && GetMaskingKey(h, e) == if mask then key else 0
    {
      HeaderRoundTrip(h, bytes, size, key, e);
    }
    KeyOffsetIsSizeLength(h, size);
    SizeLengthIs(size);
    WireFields(h, bytes, wire, size, mask, key);
  }
}
