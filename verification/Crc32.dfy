/** CRC-32: bit by bit, by table, and what it detects. */
module Crc32 {
  import opened Words

  const POLYNOMIAL: bv32 := 0xedb8_8320
  const INITIAL: bv32 := 0xffff_ffff

  function Complement(c: bv32): bv32 { !c }

  function Halved(c: bv32): bv32 { c >> 1 }

  function Feedback(c: bv32): bv32 { if c & 1 != 0 then POLYNOMIAL else 0 }

  /** One step of the shift register of section 8 of RFC 1952. */
  function Shift(c: bv32): bv32 { Xor(Halved(c), Feedback(c)) }

  function Shift2(c: bv32): bv32 { Shift(Shift(c)) }

  function Shift4(c: bv32): bv32 { Shift2(Shift2(c)) }

  function Shift8(c: bv32): bv32 { Shift4(Shift4(c)) }

  // ---------------------------------------------------------------- one message bit at a time

  /** The register after one message bit: the bit that leaves, plus the message bit, decides the feedback. */
  function SerialBit(c: bv32, bit: bool): bv32 {
    Xor(Halved(c), if (c & 1 != 0) != bit then POLYNOMIAL else 0)
  }

  function SerialBits(c: bv32, bits: seq<bool>): bv32
    decreases |bits|
  {
    if bits == [] then c else SerialBits(SerialBit(c, bits[0]), bits[1..])
  }

  /** The bits of a byte in transmission order: least significant first. */
  function BitsOf(b: bv8): (bits: seq<bool>)
    ensures |bits| == 8
  {
    [b & 0x01 != 0, b & 0x02 != 0, b & 0x04 != 0, b & 0x08 != 0,
     b & 0x10 != 0, b & 0x20 != 0, b & 0x40 != 0, b & 0x80 != 0]
  }

  function MessageBits(s: seq<bv8>): seq<bool> {
    if s == [] then [] else MessageBits(s[..|s| - 1]) + BitsOf(s[|s| - 1])
  }

  /** The checksum by definition. */
  function BitSerialCrc(s: seq<bv8>): bv32 { Complement(SerialBits(INITIAL, MessageBits(s))) }

  // ---------------------------------------------------------------- one byte at a time

  function Table(i: bv32): bv32 { Shift8(i) }

  function LowByte(c: bv32): bv32 { c & 0xff }

  function HighBytes(c: bv32): bv32 { c >> 8 }

  /** The step of the byte loop. */
  function ByteStep(c: bv32, b: bv8): bv32 { Xor(HighBytes(c), Table(LowByte(Xor(c, b as bv32)))) }

  function Register(c: bv32, s: seq<bv8>): bv32 {
    if s == [] then c else ByteStep(Register(c, s[..|s| - 1]), s[|s| - 1])
  }

  function Crc(s: seq<bv8>): bv32 { Complement(Register(INITIAL, s)) }

  // ---------------------------------------------------------------- the shift register is linear and invertible

  lemma HalvedLinear(a: bv32, b: bv32)
    ensures Halved(Xor(a, b)) == Xor(Halved(a), Halved(b))
  {
  }

  lemma FeedbackLinear(a: bv32, b: bv32)
    ensures Feedback(Xor(a, b)) == Xor(Feedback(a), Feedback(b))
  {
    hide Xor;
    XorLowBit(a, b);
    XorZero(POLYNOMIAL);
    XorZero(0);
    XorCommutes(0, POLYNOMIAL);
    XorSelf(POLYNOMIAL);
  }

  lemma ShiftLinear(a: bv32, b: bv32)
    ensures Shift(Xor(a, b)) == Xor(Shift(a), Shift(b))
  {
    hide Xor, Halved, Feedback;
    HalvedLinear(a, b);
    FeedbackLinear(a, b);
    XorInterchange(Halved(a), Halved(b), Feedback(a), Feedback(b));
  }

  lemma Shift8Linear(a: bv32, b: bv32)
    ensures Shift8(Xor(a, b)) == Xor(Shift8(a), Shift8(b))
  {
    hide Xor, Shift2;
    Shift4Linear(a, b);
    Shift4Linear(Shift4(a), Shift4(b));
  }

  lemma Shift4Linear(a: bv32, b: bv32)
    ensures Shift4(Xor(a, b)) == Xor(Shift4(a), Shift4(b))
  {
    hide Xor, Shift;
    ShiftLinear(a, b);
    ShiftLinear(Shift(a), Shift(b));
    ShiftLinear(Shift2(a), Shift2(b));
    ShiftLinear(Shift(Shift2(a)), Shift(Shift2(b)));
  }

  /** The register step loses nothing: the feedback sets the top bit exactly when the bit that left was set. */
  lemma ShiftInjective(a: bv32, b: bv32)
    requires Shift(a) == Shift(b)
    ensures a == b
  {
  }

  lemma Shift8Injective(a: bv32, b: bv32)
    requires Shift8(a) == Shift8(b)
    ensures a == b
  {
    hide Shift;
    Shift4Injective(Shift4(a), Shift4(b));
    Shift4Injective(a, b);
  }

  lemma Shift4Injective(a: bv32, b: bv32)
    requires Shift4(a) == Shift4(b)
    ensures a == b
  {
    hide Shift;
    ShiftInjective(Shift(Shift2(a)), Shift(Shift2(b)));
    ShiftInjective(Shift2(a), Shift2(b));
    ShiftInjective(Shift(a), Shift(b));
    ShiftInjective(a, b);
  }

  predicate Even(c: bv32) { c & 1 == 0 }

  lemma ShiftEven(c: bv32)
    requires Even(c)
    ensures Shift(c) == Halved(c)
  {
  }

  function Halved4(c: bv32): bv32 { Halved(Halved(Halved(Halved(c)))) }

  lemma ShiftEven4(c: bv32)
    requires c & 0xf == 0
    ensures Shift4(c) == Halved4(c)
  {
    hide Shift, Halved, Even;
    LowBits(c);
    ShiftEven(c);
    ShiftEven(Halved(c));
    ShiftEven(Halved(Halved(c)));
    ShiftEven(Halved(Halved(Halved(c))));
  }

  lemma LowBits(c: bv32)
    requires c & 0xf == 0
    ensures Even(c) && Even(Halved(c)) && Even(Halved(Halved(c))) && Even(Halved(Halved(Halved(c))))
  {
  }

  /** Without set bits in the low byte, eight steps are a shift. */
  lemma HighBytesShift(c: bv32)
    requires LowByte(c) == 0
    ensures Shift8(c) == HighBytes(c)
  {
    hide Shift4, Halved4, LowByte, HighBytes;
    LowNibbles(c);
    ShiftEven4(c);
    ShiftEven4(Halved4(c));
  }

  lemma LowNibbles(c: bv32)
    requires LowByte(c) == 0
    ensures c & 0xf == 0 && Halved4(c) & 0xf == 0 && Halved4(Halved4(c)) == HighBytes(c)
  {
  }

  function Upper(c: bv32): bv32 { c & 0xffff_ff00 }

  /** The table step is eight steps of the register that the byte has been added to. */
  lemma ByteStepIsShift8(c: bv32, b: bv8)
    ensures ByteStep(c, b) == Shift8(Xor(c, b as bv32))
  {
    hide Xor, Shift8, LowByte, HighBytes, Upper;
    var x := Xor(c, b as bv32);
    SplitLow(x);
    Shift8Linear(Upper(x), LowByte(x));
    HighBytesShift(Upper(x));
    HighOfSum(c, b);
  }

  lemma SplitLow(x: bv32)
    ensures x == Xor(Upper(x), LowByte(x)) && LowByte(Upper(x)) == 0
  {
  }

  lemma HighOfSum(c: bv32, b: bv8)
    ensures HighBytes(Upper(Xor(c, b as bv32))) == HighBytes(c)
  {
  }

  // ---------------------------------------------------------------- the table form is the bit-serial form

  predicate Odd(c: bv32) { c & 1 != 0 }

  /** A message bit steps the register as its bit does when the message has been added beforehand. */
  lemma SerialStep(c: bv32, w: bv32)
    ensures Xor(SerialBit(c, Odd(w)), Halved(w)) == Shift(Xor(c, w))
  {
    hide Xor, Halved, Feedback;
    FeedbackPair(c, w);
    ShiftLinear(c, w);
    XorAssociates(Halved(c), Feedback(c), Feedback(w));
    XorAssociates(Shift(c), Feedback(w), Halved(w));
    XorCommutes(Feedback(w), Halved(w));
  }

  lemma FeedbackPair(c: bv32, w: bv32)
    ensures (if (c & 1 != 0) != Odd(w) then POLYNOMIAL else 0) == Xor(Feedback(c), Feedback(w))
  {
  }

  /** The low four bits, least significant first. */
  function NibbleBits(w: bv32): (bits: seq<bool>)
    ensures |bits| == 4
  {
    [Odd(w), Odd(Halved(w)), Odd(Halved(Halved(w))), Odd(Halved(Halved(Halved(w))))]
  }

  function AfterNibble(c: bv32, w: bv32): bv32 {
    SerialBit(SerialBit(SerialBit(SerialBit(c, Odd(w)), Odd(Halved(w))), Odd(Halved(Halved(w)))),
              Odd(Halved(Halved(Halved(w)))))
  }

  lemma NibbleStep(c: bv32, w: bv32)
    ensures Xor(AfterNibble(c, w), Halved4(w)) == Shift4(Xor(c, w))
  {
    hide SerialBit, Odd, Halved, Xor, Shift;
    var w1, w2, w3 := Halved(w), Halved(Halved(w)), Halved(Halved(Halved(w)));
    var c1 := SerialBit(c, Odd(w));
    var c2 := SerialBit(c1, Odd(w1));
    SerialStep(c, w);
    SerialStep(c1, w1);
    SerialStep(c2, w2);
    SerialStep(SerialBit(c2, Odd(w2)), w3);
  }

  lemma SerialCons(c: bv32, bit: bool, rest: seq<bool>)
    ensures SerialBits(c, [bit] + rest) == SerialBits(SerialBit(c, bit), rest)
  {
    hide SerialBit;
    assert ([bit] + rest)[1..] == rest;
  }

  lemma NibbleBitsStep(c: bv32, w: bv32, rest: seq<bool>)
    ensures SerialBits(c, NibbleBits(w) + rest) == SerialBits(AfterNibble(c, w), rest)
  {
    hide SerialBit, SerialBits, Odd, Halved;
    var p, q, r, s := Odd(w), Odd(Halved(w)), Odd(Halved(Halved(w))), Odd(Halved(Halved(Halved(w))));
    assert NibbleBits(w) + rest == [p] + ([q] + ([r] + ([s] + rest)));
    SerialCons(c, p, [q] + ([r] + ([s] + rest)));
    SerialCons(SerialBit(c, p), q, [r] + ([s] + rest));
    SerialCons(SerialBit(SerialBit(c, p), q), r, [s] + rest);
    SerialCons(SerialBit(SerialBit(SerialBit(c, p), q), r), s, rest);
  }

  lemma BitsAreNibbles(b: bv8)
    ensures BitsOf(b) == NibbleBits(b as bv32) + NibbleBits(Halved4(b as bv32)) && Halved4(Halved4(b as bv32)) == 0
  {
  }

  /** The eight bits of a byte, one by one, step the register as the table does. */
  lemma SerialByte(c: bv32, b: bv8)
    ensures SerialBits(c, BitsOf(b)) == ByteStep(c, b)
  {
    hide AfterNibble, NibbleBits, Halved4, SerialBits, Xor, Shift4, ByteStep, BitsOf;
    var w := b as bv32;
    var v := Halved4(w);
    var d := AfterNibble(c, w);
    BitsAreNibbles(b);
    NibbleStep(c, w);
    NibbleBitsStep(c, w, NibbleBits(v));
    NibbleStep(d, v);
    NibbleBitsStep(d, v, []);
    assert NibbleBits(v) + [] == NibbleBits(v);
    SerialNone(AfterNibble(d, v));
    XorZero(AfterNibble(d, v));
    ByteStepIsShift8(c, b);
  }

  lemma SerialNone(c: bv32)
    ensures SerialBits(c, []) == c
  {
  }

  lemma {:induction false} SerialJoin(c: bv32, x: seq<bool>, y: seq<bool>)
    ensures SerialBits(c, x + y) == SerialBits(SerialBits(c, x), y)
    decreases |x|
  {
    hide SerialBit;
    if x == [] {
      assert x + y == y;
    } else {
      assert (x + y)[1..] == x[1..] + y;
      SerialJoin(SerialBit(c, x[0]), x[1..], y);
    }
  }

  lemma {:induction false} RegisterIsSerial(c: bv32, s: seq<bv8>)
    ensures Register(c, s) == SerialBits(c, MessageBits(s))
  {
    hide ByteStep, BitsOf, SerialBits;
    if s == [] {
      SerialNone(c);
    } else {
      RegisterIsSerial(c, s[..|s| - 1]);
      SerialJoin(c, MessageBits(s[..|s| - 1]), BitsOf(s[|s| - 1]));
      SerialByte(Register(c, s[..|s| - 1]), s[|s| - 1]);
    }
  }

  /** The byte-wise table checksum is the bit-serial one, on every byte string. */
  lemma CrcIsBitSerial(s: seq<bv8>)
    ensures Crc(s) == BitSerialCrc(s)
  {
    hide Register, SerialBits, MessageBits, Complement;
    RegisterIsSerial(INITIAL, s);
  }

  // ---------------------------------------------------------------- error detection

  lemma {:induction false} RegisterJoin(c: bv32, s: seq<bv8>, t: seq<bv8>)
    ensures Register(c, s + t) == Register(Register(c, s), t)
    decreases |t|
  {
    hide ByteStep;
    if t == [] {
      assert s + t == s;
    } else {
      assert (s + t)[..|s + t| - 1] == s + t[..|t| - 1];
      RegisterJoin(c, s, t[..|t| - 1]);
    }
  }

  /** Every byte steps the register one to one. */
  lemma ByteStepInjective(c: bv32, d: bv32, b: bv8)
    requires ByteStep(c, b) == ByteStep(d, b)
    ensures c == d
  {
    hide ByteStep, Shift8, Xor;
    ByteStepIsShift8(c, b);
    ByteStepIsShift8(d, b);
    Shift8Injective(Xor(c, b as bv32), Xor(d, b as bv32));
    XorInjective(c, d, b as bv32);
  }

  lemma {:induction false} RegisterInjective(c: bv32, d: bv32, s: seq<bv8>)
    requires Register(c, s) == Register(d, s)
    ensures c == d
  {
    hide ByteStep;
    if s != [] {
      ByteStepInjective(Register(c, s[..|s| - 1]), Register(d, s[..|s| - 1]), s[|s| - 1]);
      RegisterInjective(c, d, s[..|s| - 1]);
    }
  }

  function ByteAt1(b: bv8): bv32 { (b as bv32) << 8 }

  function ByteAt2(b: bv8): bv32 { (b as bv32) << 16 }

  function ByteAt3(b: bv8): bv32 { (b as bv32) << 24 }

  lemma PlacedBytes(b: bv8)
    ensures LowByte(ByteAt1(b)) == 0 && HighBytes(ByteAt1(b)) == b as bv32
    ensures LowByte(ByteAt2(b)) == 0 && HighBytes(ByteAt2(b)) == ByteAt1(b)
    ensures LowByte(ByteAt3(b)) == 0 && HighBytes(ByteAt3(b)) == ByteAt2(b)
  {
  }

  lemma ShiftPlaced(b: bv8)
    ensures Shift8(ByteAt1(b)) == b as bv32 && Shift8(ByteAt2(b)) == ByteAt1(b) && Shift8(ByteAt3(b)) == ByteAt2(b)
  {
    hide Shift8, ByteAt1, ByteAt2, ByteAt3, LowByte, HighBytes;
    PlacedBytes(b);
    HighBytesShift(ByteAt1(b));
    HighBytesShift(ByteAt2(b));
    HighBytesShift(ByteAt3(b));
  }

  /** Four bytes, added to the register at once. */
  function Added(c: bv32, b0: bv8, b1: bv8, b2: bv8, b3: bv8): bv32 {
    Xor(Xor(Xor(Xor(c, b0 as bv32), ByteAt1(b1)), ByteAt2(b2)), ByteAt3(b3))
  }

  function FourSteps(c: bv32, b0: bv8, b1: bv8, b2: bv8, b3: bv8): bv32 {
    ByteStep(ByteStep(ByteStep(ByteStep(c, b0), b1), b2), b3)
  }

  lemma FourStepsShift(c: bv32, b0: bv8, b1: bv8, b2: bv8, b3: bv8)
    ensures FourSteps(c, b0, b1, b2, b3) == Shift8(Shift8(Shift8(Shift8(Added(c, b0, b1, b2, b3)))))
  {
    hide ByteStep, Xor, Shift8, ByteAt1, ByteAt2, ByteAt3;
    var x0 := Xor(c, b0 as bv32);
    var x1 := Xor(x0, ByteAt1(b1));
    var x2 := Xor(x1, ByteAt2(b2));
    ByteStepIsShift8(c, b0);
    ShiftPlaced(b1);
    Shift8Linear(x0, ByteAt1(b1));
    ByteStepIsShift8(Shift8(x0), b1);
    ShiftPlaced(b2);
    Shift8Linear(x1, ByteAt2(b2));
    Shift8Linear(Shift8(x1), ByteAt1(b2));
    ByteStepIsShift8(Shift8(Shift8(x1)), b2);
    ShiftPlaced(b3);
    Shift8Linear(x2, ByteAt3(b3));
    Shift8Linear(Shift8(x2), ByteAt2(b3));
    Shift8Linear(Shift8(Shift8(x2)), ByteAt1(b3));
    ByteStepIsShift8(Shift8(Shift8(Shift8(x2))), b3);
  }

  lemma AddedInjective(c: bv32, a0: bv8, a1: bv8, a2: bv8, a3: bv8, b0: bv8, b1: bv8, b2: bv8, b3: bv8)
    requires Added(c, a0, a1, a2, a3) == Added(c, b0, b1, b2, b3)
    ensures a0 == b0 && a1 == b1 && a2 == b2 && a3 == b3
  {
    hide Xor, ByteAt1, ByteAt2, ByteAt3, Sum;
    AddedIsSum(c, a0, a1, a2, a3);
    AddedIsSum(c, b0, b1, b2, b3);
    XorCommutes(c, Sum(a0, a1, a2, a3));
    XorCommutes(c, Sum(b0, b1, b2, b3));
    XorInjective(Sum(a0, a1, a2, a3), Sum(b0, b1, b2, b3), c);
    SumInjective(a0, a1, a2, a3, b0, b1, b2, b3);
  }

  function Sum(b0: bv8, b1: bv8, b2: bv8, b3: bv8): bv32 {
    Xor(Xor(Xor(b0 as bv32, ByteAt1(b1)), ByteAt2(b2)), ByteAt3(b3))
  }

  lemma AddedIsSum(c: bv32, b0: bv8, b1: bv8, b2: bv8, b3: bv8)
    ensures Added(c, b0, b1, b2, b3) == Xor(c, Sum(b0, b1, b2, b3))
  {
    hide Xor, ByteAt1, ByteAt2, ByteAt3;
    XorAssociates(c, b0 as bv32, ByteAt1(b1));
    XorAssociates(c, Xor(b0 as bv32, ByteAt1(b1)), ByteAt2(b2));
    XorAssociates(c, Xor(Xor(b0 as bv32, ByteAt1(b1)), ByteAt2(b2)), ByteAt3(b3));
  }

  function ByteOfSum(w: bv32, k: bv6): bv8
    requires k <= 24
  {
    ((w >> k) & 0xff) as bv8
  }

  lemma SumBytes(b0: bv8, b1: bv8, b2: bv8, b3: bv8)
    ensures ByteOfSum(Sum(b0, b1, b2, b3), 0) == b0 && ByteOfSum(Sum(b0, b1, b2, b3), 8) == b1
    ensures ByteOfSum(Sum(b0, b1, b2, b3), 16) == b2 && ByteOfSum(Sum(b0, b1, b2, b3), 24) == b3
  {
  }

  lemma SumInjective(a0: bv8, a1: bv8, a2: bv8, a3: bv8, b0: bv8, b1: bv8, b2: bv8, b3: bv8)
    requires Sum(a0, a1, a2, a3) == Sum(b0, b1, b2, b3)
    ensures a0 == b0 && a1 == b1 && a2 == b2 && a3 == b3
  {
    hide Sum, ByteOfSum;
    SumBytes(a0, a1, a2, a3);
    SumBytes(b0, b1, b2, b3);
  }

  /** From one register, different four-byte strings lead to different registers. */
  lemma FourStepsInjective(c: bv32, a0: bv8, a1: bv8, a2: bv8, a3: bv8, b0: bv8, b1: bv8, b2: bv8, b3: bv8)
    requires FourSteps(c, a0, a1, a2, a3) == FourSteps(c, b0, b1, b2, b3)
    ensures a0 == b0 && a1 == b1 && a2 == b2 && a3 == b3
  {
    hide FourSteps, Added, Shift8;
    FourStepsShift(c, a0, a1, a2, a3);
    FourStepsShift(c, b0, b1, b2, b3);
    var x, y := Added(c, a0, a1, a2, a3), Added(c, b0, b1, b2, b3);
    Shift8Injective(Shift8(Shift8(Shift8(x))), Shift8(Shift8(Shift8(y))));
    Shift8Injective(Shift8(Shift8(x)), Shift8(Shift8(y)));
    Shift8Injective(Shift8(x), Shift8(y));
    Shift8Injective(x, y);
    AddedInjective(c, a0, a1, a2, a3, b0, b1, b2, b3);
  }

  lemma RegisterOfFour(c: bv32, s: seq<bv8>)
    requires |s| == 4
    ensures Register(c, s) == FourSteps(c, s[0], s[1], s[2], s[3])
  {
    hide ByteStep;
    assert s[..3][..2][..1][..0] == [];
    assert s[..3][..2][..1][0] == s[0] && s[..3][..2][1] == s[1] && s[..3][2] == s[2];
    assert Register(c, []) == c;
    assert Register(c, s[..3][..2][..1]) == ByteStep(c, s[0]);
    assert Register(c, s[..3][..2]) == ByteStep(ByteStep(c, s[0]), s[1]);
    assert Register(c, s[..3]) == ByteStep(ByteStep(ByteStep(c, s[0]), s[1]), s[2]);
  }

  ghost predicate AgreeOutside(s: seq<bv8>, t: seq<bv8>, at: nat) {
    |s| == |t| && forall k | 0 <= k < |s| && (k < at || at + 4 <= k) :: s[k] == t[k]
  }

  /** The two strings differ, and only inside one window of four bytes. */
  ghost predicate BurstChange(s: seq<bv8>, t: seq<bv8>) {
    s != t && exists at: nat :: AgreeOutside(s, t, at)
  }

  lemma FourInjective(c: bv32, s: seq<bv8>, t: seq<bv8>)
    requires |s| == |t| <= 4 && Register(c, s) == Register(c, t)
    ensures s == t
  {
    hide FourSteps, Register;
    var zeros := seq(4 - |s|, i => 0 as bv8);
    var u, v := s + zeros, t + zeros;
    RegisterJoin(c, s, zeros);
    RegisterJoin(c, t, zeros);
    RegisterOfFour(c, u);
    RegisterOfFour(c, v);
    FourStepsInjective(c, u[0], u[1], u[2], u[3], v[0], v[1], v[2], v[3]);
    assert u == v;
    assert s == u[..|s|] && t == v[..|s|];
  }

  lemma RegisterSplit(s: seq<bv8>, lo: nat, hi: nat)
    requires lo <= hi <= |s|
    ensures Register(INITIAL, s) == Register(Register(Register(INITIAL, s[..lo]), s[lo..hi]), s[hi..])
  {
    hide Register;
    assert s == s[..lo] + s[lo..hi] + s[hi..];
    RegisterJoin(INITIAL, s[..lo] + s[lo..hi], s[hi..]);
    RegisterJoin(INITIAL, s[..lo], s[lo..hi]);
  }

  /** Strings that agree outside a window of four bytes and have the same checksum are the same. */
  lemma SameChecksumInWindow(s: seq<bv8>, t: seq<bv8>, at: nat)
    requires AgreeOutside(s, t, at) && Crc(s) == Crc(t)
    ensures s == t
  {
    hide Register, Complement;
    var lo := if at < |s| then at else |s|;
    var hi := if at + 4 < |s| then at + 4 else |s|;
    assert s[..lo] == t[..lo] && s[hi..] == t[hi..];
    RegisterSplit(s, lo, hi);
    RegisterSplit(t, lo, hi);
    ComplementInjective(Register(INITIAL, s), Register(INITIAL, t));
    var c := Register(INITIAL, s[..lo]);
    RegisterInjective(Register(c, s[lo..hi]), Register(c, t[lo..hi]), s[hi..]);
    FourInjective(c, s[lo..hi], t[lo..hi]);
    assert s == s[..lo] + s[lo..hi] + s[hi..] && t == t[..lo] + t[lo..hi] + t[hi..];
  }

  lemma ComplementInjective(a: bv32, b: bv32)
    requires Complement(a) == Complement(b)
    ensures a == b
  {
  }

  /** A change confined to four consecutive bytes always changes the checksum. */
  lemma BurstDetected(s: seq<bv8>, t: seq<bv8>)
    requires BurstChange(s, t)
    ensures Crc(s) != Crc(t)
  {
    hide Crc;
    var at: nat :| AgreeOutside(s, t, at);
    if Crc(s) == Crc(t) {
      SameChecksumInWindow(s, t, at);
    }
  }

  // ---------------------------------------------------------------- the check value

  /** The ASCII digits from 1 to 9, and the register before and after each of them. */
  const DIGITS: seq<bv8> := [0x31, 0x32, 0x33, 0x34, 0x35, 0x36, 0x37, 0x38, 0x39]
  const REGISTERS: seq<bv32> := [
    0xffff_ffff, 0x7c23_1048, 0xb0ac_bb32, 0x77b7_9c2d, 0x641c_1f5c,
    0x340a_c5e3, 0xf68d_2c9e, 0xaffc_9660, 0x651f_2550, 0x340b_c6d9]

  lemma FirstDigits()
    ensures ByteStep(0xffff_ffff, 0x31) == 0x7c23_1048
    ensures ByteStep(0x7c23_1048, 0x32) == 0xb0ac_bb32
    ensures ByteStep(0xb0ac_bb32, 0x33) == 0x77b7_9c2d
    ensures ByteStep(0x77b7_9c2d, 0x34) == 0x641c_1f5c
    ensures ByteStep(0x641c_1f5c, 0x35) == 0x340a_c5e3
  {
  }

  lemma LastDigits()
    ensures ByteStep(0x340a_c5e3, 0x36) == 0xf68d_2c9e
    ensures ByteStep(0xf68d_2c9e, 0x37) == 0xaffc_9660
    ensures ByteStep(0xaffc_9660, 0x38) == 0x651f_2550
    ensures ByteStep(0x651f_2550, 0x39) == 0x340b_c6d9
  {
  }

  lemma DigitStep(k: nat)
    requires k < 9
    ensures ByteStep(REGISTERS[k], DIGITS[k]) == REGISTERS[k + 1]
  {
    hide ByteStep;
    FirstDigits();
    LastDigits();
    assert k in {0, 1, 2, 3, 4, 5, 6, 7, 8};
  }

  lemma {:induction false} RegisterOfDigits(k: nat)
    requires k <= 9
    ensures Register(INITIAL, DIGITS[..k]) == REGISTERS[k]
  {
    hide ByteStep;
    if k > 0 {
      RegisterOfDigits(k - 1);
      DigitStep(k - 1);
      assert DIGITS[..k][..k - 1] == DIGITS[..k - 1];
    }
  }

  /** The CRC-32 of "123456789" is 0xcbf43926. */
  lemma CheckValue()
    ensures Crc([0x31, 0x32, 0x33, 0x34, 0x35, 0x36, 0x37, 0x38, 0x39]) == 0xcbf4_3926
  {
    hide Register;
    RegisterOfDigits(9);
    assert DIGITS[..9] == DIGITS;
  }
}
