/** AES-256 as FIPS 197 specifies it, byte by byte. */
module AesSpec {
  import opened AesField
  import opened AesTables
  import opened Words

  /** A column of the state, top byte first. */
  datatype Column = Column(b0: bv8, b1: bv8, b2: bv8, b3: bv8)

  /** The state: four columns. */
  datatype Block = Block(c0: Column, c1: Column, c2: Column, c3: Column)

  // ---------------------------------------------------------------- words and columns

  function ToWord(c: Column): bv32 { Word(c.b0, c.b1, c.b2, c.b3) }

  function ByteOf(w: bv32, shift: bv6): bv8
    requires shift <= 24
  {
    ((w >> shift) & 0xff) as bv8
  }

  function ToColumn(w: bv32): Column { Column(ByteOf(w, 24), ByteOf(w, 16), ByteOf(w, 8), ByteOf(w, 0)) }

  // ---------------------------------------------------------------- section 5.1: the cipher's transformations

  function SubColumn(c: Column): Column {
    Column(SubByte(c.b0), SubByte(c.b1), SubByte(c.b2), SubByte(c.b3))
  }

  function SubBytes(s: Block): Block {
    Block(SubColumn(s.c0), SubColumn(s.c1), SubColumn(s.c2), SubColumn(s.c3))
  }

  /** Row r rotates left by r: column j collects row r from column j + r. */
  function ShiftRows(s: Block): Block {
    Block(Column(s.c0.b0, s.c1.b1, s.c2.b2, s.c3.b3),
          Column(s.c1.b0, s.c2.b1, s.c3.b2, s.c0.b3),
          Column(s.c2.b0, s.c3.b1, s.c0.b2, s.c1.b3),
          Column(s.c3.b0, s.c0.b1, s.c1.b2, s.c2.b3))
  }

  function MixColumn(c: Column): Column {
    Column(Sum4(Xtime(c.b0), Mul3(c.b1), c.b2, c.b3),
           Sum4(c.b0, Xtime(c.b1), Mul3(c.b2), c.b3),
           Sum4(c.b0, c.b1, Xtime(c.b2), Mul3(c.b3)),
           Sum4(Mul3(c.b0), c.b1, c.b2, Xtime(c.b3)))
  }

  function MixColumns(s: Block): Block {
    Block(MixColumn(s.c0), MixColumn(s.c1), MixColumn(s.c2), MixColumn(s.c3))
  }

  function AddColumn(a: Column, b: Column): Column {
    Column(Add(a.b0, b.b0), Add(a.b1, b.b1), Add(a.b2, b.b2), Add(a.b3, b.b3))
  }

  function AddRoundKey(s: Block, k: Block): Block {
    Block(AddColumn(s.c0, k.c0), AddColumn(s.c1, k.c1), AddColumn(s.c2, k.c2), AddColumn(s.c3, k.c3))
  }

  // ---------------------------------------------------------------- section 5.3: their inverses

  function InvSubColumn(c: Column): Column {
    Column(InvSubByte(c.b0), InvSubByte(c.b1), InvSubByte(c.b2), InvSubByte(c.b3))
  }

  function InvSubBytes(s: Block): Block {
    Block(InvSubColumn(s.c0), InvSubColumn(s.c1), InvSubColumn(s.c2), InvSubColumn(s.c3))
  }

  function InvShiftRows(s: Block): Block {
    Block(Column(s.c0.b0, s.c3.b1, s.c2.b2, s.c1.b3),
          Column(s.c1.b0, s.c0.b1, s.c3.b2, s.c2.b3),
          Column(s.c2.b0, s.c1.b1, s.c0.b2, s.c3.b3),
          Column(s.c3.b0, s.c2.b1, s.c1.b2, s.c0.b3))
  }

  function InvMixColumn(c: Column): Column {
    Column(Sum4(Mul14(c.b0), Mul11(c.b1), Mul13(c.b2), Mul9(c.b3)),
           Sum4(Mul9(c.b0), Mul14(c.b1), Mul11(c.b2), Mul13(c.b3)),
           Sum4(Mul13(c.b0), Mul9(c.b1), Mul14(c.b2), Mul11(c.b3)),
           Sum4(Mul11(c.b0), Mul13(c.b1), Mul9(c.b2), Mul14(c.b3)))
  }

  function InvMixColumns(s: Block): Block {
    Block(InvMixColumn(s.c0), InvMixColumn(s.c1), InvMixColumn(s.c2), InvMixColumn(s.c3))
  }

  // ---------------------------------------------------------------- the cipher

  const ROUNDS: nat := 14

  /** A key schedule: four words for each of the round keys 0 to 14. */
  type Schedule = w: seq<bv32> | |w| == 60 witness seq(60, i => 0)

  /** Round key r of a schedule. */
  function RoundKey(w: Schedule, r: nat): Block
    requires r <= ROUNDS
  {
    Block(ToColumn(w[4 * r]), ToColumn(w[4 * r + 1]), ToColumn(w[4 * r + 2]), ToColumn(w[4 * r + 3]))
  }

  /** The state after the first r full rounds. */
  function Rounds(input: Block, w: Schedule, r: nat): Block
    requires r < ROUNDS
  {
    if r == 0 then AddRoundKey(input, RoundKey(w, 0))
    else AddRoundKey(MixColumns(ShiftRows(SubBytes(Rounds(input, w, r - 1)))), RoundKey(w, r))
  }

  function Cipher(input: Block, w: Schedule): Block {
    AddRoundKey(ShiftRows(SubBytes(Rounds(input, w, ROUNDS - 1))), RoundKey(w, ROUNDS))
  }

  /** The equivalent inverse cipher of section 5.3.5: the round structure of the cipher, with its own key schedule. */
  function InvRounds(input: Block, w: Schedule, r: nat): Block
    requires r < ROUNDS
  {
    if r == 0 then AddRoundKey(input, RoundKey(w, 0))
    else AddRoundKey(InvMixColumns(InvShiftRows(InvSubBytes(InvRounds(input, w, r - 1)))), RoundKey(w, r))
  }

  function EqInvCipher(input: Block, w: Schedule): Block {
    AddRoundKey(InvShiftRows(InvSubBytes(InvRounds(input, w, ROUNDS - 1))), RoundKey(w, ROUNDS))
  }

  // ---------------------------------------------------------------- section 5.2: the key schedule

  function SubWord(w: bv32): bv32 { ToWord(SubColumn(ToColumn(w))) }

  function RotWord(w: bv32): bv32 { (w << 8) | (w >> 24) }

  /** The power x^(k-1) of the field, in the top byte. */
  function Power(k: nat): bv8 {
    if k == 0 then 1 else Xtime(Power(k - 1))
  }

  function Rcon(k: nat): bv32
    requires k > 0
  {
    Word(Power(k - 1), 0, 0, 0)
  }

  /** Word i of the schedule expanded from the eight words of a 256-bit key. */
  function Expanded(key: seq<bv32>, i: nat): bv32
    requires |key| == 8
  {
    if i < 8 then key[i]
    else
      var before := Expanded(key, i - 1);
      var mixed := if i % 8 == 0 then Xor(SubWord(RotWord(before)), Rcon(i / 8))
                   else if i % 8 == 4 then SubWord(before)
                   else before;
      Xor(Expanded(key, i - 8), mixed)
  }

  function Expansion(key: seq<bv32>): (w: Schedule)
    requires |key| == 8
  {
    seq(60, i requires 0 <= i => Expanded(key, i))
  }

  /** Section 5.2 on the bytes of a 256-bit key: word i below 8 is bytes 4i to 4i + 3, and each later one is the word
      eight before it combined with its predecessor, which every fourth time is transformed. */
  ghost predicate IsKeyExpansion(key: seq<bv8>, w: seq<bv32>)
    requires |key| == 32 && |w| == 60
  {
    && (forall i | 0 <= i < 8 ::
          ToColumn(w[i]) == Column(key[4 * i], key[4 * i + 1], key[4 * i + 2], key[4 * i + 3]))
    && (forall i | 8 <= i < 60 ::
          w[i] == Xor(w[i - 8], if i % 8 == 0 then Xor(SubWord(RotWord(w[i - 1])), Rcon(i / 8))
                                else if i % 8 == 4 then SubWord(w[i - 1])
                                else w[i - 1]))
  }

  /** Two schedules that undo each other: round keys reversed, with InvMixColumns on the inner ones. */
  predicate Inverted(w: Schedule, inv: Schedule) {
    && RoundKey(inv, 0) == RoundKey(w, ROUNDS)
    && RoundKey(inv, ROUNDS) == RoundKey(w, 0)
    && forall r: nat | 0 < r < ROUNDS :: RoundKey(inv, r) == InvMixColumns(RoundKey(w, ROUNDS - r))
  }
}
