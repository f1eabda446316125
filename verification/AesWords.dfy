/** The AES rounds a word at a time: each table lookup against the byte-level transformation it stands for. */
module AesWords {
  import opened AesField
  import opened AesTables
  import opened AesSpec
  import opened AesAlgebra
  import opened Words

  // ---------------------------------------------------------------- bytes in memory

  /** A big-endian word of a buffer. */
  function GetWord(s: seq<bv8>, at: nat): bv32
    requires at + 4 <= |s|
  {
    ((s[at] as bv32) << 24) ^ ((s[at + 1] as bv32) << 16) ^ ((s[at + 2] as bv32) << 8) ^ (s[at + 3] as bv32)
  }

  function ColumnAt(s: seq<bv8>, at: nat): Column
    requires at + 4 <= |s|
  {
    Column(s[at], s[at + 1], s[at + 2], s[at + 3])
  }

  /** The state that section 3.4 of FIPS 197 loads from sixteen bytes. */
  function BlockAt(s: seq<bv8>, at: nat): Block
    requires at + 16 <= |s|
  {
    Block(ColumnAt(s, at), ColumnAt(s, at + 4), ColumnAt(s, at + 8), ColumnAt(s, at + 12))
  }

  function ColumnBytes(c: Column): (s: seq<bv8>)
    ensures |s| == 4
  {
    [c.b0, c.b1, c.b2, c.b3]
  }

  function BlockBytes(b: Block): (s: seq<bv8>)
    ensures |s| == 16 && BlockAt(s, 0) == b
  {
    ColumnBytes(b.c0) + ColumnBytes(b.c1) + ColumnBytes(b.c2) + ColumnBytes(b.c3)
  }

  /** Section 3.4 of FIPS 197: byte r + 4c of the input is row r of column c. */
  lemma BlockLayout(s: seq<bv8>, at: nat)
    requires at + 16 <= |s|
    ensures var b := BlockAt(s, at);
            && b.c0 == Column(s[at], s[at + 1], s[at + 2], s[at + 3])
            && b.c1 == Column(s[at + 4], s[at + 5], s[at + 6], s[at + 7])
            && b.c2 == Column(s[at + 8], s[at + 9], s[at + 10], s[at + 11])
            && b.c3 == Column(s[at + 12], s[at + 13], s[at + 14], s[at + 15])
  {
  }

  lemma GetWordIsColumn(s: seq<bv8>, at: nat)
    requires at + 4 <= |s|
    ensures ToColumn(GetWord(s, at)) == ColumnAt(s, at)
  {
    GetBytes(s[at], s[at + 1], s[at + 2], s[at + 3]);
  }

  lemma GetBytes(a: bv8, b: bv8, c: bv8, d: bv8)
    ensures ToColumn(((a as bv32) << 24) ^ ((b as bv32) << 16) ^ ((c as bv32) << 8) ^ (d as bv32)) == Column(a, b, c, d)
  {
  }

  // ---------------------------------------------------------------- words and columns

  lemma ColumnOfWord(c: Column)
    ensures ToColumn(ToWord(c)) == c
  {
    ByteOfWord(c.b0, c.b1, c.b2, c.b3);
  }

  lemma ByteOfWord(a: bv8, b: bv8, c: bv8, d: bv8)
    ensures ToColumn(Word(a, b, c, d)) == Column(a, b, c, d)
  {
  }

  lemma WordOfColumn(w: bv32)
    ensures ToWord(ToColumn(w)) == w
  {
  }

  lemma XorIsAddColumn(v: bv32, w: bv32)
    ensures ToColumn(Xor(v, w)) == AddColumn(ToColumn(v), ToColumn(w))
  {
  }

  // ---------------------------------------------------------------- one column of a round

  /** Four table words and a round key word. */
  function Xor5(a: bv32, b: bv32, c: bv32, d: bv32, k: bv32): bv32 { Xor(Xor(Xor(Xor(a, b), c), d), k) }

  /** One line of an encryption round: a table lookup for each of the four bytes that ShiftRows brings together. */
  function TeWord(s0: bv32, s1: bv32, s2: bv32, s3: bv32, k: bv32): bv32 {
    Xor5(Te0(ByteOf(s0, 24)), Te1(ByteOf(s1, 16)), Te2(ByteOf(s2, 8)), Te3(ByteOf(s3, 0)), k)
  }

  /** One line of a decryption round. */
  function TdWord(s0: bv32, s1: bv32, s2: bv32, s3: bv32, k: bv32): bv32 {
    Xor5(Td0(ByteOf(s0, 24)), Td1(ByteOf(s1, 16)), Td2(ByteOf(s2, 8)), Td3(ByteOf(s3, 0)), k)
  }

  /** Four substituted bytes, each kept in its own place. */
  function Te4Bytes(c: Column, k: bv32): bv32 {
    Xor5(Masked(Te4(c.b0), 0xff000000), Masked(Te4(c.b1), 0x00ff0000),
         Masked(Te4(c.b2), 0x0000ff00), Masked(Te4(c.b3), 0x000000ff), k)
  }

  /** One line of the last encryption round. */
  function Te4Word(s0: bv32, s1: bv32, s2: bv32, s3: bv32, k: bv32): bv32 {
    Te4Bytes(Column(ByteOf(s0, 24), ByteOf(s1, 16), ByteOf(s2, 8), ByteOf(s3, 0)), k)
  }

  function Td4Word(s0: bv32, s1: bv32, s2: bv32, s3: bv32, k: bv32): bv32 {
    Xor5(Masked(Td4(ByteOf(s0, 24)), 0xff000000), Masked(Td4(ByteOf(s1, 16)), 0x00ff0000),
         Masked(Td4(ByteOf(s2, 8)), 0x0000ff00), Masked(Td4(ByteOf(s3, 0)), 0x000000ff), k)
  }

  /** The byte of each row that ShiftRows or InvShiftRows brings into one column. */
  function Gathered(s0: bv32, s1: bv32, s2: bv32, s3: bv32): Column {
    Column(ByteOf(s0, 24), ByteOf(s1, 16), ByteOf(s2, 8), ByteOf(s3, 0))
  }

  lemma XorFive(a: bv32, b: bv32, c: bv32, d: bv32, k: bv32)
    ensures ToColumn(Xor5(a, b, c, d, k))
         == AddColumn(AddColumn(AddColumn(AddColumn(ToColumn(a), ToColumn(b)), ToColumn(c)), ToColumn(d)), ToColumn(k))
  {
    hide ToColumn, AddColumn, Xor;
    XorIsAddColumn(Xor(Xor(Xor(a, b), c), d), k);
    XorIsAddColumn(Xor(Xor(a, b), c), d);
    XorIsAddColumn(Xor(a, b), c);
    XorIsAddColumn(a, b);
  }

  /** The encryption tables hold the columns that one substituted byte contributes. */
  lemma EncryptionTables(x: bv8)
    ensures ToColumn(Te0(x)) == Mixed0(SubByte(x)) && ToColumn(Te1(x)) == Mixed1(SubByte(x))
    ensures ToColumn(Te2(x)) == Mixed2(SubByte(x)) && ToColumn(Te3(x)) == Mixed3(SubByte(x))
  {
    hide Te0, Te1, Te2, Te3, Te4, Td0, Td1, Td2, Td3, Td4, Xtime, Mul3, Word, ToColumn, SubByte, InvSubByte;
    TableLaws(x);
    ColumnOfWord(Mixed0(SubByte(x)));
    ColumnOfWord(Mixed1(SubByte(x)));
    ColumnOfWord(Mixed2(SubByte(x)));
    ColumnOfWord(Mixed3(SubByte(x)));
  }

  /** Four lookups and a round key: SubBytes, MixColumns and AddRoundKey of the gathered column. */
  lemma TeWordIsRound(s0: bv32, s1: bv32, s2: bv32, s3: bv32, k: bv32)
    ensures ToColumn(TeWord(s0, s1, s2, s3, k))
         == AddColumn(MixColumn(SubColumn(Gathered(s0, s1, s2, s3))), ToColumn(k))
  {
    hide Te0, Te1, Te2, Te3, SubByte, ByteOf, ToColumn, AddColumn, Xor5, MixColumn, Mixed0, Mixed1, Mixed2, Mixed3;
    var c := Gathered(s0, s1, s2, s3);
    XorFive(Te0(c.b0), Te1(c.b1), Te2(c.b2), Te3(c.b3), k);
    EncryptionTables(c.b0);
    EncryptionTables(c.b1);
    EncryptionTables(c.b2);
    EncryptionTables(c.b3);
    MixIsSum(SubColumn(c));
  }

  /** What one byte of a column contributes to its column under InvMixColumns. */
  function Unmixed0(b: bv8): Column { Column(Mul14(b), Mul9(b), Mul13(b), Mul11(b)) }

  function Unmixed1(b: bv8): Column { Column(Mul11(b), Mul14(b), Mul9(b), Mul13(b)) }

  function Unmixed2(b: bv8): Column { Column(Mul13(b), Mul11(b), Mul14(b), Mul9(b)) }

  function Unmixed3(b: bv8): Column { Column(Mul9(b), Mul13(b), Mul11(b), Mul14(b)) }

  lemma InvMixIsSum(c: Column)
    ensures InvMixColumn(c)
         == AddColumn(AddColumn(AddColumn(Unmixed0(c.b0), Unmixed1(c.b1)), Unmixed2(c.b2)), Unmixed3(c.b3))
  {
    hide Mul9, Mul11, Mul13, Mul14, Add;
  }

  lemma DecryptionTables(x: bv8)
    ensures ToColumn(Td0(x)) == Unmixed0(InvSubByte(x)) && ToColumn(Td1(x)) == Unmixed1(InvSubByte(x))
    ensures ToColumn(Td2(x)) == Unmixed2(InvSubByte(x)) && ToColumn(Td3(x)) == Unmixed3(InvSubByte(x))
  {
    hide Te0, Te1, Te2, Te3, Te4, Td0, Td1, Td2, Td3, Td4, Mul9, Mul11, Mul13, Mul14, Word, ToColumn, SubByte,
      InvSubByte;
    TableLaws(x);
    ColumnOfWord(Unmixed0(InvSubByte(x)));
    ColumnOfWord(Unmixed1(InvSubByte(x)));
    ColumnOfWord(Unmixed2(InvSubByte(x)));
    ColumnOfWord(Unmixed3(InvSubByte(x)));
  }

  /** Four lookups and a round key: InvSubBytes, InvMixColumns and AddRoundKey of the gathered column. */
  lemma TdWordIsRound(s0: bv32, s1: bv32, s2: bv32, s3: bv32, k: bv32)
    ensures ToColumn(TdWord(s0, s1, s2, s3, k))
         == AddColumn(InvMixColumn(InvSubColumn(Gathered(s0, s1, s2, s3))), ToColumn(k))
  {
    hide Td0, Td1, Td2, Td3, InvSubByte, ByteOf, ToColumn, AddColumn, Xor5, InvMixColumn, Unmixed0, Unmixed1, Unmixed2,
      Unmixed3;
    var c := Gathered(s0, s1, s2, s3);
    XorFive(Td0(c.b0), Td1(c.b1), Td2(c.b2), Td3(c.b3), k);
    DecryptionTables(c.b0);
    DecryptionTables(c.b1);
    DecryptionTables(c.b2);
    DecryptionTables(c.b3);
    InvMixIsSum(InvSubColumn(c));
  }

  lemma Repeated(b: bv8)
    ensures ToColumn(Masked(Word(b, b, b, b), 0xff000000)) == Column(b, 0, 0, 0)
    ensures ToColumn(Masked(Word(b, b, b, b), 0x00ff0000)) == Column(0, b, 0, 0)
    ensures ToColumn(Masked(Word(b, b, b, b), 0x0000ff00)) == Column(0, 0, b, 0)
    ensures ToColumn(Masked(Word(b, b, b, b), 0x000000ff)) == Column(0, 0, 0, b)
  {
  }

  lemma SBoxWords(x: bv8)
    ensures Te4(x) == Word(SubByte(x), SubByte(x), SubByte(x), SubByte(x))
    ensures Td4(x) == Word(InvSubByte(x), InvSubByte(x), InvSubByte(x), InvSubByte(x))
  {
    hide Te0, Te1, Te2, Te3, Te4, Td0, Td1, Td2, Td3, Td4, Mul3, Mul9, Mul11, Mul13, Mul14, Xtime, Word, SubByte,
      InvSubByte;
    TableLaws(x);
  }

  lemma Te4BytesSubstitute(c: Column, k: bv32)
    ensures ToColumn(Te4Bytes(c, k)) == AddColumn(SubColumn(c), ToColumn(k))
  {
    hide Te4, Word, SubByte, ByteOf, ToColumn, AddColumn, Masked, Xor5;
    XorFive(Masked(Te4(c.b0), 0xff000000), Masked(Te4(c.b1), 0x00ff0000),
            Masked(Te4(c.b2), 0x0000ff00), Masked(Te4(c.b3), 0x000000ff), k);
    SBoxWords(c.b0);
    SBoxWords(c.b1);
    SBoxWords(c.b2);
    SBoxWords(c.b3);
    Repeated(SubByte(c.b0));
    Repeated(SubByte(c.b1));
    Repeated(SubByte(c.b2));
    Repeated(SubByte(c.b3));
    SplitColumn(SubColumn(c));
  }

  /** The last round: SubBytes and AddRoundKey of the gathered column. */
  lemma Te4WordIsRound(s0: bv32, s1: bv32, s2: bv32, s3: bv32, k: bv32)
    ensures ToColumn(Te4Word(s0, s1, s2, s3, k)) == AddColumn(SubColumn(Gathered(s0, s1, s2, s3)), ToColumn(k))
  {
    hide Te4Bytes, SubByte, ByteOf, ToColumn, AddColumn;
    Te4BytesSubstitute(Gathered(s0, s1, s2, s3), k);
  }

  lemma Td4WordIsRound(s0: bv32, s1: bv32, s2: bv32, s3: bv32, k: bv32)
    ensures ToColumn(Td4Word(s0, s1, s2, s3, k)) == AddColumn(InvSubColumn(Gathered(s0, s1, s2, s3)), ToColumn(k))
  {
    hide Td4, Word, InvSubByte, ByteOf, ToColumn, AddColumn, Masked, Xor5;
    var c := Gathered(s0, s1, s2, s3);
    XorFive(Masked(Td4(c.b0), 0xff000000), Masked(Td4(c.b1), 0x00ff0000),
            Masked(Td4(c.b2), 0x0000ff00), Masked(Td4(c.b3), 0x000000ff), k);
    SBoxWords(c.b0);
    SBoxWords(c.b1);
    SBoxWords(c.b2);
    SBoxWords(c.b3);
    Repeated(InvSubByte(c.b0));
    Repeated(InvSubByte(c.b1));
    Repeated(InvSubByte(c.b2));
    Repeated(InvSubByte(c.b3));
    SplitColumn(InvSubColumn(c));
  }

  // ---------------------------------------------------------------- one round

  /** The state that four words hold. */
  function StateOf(s0: bv32, s1: bv32, s2: bv32, s3: bv32): Block {
    Block(ToColumn(s0), ToColumn(s1), ToColumn(s2), ToColumn(s3))
  }

  lemma FirstKey(input: Block, w: Schedule, i0: bv32, i1: bv32, i2: bv32, i3: bv32)
    requires StateOf(i0, i1, i2, i3) == input
    ensures StateOf(Xor(i0, w[0]), Xor(i1, w[1]), Xor(i2, w[2]), Xor(i3, w[3]))
         == Rounds(input, w, 0) == InvRounds(input, w, 0)
  {
    hide ToColumn, AddColumn, Xor;
    XorIsAddColumn(i0, w[0]);
    XorIsAddColumn(i1, w[1]);
    XorIsAddColumn(i2, w[2]);
    XorIsAddColumn(i3, w[3]);
  }

  lemma EncryptionRound(input: Block, w: Schedule, r: nat, s0: bv32, s1: bv32, s2: bv32, s3: bv32)
    requires 0 < r < ROUNDS && StateOf(s0, s1, s2, s3) == Rounds(input, w, r - 1)
    ensures StateOf(TeWord(s0, s1, s2, s3, w[4 * r]), TeWord(s1, s2, s3, s0, w[4 * r + 1]),
                    TeWord(s2, s3, s0, s1, w[4 * r + 2]), TeWord(s3, s0, s1, s2, w[4 * r + 3]))
         == Rounds(input, w, r)
  {
    hide TeWord, AddColumn, MixColumn, SubByte, ByteOf;
    TeWordIsRound(s0, s1, s2, s3, w[4 * r]);
    TeWordIsRound(s1, s2, s3, s0, w[4 * r + 1]);
    TeWordIsRound(s2, s3, s0, s1, w[4 * r + 2]);
    TeWordIsRound(s3, s0, s1, s2, w[4 * r + 3]);
  }

  lemma LastEncryptionRound(input: Block, w: Schedule, s0: bv32, s1: bv32, s2: bv32, s3: bv32)
    requires StateOf(s0, s1, s2, s3) == Rounds(input, w, ROUNDS - 1)
    ensures StateOf(Te4Word(s0, s1, s2, s3, w[56]), Te4Word(s1, s2, s3, s0, w[57]),
                    Te4Word(s2, s3, s0, s1, w[58]), Te4Word(s3, s0, s1, s2, w[59]))
         == Cipher(input, w)
  {
    hide Te4Word, AddColumn, SubByte, ByteOf, Rounds;
    Te4WordIsRound(s0, s1, s2, s3, w[56]);
    Te4WordIsRound(s1, s2, s3, s0, w[57]);
    Te4WordIsRound(s2, s3, s0, s1, w[58]);
    Te4WordIsRound(s3, s0, s1, s2, w[59]);
  }

  lemma DecryptionRound(input: Block, w: Schedule, r: nat, s0: bv32, s1: bv32, s2: bv32, s3: bv32)
    requires 0 < r < ROUNDS && StateOf(s0, s1, s2, s3) == InvRounds(input, w, r - 1)
    ensures StateOf(TdWord(s0, s3, s2, s1, w[4 * r]), TdWord(s1, s0, s3, s2, w[4 * r + 1]),
                    TdWord(s2, s1, s0, s3, w[4 * r + 2]), TdWord(s3, s2, s1, s0, w[4 * r + 3]))
         == InvRounds(input, w, r)
  {
    hide TdWord, AddColumn, InvMixColumn, InvSubByte, ByteOf;
    TdWordIsRound(s0, s3, s2, s1, w[4 * r]);
    TdWordIsRound(s1, s0, s3, s2, w[4 * r + 1]);
    TdWordIsRound(s2, s1, s0, s3, w[4 * r + 2]);
    TdWordIsRound(s3, s2, s1, s0, w[4 * r + 3]);
  }

  lemma LastDecryptionRound(input: Block, w: Schedule, s0: bv32, s1: bv32, s2: bv32, s3: bv32)
    requires StateOf(s0, s1, s2, s3) == InvRounds(input, w, ROUNDS - 1)
    ensures StateOf(Td4Word(s0, s3, s2, s1, w[56]), Td4Word(s1, s0, s3, s2, w[57]),
                    Td4Word(s2, s1, s0, s3, w[58]), Td4Word(s3, s2, s1, s0, w[59]))
         == EqInvCipher(input, w)
  {
    hide Td4Word, AddColumn, InvSubByte, ByteOf, InvRounds;
    Td4WordIsRound(s0, s3, s2, s1, w[56]);
    Td4WordIsRound(s1, s0, s3, s2, w[57]);
    Td4WordIsRound(s2, s1, s0, s3, w[58]);
    Td4WordIsRound(s3, s2, s1, s0, w[59]);
  }

  // ---------------------------------------------------------------- the key schedule

  lemma RotatedColumn(w: bv32)
    ensures ToColumn(RotWord(w)) == Column(ByteOf(w, 16), ByteOf(w, 8), ByteOf(w, 0), ByteOf(w, 24))
  {
  }

  lemma AddColumnCommutes(a: Column, b: Column)
    ensures AddColumn(a, b) == AddColumn(b, a)
  {
  }

  lemma Te4BytesIsWord(c: Column, k: bv32)
    ensures Te4Bytes(c, k) == Xor(k, ToWord(SubColumn(c)))
  {
    hide Te4Bytes, SubColumn, ToColumn, ToWord, Xor, AddColumn;
    Te4BytesSubstitute(c, k);
    ColumnOfWord(SubColumn(c));
    XorIsAddColumn(k, ToWord(SubColumn(c)));
    AddColumnCommutes(SubColumn(c), ToColumn(k));
    WordOfColumn(Te4Bytes(c, k));
    WordOfColumn(Xor(k, ToWord(SubColumn(c))));
  }

  /** The first word of each eight: rotated, substituted, and marked with the round constant. */
  function RotatedSubstitution(w: bv32, k: bv32, rcon: bv32): bv32 {
    Xor(Te4Bytes(Column(ByteOf(w, 16), ByteOf(w, 8), ByteOf(w, 0), ByteOf(w, 24)), k), rcon)
  }

  const RCON: seq<bv32> := [
    0x01000000, 0x02000000, 0x04000000, 0x08000000, 0x10000000,
    0x20000000, 0x40000000, 0x80000000, 0x1B000000, 0x36000000]

  lemma PowerTop(k: nat)
    ensures Power(k + 1) == Xtime(Power(k))
  {
  }

  lemma RoundConstants()
    ensures Power(0) == 0x01 && Power(1) == 0x02 && Power(2) == 0x04 && Power(3) == 0x08 && Power(4) == 0x10
    ensures Power(5) == 0x20 && Power(6) == 0x40
  {
    hide Power;
    PowerZero();
    PowerTop(0);
    PowerTop(1);
    PowerTop(2);
    PowerTop(3);
    PowerTop(4);
    PowerTop(5);
  }

  lemma PowerZero()
    ensures Power(0) == 1
  {
  }

  /** The table of round constants holds the powers of x. */
  lemma RconTable(k: nat)
    requires 0 < k < 8
    ensures RCON[k - 1] == Rcon(k)
  {
    hide Power;
    RoundConstants();
    assert k in {1, 2, 3, 4, 5, 6, 7};
  }

  lemma RotatedStep(key: seq<bv32>, i: nat)
    requires |key| == 8 && 8 <= i < 60 && i % 8 == 0
    ensures Expanded(key, i) == RotatedSubstitution(Expanded(key, i - 1), Expanded(key, i - 8), RCON[i / 8 - 1])
  {
    hide Te4Bytes, ToColumn, ToWord, SubColumn, Xor, RotWord, Rcon;
    var w, k := Expanded(key, i - 1), Expanded(key, i - 8);
    RotatedColumn(w);
    Te4BytesIsWord(ToColumn(RotWord(w)), k);
    RconTable(i / 8);
    XorAssociates(k, SubWord(RotWord(w)), Rcon(i / 8));
  }

  lemma SubstitutedStep(key: seq<bv32>, i: nat)
    requires |key| == 8 && 8 <= i < 60 && i % 8 == 4
    ensures Expanded(key, i) == Te4Bytes(ToColumn(Expanded(key, i - 1)), Expanded(key, i - 8))
  {
    hide Te4Bytes, ToColumn, ToWord, SubColumn, Xor, RotWord, Rcon;
    Te4BytesIsWord(ToColumn(Expanded(key, i - 1)), Expanded(key, i - 8));
  }

  /** A schedule's word with InvMixColumns applied: the decryption tables at substituted bytes. */
  function InvMixWord(w: bv32): bv32 {
    Xor(Xor(Xor(Td0(SubByte(ByteOf(w, 24))), Td1(SubByte(ByteOf(w, 16)))), Td2(SubByte(ByteOf(w, 8)))),
        Td3(SubByte(ByteOf(w, 0))))
  }

  lemma InvMixWordIsColumn(w: bv32)
    ensures ToColumn(InvMixWord(w)) == InvMixColumn(ToColumn(w))
  {
    hide Td0, Td1, Td2, Td3, InvSubByte, SubByte, ByteOf, AddColumn, Xor, InvMixColumn, Unmixed0, Unmixed1, Unmixed2,
      Unmixed3;
    var c := ToColumn(w);
    FourWords(Td0(SubByte(c.b0)), Td1(SubByte(c.b1)), Td2(SubByte(c.b2)), Td3(SubByte(c.b3)));
    DecryptionTables(SubByte(c.b0));
    DecryptionTables(SubByte(c.b1));
    DecryptionTables(SubByte(c.b2));
    DecryptionTables(SubByte(c.b3));
    InvSubByteSubByte(c.b0);
    InvSubByteSubByte(c.b1);
    InvSubByteSubByte(c.b2);
    InvSubByteSubByte(c.b3);
    InvMixIsSum(c);
  }

  lemma FourWords(a: bv32, b: bv32, c: bv32, d: bv32)
    ensures ToColumn(Xor(Xor(Xor(a, b), c), d))
         == AddColumn(AddColumn(AddColumn(ToColumn(a), ToColumn(b)), ToColumn(c)), ToColumn(d))
  {
    hide ToColumn, AddColumn, Xor;
    XorIsAddColumn(Xor(Xor(a, b), c), d);
    XorIsAddColumn(Xor(a, b), c);
    XorIsAddColumn(a, b);
  }

  /** Where word i of the reversed schedule comes from. */
  function Mirror(i: nat): (m: nat)
    requires i < 60
    ensures m < 60
  {
    56 - 4 * (i / 4) + i % 4
  }

  lemma MirrorOf(r: nat, o: nat)
    requires r <= ROUNDS && o < 4
    ensures Mirror(4 * r + o) == 4 * (ROUNDS - r) + o
  {
    assert (4 * r + o) / 4 == r;
  }

  /** The decryption schedule: round keys reversed, with InvMixColumns on the inner ones. */
  function Inversion(w: Schedule): (inv: Schedule)
    ensures Inverted(w, inv)
  {
    var inv: Schedule :=
      seq(60, i requires 0 <= i < 60 => if 4 <= i < 56 then InvMixWord(w[Mirror(i)]) else w[Mirror(i)]);
    InversionInverts(w, inv);
    inv
  }

  lemma InversionInverts(w: Schedule, inv: Schedule)
    requires forall i | 0 <= i < 60 :: inv[i] == if 4 <= i < 56 then InvMixWord(w[Mirror(i)]) else w[Mirror(i)]
    ensures Inverted(w, inv)
  {
    hide InvMixWord, InvMixColumns, InvMixColumn, ToColumn, RoundKey, Mirror;
    OuterKeys(w, inv);
    forall r: nat | 0 < r < ROUNDS ensures RoundKey(inv, r) == InvMixColumns(RoundKey(w, ROUNDS - r)) {
      InnerKey(w, inv, r);
    }
  }

  lemma OuterKeys(w: Schedule, inv: Schedule)
    requires forall i | 0 <= i < 60 && (i < 4 || 56 <= i) :: inv[i] == w[Mirror(i)]
    ensures RoundKey(inv, 0) == RoundKey(w, ROUNDS) && RoundKey(inv, ROUNDS) == RoundKey(w, 0)
  {
    hide ToColumn;
  }

  lemma InnerKey(w: Schedule, inv: Schedule, r: nat)
    requires 0 < r < ROUNDS
    requires forall i | 4 <= i < 56 :: inv[i] == InvMixWord(w[Mirror(i)])
    ensures RoundKey(inv, r) == InvMixColumns(RoundKey(w, ROUNDS - r))
  {
    hide InvMixWord, InvMixColumn, ToColumn, Mirror;
    MirrorOf(r, 0);
    MirrorOf(r, 1);
    MirrorOf(r, 2);
    MirrorOf(r, 3);
    InvMixWordIsColumn(w[4 * (ROUNDS - r)]);
    InvMixWordIsColumn(w[4 * (ROUNDS - r) + 1]);
    InvMixWordIsColumn(w[4 * (ROUNDS - r) + 2]);
    InvMixWordIsColumn(w[4 * (ROUNDS - r) + 3]);
  }
}
