/** The AES-256 implementation: key schedules filled in place, and the unrolled rounds over eight words. */
module AesContext {
  import opened AesSpec
  import opened AesAlgebra
  import opened AesWords
  import opened AesPadding
  import opened Words

  const KEY_SIZE: nat := 32

  function KeyWords(key: seq<bv8>): (w: seq<bv32>)
    requires |key| == KEY_SIZE
    ensures |w| == 8
  {
    [GetWord(key, 0), GetWord(key, 4), GetWord(key, 8), GetWord(key, 12),
     GetWord(key, 16), GetWord(key, 20), GetWord(key, 24), GetWord(key, 28)]
  }

  class Context {
    const roundkey: array<bv32>

    ghost predicate Valid() {
      roundkey.Length == 60
    }

    constructor ()
      ensures Valid() && fresh(roundkey)
    {
      roundkey := new bv32[60];
    }

    /** The key expansion of section 5.2 of FIPS 197, eight words at a time. */
    method EncryptInit(key: seq<bv8>)
      requires Valid() && |key| == KEY_SIZE
      modifies roundkey
      ensures roundkey[..] == Expansion(KeyWords(key)) && IsKeyExpansion(key, roundkey[..])
    {
      hide GetWord, Expanded, IsKeyExpansion;
      ExpansionOfKey(key);
      LoadKey(key);
      ghost var words := KeyWords(key);
      var index := 8;
      while index < 60
        invariant 8 <= index <= 60 && index % 4 == 0 && (index % 8 == 0 || index == 60)
        invariant forall i | 0 <= i < index :: roundkey[i] == Expanded(words, i)
      {
        ExpandRotated(words, index);
        if index == 56 {
          index := 60;
          break;
        }
        ExpandSubstituted(words, index + 4);
        index := index + 8;
      }
    }

    method LoadKey(key: seq<bv8>)
      requires Valid() && |key| == KEY_SIZE
      modifies roundkey
      ensures forall i | 0 <= i < 8 :: roundkey[i] == Expanded(KeyWords(key), i)
    {
      hide KeyWords, Expanded;
      FirstWords(KeyWords(key));
      LoadWords(key);
      assert forall i | 0 <= i < 8 :: roundkey[i] == roundkey[..8][i];
    }

    method LoadWords(key: seq<bv8>)
      requires Valid() && |key| == KEY_SIZE
      modifies roundkey
      ensures roundkey[..8] == KeyWords(key)
    {
      hide GetWord;
      roundkey[0] := GetWord(key, 0);
      roundkey[1] := GetWord(key, 4);
      roundkey[2] := GetWord(key, 8);
      roundkey[3] := GetWord(key, 12);
      roundkey[4] := GetWord(key, 16);
      roundkey[5] := GetWord(key, 20);
      roundkey[6] := GetWord(key, 24);
      roundkey[7] := GetWord(key, 28);
    }

    /** The first four words of each eight. */
    method ExpandRotated(ghost words: seq<bv32>, index: nat)
      requires Valid() && |words| == 8 && 8 <= index < 60 && index % 8 == 0
      requires forall i | 0 <= i < index :: roundkey[i] == Expanded(words, i)
      modifies roundkey
      ensures forall i | 0 <= i < index + 4 :: roundkey[i] == Expanded(words, i)
    {
      hide RotatedSubstitution, Expanded;
      RotatedStep(words, index);
      roundkey[index] := RotatedSubstitution(roundkey[index - 1], roundkey[index - 8], RCON[index / 8 - 1]);
      ExpandThree(words, index);
    }

    /** The last four words of each eight. */
    method ExpandSubstituted(ghost words: seq<bv32>, index: nat)
      requires Valid() && |words| == 8 && 8 <= index < 60 && index % 8 == 4
      requires forall i | 0 <= i < index :: roundkey[i] == Expanded(words, i)
      modifies roundkey
      ensures forall i | 0 <= i < index + 4 :: roundkey[i] == Expanded(words, i)
    {
      hide Te4Bytes, ToColumn, Expanded;
      SubstitutedStep(words, index);
      roundkey[index] := Te4Bytes(ToColumn(roundkey[index - 1]), roundkey[index - 8]);
      ExpandThree(words, index);
    }

    /** The three words of a group of four that only add their predecessor. */
    method ExpandThree(ghost words: seq<bv32>, index: nat)
      requires Valid() && |words| == 8 && 8 <= index < 60 && index % 4 == 0
      requires forall i | 0 <= i <= index :: roundkey[i] == Expanded(words, i)
      modifies roundkey
      ensures forall i | 0 <= i < index + 4 :: roundkey[i] == Expanded(words, i)
    {
      hide Expanded, Xor;
      PlainStep(words, index + 1);
      roundkey[index + 1] := Xor(roundkey[index - 7], roundkey[index]);
      PlainStep(words, index + 2);
      roundkey[index + 2] := Xor(roundkey[index - 6], roundkey[index + 1]);
      PlainStep(words, index + 3);
      roundkey[index + 3] := Xor(roundkey[index - 5], roundkey[index + 2]);
    }

    /** The schedule of the equivalent inverse cipher, by reversing the encryption schedule in place. */
    method DecryptInit(key: seq<bv8>)
      requires Valid() && |key| == KEY_SIZE
      modifies roundkey
      ensures roundkey[..] == Inversion(Expansion(KeyWords(key)))
    {
      hide Expansion, Inversion, KeyWords, Mirror;
      EncryptInit(key);
      ReverseRoundKeys(Expansion(KeyWords(key)));
      MixInnerKeys(Expansion(KeyWords(key)));
    }

    /** Inverts the order of the round keys. */
    method ReverseRoundKeys(ghost w: Schedule)
      requires Valid() && roundkey[..] == w
      modifies roundkey
      ensures forall k | 0 <= k < 60 :: roundkey[k] == w[Mirror(k)]
    {
      hide Mirror, PartlyReversed, Exchanged;
      NothingReversed(roundkey[..]);
      var i, j := 0, 56;
      while i < j
        invariant 0 <= i <= 28 && i % 4 == 0 && j == 56 - i
        invariant PartlyReversed(roundkey[..], w, i)
      {
        ghost var was := roundkey[..];
        SwapRoundKeys(i, j);
        PartlyReversedStep(was, roundkey[..], w, i);
        i, j := i + 4, j - 4;
      }
      AllReversed(roundkey[..], w);
    }

    method SwapRoundKeys(i: nat, j: nat)
      requires Valid() && i + 4 <= j && j + 4 <= 60
      modifies roundkey
      ensures Exchanged(old(roundkey[..]), roundkey[..], i, j)
    {
      SwapWords(i, j);
      SwapWords(i + 1, j + 1);
      SwapWords(i + 2, j + 2);
      SwapWords(i + 3, j + 3);
    }

    method SwapWords(i: nat, j: nat)
      requires Valid() && i < j < 60
      modifies roundkey
      ensures roundkey[i] == old(roundkey[j]) && roundkey[j] == old(roundkey[i])
      ensures forall k | 0 <= k < 60 && k != i && k != j :: roundkey[k] == old(roundkey[k])
    {
      var temp := roundkey[i];
      roundkey[i] := roundkey[j];
      roundkey[j] := temp;
    }

    /** Applies InvMixColumns to all round keys except the first and the last. */
    method MixInnerKeys(ghost w: Schedule)
      requires Valid()
      requires forall k | 0 <= k < 60 :: roundkey[k] == w[Mirror(k)]
      modifies roundkey
      ensures roundkey[..] == Inversion(w)
    {
      hide InvMixWord, Inverted, Mirror;
      var index := 4;
      while index < 56
        invariant 4 <= index <= 56 && index % 4 == 0
        invariant forall k | 0 <= k < 4 || index <= k < 60 :: roundkey[k] == w[Mirror(k)]
        invariant forall k | 4 <= k < index :: roundkey[k] == InvMixWord(w[Mirror(k)])
      {
        MixKey(index);
        index := index + 4;
      }
    }

    method MixKey(index: nat)
      requires Valid() && index + 4 <= 60
      modifies roundkey
      ensures forall k | index <= k < index + 4 :: roundkey[k] == InvMixWord(old(roundkey[k]))
      ensures forall k | 0 <= k < index || index + 4 <= k < 60 :: roundkey[k] == old(roundkey[k])
    {
      hide InvMixWord;
      roundkey[index] := InvMixWord(roundkey[index]);
      roundkey[index + 1] := InvMixWord(roundkey[index + 1]);
      roundkey[index + 2] := InvMixWord(roundkey[index + 2]);
      roundkey[index + 3] := InvMixWord(roundkey[index + 3]);
    }

    /** Forgets the schedule. */
    method Free()
      requires Valid()
      modifies roundkey
      ensures forall k | 0 <= k < 60 :: roundkey[k] == 0
    {
      for index := 0 to 60
        invariant forall k | 0 <= k < index :: roundkey[k] == 0
      {
        roundkey[index] := 0;
      }
    }

    /** One block through the unrolled rounds; the output may be the input's own buffer. */
    method Encrypt(input: array<bv8>, inAt: nat, output: array<bv8>, outAt: nat)
      requires Valid() && inAt + BLOCK <= input.Length && outAt + BLOCK <= output.Length
      modifies output
      ensures BlockAt(output[..], outAt) == Cipher(BlockAt(old(input[..]), inAt), old(roundkey[..]))
      ensures forall k | 0 <= k < outAt || outAt + BLOCK <= k < output.Length :: output[k] == old(output[k])
    {
      var s0, s1, s2, s3 := EncryptWords(
        GetWord(input[..], inAt), GetWord(input[..], inAt + 4),
        GetWord(input[..], inAt + 8), GetWord(input[..], inAt + 12));
      InputState(input[..], inAt);
      PutBlock(output, outAt, s0, s1, s2, s3);
    }

    /** The encryption of one state, as the source unrolls it: t from s, then s from t, round after round. */
    method EncryptWords(i0: bv32, i1: bv32, i2: bv32, i3: bv32) returns (s0: bv32, s1: bv32, s2: bv32, s3: bv32)
      requires Valid()
      ensures StateOf(s0, s1, s2, s3) == Cipher(StateOf(i0, i1, i2, i3), roundkey[..])
    {
      hide StateOf, Xor, TeWord, Te4Word, Rounds, InvRounds, Cipher;
      ghost var input, w := StateOf(i0, i1, i2, i3), roundkey[..];
      FirstKey(input, w, i0, i1, i2, i3);
      s0, s1, s2, s3 := Xor(i0, roundkey[0]), Xor(i1, roundkey[1]), Xor(i2, roundkey[2]), Xor(i3, roundkey[3]);
      var t0, t1, t2, t3 := EncryptRound(input, 4, s0, s1, s2, s3);
      s0, s1, s2, s3 := EncryptRound(input, 8, t0, t1, t2, t3);
      t0, t1, t2, t3 := EncryptRound(input, 12, s0, s1, s2, s3);
      s0, s1, s2, s3 := EncryptRound(input, 16, t0, t1, t2, t3);
      t0, t1, t2, t3 := EncryptRound(input, 20, s0, s1, s2, s3);
      s0, s1, s2, s3 := EncryptRound(input, 24, t0, t1, t2, t3);
      t0, t1, t2, t3 := EncryptRound(input, 28, s0, s1, s2, s3);
      s0, s1, s2, s3 := EncryptRound(input, 32, t0, t1, t2, t3);
      t0, t1, t2, t3 := EncryptRound(input, 36, s0, s1, s2, s3);
      s0, s1, s2, s3 := EncryptRound(input, 40, t0, t1, t2, t3);
      t0, t1, t2, t3 := EncryptRound(input, 44, s0, s1, s2, s3);
      s0, s1, s2, s3 := EncryptRound(input, 48, t0, t1, t2, t3);
      t0, t1, t2, t3 := EncryptRound(input, 52, s0, s1, s2, s3);
      LastEncryptionRound(input, w, t0, t1, t2, t3);
      s0, s1 := Te4Word(t0, t1, t2, t3, roundkey[56]), Te4Word(t1, t2, t3, t0, roundkey[57]);
      s2, s3 := Te4Word(t2, t3, t0, t1, roundkey[58]), Te4Word(t3, t0, t1, t2, roundkey[59]);
    }

    method EncryptRound(ghost input: Block, k: nat, s0: bv32, s1: bv32, s2: bv32, s3: bv32)
      returns (t0: bv32, t1: bv32, t2: bv32, t3: bv32)
      requires Valid() && 0 < k < 56 && k % 4 == 0
      requires StateOf(s0, s1, s2, s3) == Rounds(input, roundkey[..], k / 4 - 1)
      ensures StateOf(t0, t1, t2, t3) == Rounds(input, roundkey[..], k / 4)
    {
      hide StateOf, TeWord, Rounds;
      EncryptionRound(input, roundkey[..], k / 4, s0, s1, s2, s3);
      t0 := TeWord(s0, s1, s2, s3, roundkey[k]);
      t1 := TeWord(s1, s2, s3, s0, roundkey[k + 1]);
      t2 := TeWord(s2, s3, s0, s1, roundkey[k + 2]);
      t3 := TeWord(s3, s0, s1, s2, roundkey[k + 3]);
    }

    /** The decryption of one state, as the source unrolls it: t from s, then s from t, round after round. */
    method DecryptWords(i0: bv32, i1: bv32, i2: bv32, i3: bv32) returns (s0: bv32, s1: bv32, s2: bv32, s3: bv32)
      requires Valid()
      ensures StateOf(s0, s1, s2, s3) == EqInvCipher(StateOf(i0, i1, i2, i3), roundkey[..])
    {
      hide StateOf, Xor, TdWord, Td4Word, Rounds, InvRounds, EqInvCipher;
      ghost var input, w := StateOf(i0, i1, i2, i3), roundkey[..];
      FirstKey(input, w, i0, i1, i2, i3);
      s0, s1, s2, s3 := Xor(i0, roundkey[0]), Xor(i1, roundkey[1]), Xor(i2, roundkey[2]), Xor(i3, roundkey[3]);
      var t0, t1, t2, t3 := DecryptRound(input, 4, s0, s1, s2, s3);
      s0, s1, s2, s3 := DecryptRound(input, 8, t0, t1, t2, t3);
      t0, t1, t2, t3 := DecryptRound(input, 12, s0, s1, s2, s3);
      s0, s1, s2, s3 := DecryptRound(input, 16, t0, t1, t2, t3);
      t0, t1, t2, t3 := DecryptRound(input, 20, s0, s1, s2, s3);
      s0, s1, s2, s3 := DecryptRound(input, 24, t0, t1, t2, t3);
      t0, t1, t2, t3 := DecryptRound(input, 28, s0, s1, s2, s3);
      s0, s1, s2, s3 := DecryptRound(input, 32, t0, t1, t2, t3);
      t0, t1, t2, t3 := DecryptRound(input, 36, s0, s1, s2, s3);
      s0, s1, s2, s3 := DecryptRound(input, 40, t0, t1, t2, t3);
      t0, t1, t2, t3 := DecryptRound(input, 44, s0, s1, s2, s3);
      s0, s1, s2, s3 := DecryptRound(input, 48, t0, t1, t2, t3);
      t0, t1, t2, t3 := DecryptRound(input, 52, s0, s1, s2, s3);
      LastDecryptionRound(input, w, t0, t1, t2, t3);
      s0, s1 := Td4Word(t0, t3, t2, t1, roundkey[56]), Td4Word(t1, t0, t3, t2, roundkey[57]);
      s2, s3 := Td4Word(t2, t1, t0, t3, roundkey[58]), Td4Word(t3, t2, t1, t0, roundkey[59]);
    }

    method DecryptRound(ghost input: Block, k: nat, s0: bv32, s1: bv32, s2: bv32, s3: bv32)
      returns (t0: bv32, t1: bv32, t2: bv32, t3: bv32)
      requires Valid() && 0 < k < 56 && k % 4 == 0
      requires StateOf(s0, s1, s2, s3) == InvRounds(input, roundkey[..], k / 4 - 1)
      ensures StateOf(t0, t1, t2, t3) == InvRounds(input, roundkey[..], k / 4)
    {
      hide StateOf, TdWord, InvRounds;
      DecryptionRound(input, roundkey[..], k / 4, s0, s1, s2, s3);
      t0 := TdWord(s0, s3, s2, s1, roundkey[k]);
      t1 := TdWord(s1, s0, s3, s2, roundkey[k + 1]);
      t2 := TdWord(s2, s1, s0, s3, roundkey[k + 2]);
      t3 := TdWord(s3, s2, s1, s0, roundkey[k + 3]);
    }

    method Decrypt(input: array<bv8>, inAt: nat, output: array<bv8>, outAt: nat)
      requires Valid() && inAt + BLOCK <= input.Length && outAt + BLOCK <= output.Length
      modifies output
      ensures BlockAt(output[..], outAt) == EqInvCipher(BlockAt(old(input[..]), inAt), old(roundkey[..]))
      ensures forall k | 0 <= k < outAt || outAt + BLOCK <= k < output.Length :: output[k] == old(output[k])
    {
      var s0, s1, s2, s3 := DecryptWords(
        GetWord(input[..], inAt), GetWord(input[..], inAt + 4),
        GetWord(input[..], inAt + 8), GetWord(input[..], inAt + 12));
      InputState(input[..], inAt);
      PutBlock(output, outAt, s0, s1, s2, s3);
    }
  }

  method PutBlock(output: array<bv8>, at: nat, s0: bv32, s1: bv32, s2: bv32, s3: bv32)
    requires at + BLOCK <= output.Length
    modifies output
    ensures BlockAt(output[..], at) == StateOf(s0, s1, s2, s3)
    ensures forall k | 0 <= k < at || at + BLOCK <= k < output.Length :: output[k] == old(output[k])
  {
    hide ToColumn;
    PutWord(output, at, s0);
    PutWord(output, at + 4, s1);
    PutWord(output, at + 8, s2);
    PutWord(output, at + 12, s3);
  }

  method PutWord(output: array<bv8>, at: nat, w: bv32)
    requires at + 4 <= output.Length
    modifies output
    ensures ColumnAt(output[..], at) == ToColumn(w)
    ensures forall k | 0 <= k < at || at + 4 <= k < output.Length :: output[k] == old(output[k])
  {
    hide ByteOf;
    output[at], output[at + 1], output[at + 2], output[at + 3] :=
      ByteOf(w, 24), ByteOf(w, 16), ByteOf(w, 8), ByteOf(w, 0);
  }

  /** A block decrypted under the schedule of a key comes back from its encryption under the same key. */
  lemma DecryptInvertsEncrypt(key: seq<bv8>, block: Block)
    requires |key| == KEY_SIZE
    ensures EqInvCipher(Cipher(block, Expansion(KeyWords(key))), Inversion(Expansion(KeyWords(key)))) == block
  {
    hide EqInvCipher, Cipher, Expansion;
    DecryptUndoesEncrypt(block, Expansion(KeyWords(key)), Inversion(Expansion(KeyWords(key))));
  }

  lemma InputState(s: seq<bv8>, at: nat)
    requires at + BLOCK <= |s|
    ensures StateOf(GetWord(s, at), GetWord(s, at + 4), GetWord(s, at + 8), GetWord(s, at + 12)) == BlockAt(s, at)
  {
    hide GetWord, ToColumn, ColumnAt;
    GetWordIsColumn(s, at);
    GetWordIsColumn(s, at + 4);
    GetWordIsColumn(s, at + 8);
    GetWordIsColumn(s, at + 12);
  }

  /** The round keys before word i, and as many at the end, have changed places. */
  ghost predicate PartlyReversed(s: seq<bv32>, w: Schedule, i: nat)
    requires i <= 28
  {
    && |s| == 60
    && (forall k | 0 <= k < i :: s[k] == w[Mirror(k)])
    && (forall k | i <= k < 60 - i :: s[k] == w[k])
    && (forall k | 60 - i <= k < 60 :: s[k] == w[Mirror(k)])
  }

  /** `after` is `before` with the four words at i and at j exchanged. */
  ghost predicate Exchanged(before: seq<bv32>, after: seq<bv32>, i: nat, j: nat)
    requires i + 4 <= j && j + 4 <= |before|
  {
    && |after| == |before|
    && after[i] == before[j] && after[i + 1] == before[j + 1]
    && after[i + 2] == before[j + 2] && after[i + 3] == before[j + 3]
    && after[j] == before[i] && after[j + 1] == before[i + 1]
    && after[j + 2] == before[i + 2] && after[j + 3] == before[i + 3]
    && forall k | 0 <= k < i || i + 4 <= k < j || j + 4 <= k < |before| :: after[k] == before[k]
  }

  lemma PartlyReversedStep(before: seq<bv32>, after: seq<bv32>, w: Schedule, i: nat)
    requires i < 28 && i % 4 == 0 && PartlyReversed(before, w, i)
    requires Exchanged(before, after, i, 56 - i)
    ensures PartlyReversed(after, w, i + 4)
  {
    hide Mirror;
    MirrorGroup(i);
    MirrorGroup(56 - i);
  }

  lemma NothingReversed(w: seq<bv32>)
    requires |w| == 60
    ensures PartlyReversed(w, w, 0)
  {
  }

  lemma AllReversed(s: seq<bv32>, w: Schedule)
    requires PartlyReversed(s, w, 28)
    ensures forall k | 0 <= k < 60 :: s[k] == w[Mirror(k)]
  {
    hide Mirror;
    MirrorGroup(28);
  }

  lemma MirrorGroup(i: nat)
    requires i < 60 && i % 4 == 0
    ensures Mirror(i) == 56 - i && Mirror(i + 1) == 57 - i && Mirror(i + 2) == 58 - i && Mirror(i + 3) == 59 - i
  {
  }

  /** The words of the key and their expansion are what section 5.2 of FIPS 197 makes of its bytes. */
  lemma ExpansionOfKey(key: seq<bv8>)
    requires |key| == KEY_SIZE
    ensures IsKeyExpansion(key, Expansion(KeyWords(key)))
  {
    hide KeyWords, ToColumn, Expanded, SubWord, RotWord, Rcon, Xor;
    var words := KeyWords(key);
    var w := Expansion(words);
    FirstWords(words);
    forall i | 0 <= i < 8
      ensures ToColumn(w[i]) == Column(key[4 * i], key[4 * i + 1], key[4 * i + 2], key[4 * i + 3])
    {
      KeyWordBytes(key, i);
    }
    forall i | 8 <= i < 60
      ensures w[i] == Xor(w[i - 8], if i % 8 == 0 then Xor(SubWord(RotWord(w[i - 1])), Rcon(i / 8))
                                    else if i % 8 == 4 then SubWord(w[i - 1])
                                    else w[i - 1])
    {
      LaterWord(words, i);
    }
  }

  lemma KeyWordBytes(key: seq<bv8>, i: nat)
    requires |key| == KEY_SIZE && i < 8
    ensures ToColumn(KeyWords(key)[i]) == Column(key[4 * i], key[4 * i + 1], key[4 * i + 2], key[4 * i + 3])
  {
    hide GetWord, ToColumn;
    assert i in {0, 1, 2, 3, 4, 5, 6, 7};
    GetWordIsColumn(key, 4 * i);
  }

  lemma LaterWord(words: seq<bv32>, i: nat)
    requires |words| == 8 && i >= 8
    ensures Expanded(words, i)
         == Xor(Expanded(words, i - 8), if i % 8 == 0 then Xor(SubWord(RotWord(Expanded(words, i - 1))), Rcon(i / 8))
                                        else if i % 8 == 4 then SubWord(Expanded(words, i - 1))
                                        else Expanded(words, i - 1))
  {
    hide SubWord, RotWord, Rcon, Xor;
  }

  lemma FirstWords(words: seq<bv32>)
    requires |words| == 8
    ensures forall i | 0 <= i < 8 :: Expanded(words, i) == words[i]
  {
  }

  lemma NotFirstOfFour(i: nat)
    ensures i % 8 == 0 || i % 8 == 4 ==> i % 4 == 0
  {
    var q := i / 8;
    if i % 8 == 0 {
      assert i == 4 * (2 * q);
    } else if i % 8 == 4 {
      assert i == 4 * (2 * q + 1);
    }
  }

  lemma PlainStep(words: seq<bv32>, i: nat)
    requires |words| == 8 && i >= 8 && i % 4 != 0
    ensures Expanded(words, i) == Xor(Expanded(words, i - 8), Expanded(words, i - 1))
  {
    hide Xor, SubWord, RotWord, Rcon;
    NotFirstOfFour(i);
  }
}
