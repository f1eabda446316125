/** The text encryption of the native library: pad, encrypt block by block, and write in Base64; and its inverse. */
module EncryptedText {
  import opened AesSpec
  import opened AesAlgebra
  import opened AesWords
  import opened AesContext
  import opened AesPadding
  import opened Base64

  // ---------------------------------------------------------------- block by block

  /** Byte k of the buffer whose 16-byte blocks are those of s, enciphered one by one. */
  ghost predicate Enciphered(s: seq<bv8>, t: seq<bv8>, w: Schedule, blocks: nat) {
    && |s| == |t| && BLOCK * blocks <= |s|
    && forall b: nat | b < blocks :: BlockAt(t, BLOCK * b) == Cipher(BlockAt(s, BLOCK * b), w)
  }

  ghost predicate Deciphered(s: seq<bv8>, t: seq<bv8>, w: Schedule, blocks: nat) {
    && |s| == |t| && BLOCK * blocks <= |s|
    && forall b: nat | b < blocks :: BlockAt(t, BLOCK * b) == EqInvCipher(BlockAt(s, BLOCK * b), w)
  }

  /** Electronic code book mode: every block on its own. */
  function EcbEncrypt(s: seq<bv8>, w: Schedule): (t: seq<bv8>)
    requires |s| % BLOCK == 0
    ensures |t| == |s|
  {
    if s == [] then [] else EcbEncrypt(s[..|s| - BLOCK], w) + BlockBytes(Cipher(BlockAt(s, |s| - BLOCK), w))
  }

  function EcbDecrypt(s: seq<bv8>, w: Schedule): (t: seq<bv8>)
    requires |s| % BLOCK == 0
    ensures |t| == |s|
  {
    if s == [] then [] else EcbDecrypt(s[..|s| - BLOCK], w) + BlockBytes(EqInvCipher(BlockAt(s, |s| - BLOCK), w))
  }

  lemma BytesOfBlock(s: seq<bv8>, at: nat)
    requires at + BLOCK <= |s|
    ensures BlockBytes(BlockAt(s, at)) == s[at..at + BLOCK]
  {
  }

  lemma BlockOfJoin(s: seq<bv8>, b: Block)
    ensures BlockAt(s + BlockBytes(b), |s|) == b
  {
    var t := s + BlockBytes(b);
    assert forall k | 0 <= k < BLOCK :: t[|s| + k] == BlockBytes(b)[k];
  }

  /** Decrypting block by block, under the inverted schedule, undoes encrypting block by block. */
  lemma {:induction false} EcbRoundTrip(s: seq<bv8>, w: Schedule, inv: Schedule)
    requires |s| % BLOCK == 0 && Inverted(w, inv)
    ensures EcbDecrypt(EcbEncrypt(s, w), inv) == s
  {
    hide Cipher, EqInvCipher, BlockAt, BlockBytes, Inverted, EcbEncrypt, EcbDecrypt;
    if s == [] {
      EcbOfNothing(w);
      EcbOfNothing(inv);
    } else {
      var at := |s| - BLOCK;
      var head, b := s[..at], BlockAt(s, at);
      EcbRoundTrip(head, w, inv);
      EncryptLast(s, w);
      DecryptLast(EcbEncrypt(head, w), Cipher(b, w), inv);
      DecryptUndoesEncrypt(b, w, inv);
      BytesOfBlock(s, at);
    }
  }

  lemma EcbOfNothing(w: Schedule)
    ensures EcbEncrypt([], w) == [] && EcbDecrypt([], w) == []
  {
  }

  lemma EncryptLast(s: seq<bv8>, w: Schedule)
    requires |s| % BLOCK == 0 && s != []
    ensures var at := |s| - BLOCK;
            EcbEncrypt(s, w) == EcbEncrypt(s[..at], w) + BlockBytes(Cipher(BlockAt(s, at), w))
  {
    hide Cipher, BlockAt, BlockBytes;
  }

  lemma DecryptLast(s: seq<bv8>, b: Block, w: Schedule)
    requires |s| % BLOCK == 0
    ensures EcbDecrypt(s + BlockBytes(b), w) == EcbDecrypt(s, w) + BlockBytes(EqInvCipher(b, w))
  {
    hide EqInvCipher, BlockAt, BlockBytes;
    BlockOfJoin(s, b);
    assert (s + BlockBytes(b))[..|s|] == s;
  }

  /** The block-by-block loops compute the ECB functions. */
  lemma {:induction false} EncipheredIsEcb(s: seq<bv8>, t: seq<bv8>, w: Schedule, blocks: nat)
    requires Enciphered(s, t, w, blocks)
    ensures t[..BLOCK * blocks] == EcbEncrypt(s[..BLOCK * blocks], w)
  {
    hide Cipher, BlockAt, BlockBytes;
    if blocks > 0 {
      var at := BLOCK * (blocks - 1);
      EncipheredIsEcb(s, t, w, blocks - 1);
      var u := s[..at + BLOCK];
      assert u[..at] == s[..at];
      SameBlock(s, u, at);
      BytesOfBlock(t, at);
      assert t[..at + BLOCK] == t[..at] + t[at..at + BLOCK];
    }
  }

  lemma {:induction false} DecipheredIsEcb(s: seq<bv8>, t: seq<bv8>, w: Schedule, blocks: nat)
    requires Deciphered(s, t, w, blocks)
    ensures t[..BLOCK * blocks] == EcbDecrypt(s[..BLOCK * blocks], w)
  {
    hide EqInvCipher, BlockAt, BlockBytes;
    if blocks > 0 {
      var at := BLOCK * (blocks - 1);
      DecipheredIsEcb(s, t, w, blocks - 1);
      var u := s[..at + BLOCK];
      assert u[..at] == s[..at];
      SameBlock(s, u, at);
      BytesOfBlock(t, at);
      assert t[..at + BLOCK] == t[..at] + t[at..at + BLOCK];
    }
  }

  lemma SameBlock(s: seq<bv8>, t: seq<bv8>, at: nat)
    requires at + BLOCK <= |s| && at + BLOCK <= |t|
    requires forall k | at <= k < at + BLOCK :: s[k] == t[k]
    ensures BlockAt(s, at) == BlockAt(t, at)
  {
  }

  // ---------------------------------------------------------------- what the two calls compute

  function Ciphertext(key: seq<bv8>, data: seq<bv8>): seq<bv8>
    requires |key| == KEY_SIZE
  {
    Encoded(EcbEncrypt(Padded(data), Expansion(KeyWords(key))))
  }

  /** The decoding buffer, from zeros, after a text that decodes to nothing. */
  function Leftover(text: seq<bv8>): (s: seq<bv8>)
    ensures |s| == DecodeOutSize(|text|)
  {
    seq(DecodeOutSize(|text|), k requires 0 <= k => LeftoverByte(text, k))
  }

  function LeftoverByte(text: seq<bv8>, k: nat): bv8 {
    var i := Progress(text);
    if k < ByteCount(i) then ByteAt(text, k)
    else if k == ByteCount(i) && i % 4 != 0 then Pending(text, i)
    else 0
  }

  /** A text that decodes to nothing, refused or not, yields the whole buffer. */
  ghost function DecodedText(text: seq<bv8>): seq<bv8> {
    if Decoded(text) == [] && text != [] then Leftover(text) else Decoded(text)
  }

  /** The empty string stands for every failure. */
  ghost function Plaintext(key: seq<bv8>, text: seq<bv8>): seq<bv8>
    requires |key| == KEY_SIZE
  {
    var cipher := DecodedText(text);
    if |cipher| % BLOCK != 0 then []
    else
      match Stripped(EcbDecrypt(cipher, Inversion(Expansion(KeyWords(key)))))
      case Some(data) => data
      case None => []
  }

  /** Under one key, decrypting what encrypting returned gives back the data, whatever its length and content. */
  lemma PlaintextOfCiphertext(key: seq<bv8>, data: seq<bv8>)
    requires |key| == KEY_SIZE
    ensures Plaintext(key, Ciphertext(key, data)) == data
  {
    hide Expansion, Inversion, KeyWords, Decoded, Encoded, Padded, Stripped, EcbEncrypt, EcbDecrypt, Inverted;
    var w := Expansion(KeyWords(key));
    var cipher := EcbEncrypt(Padded(data), w);
    DecodedEncoded(cipher);
    EcbRoundTrip(Padded(data), w, Inversion(w));
    StrippedPadded(data);
  }

  // ---------------------------------------------------------------- the calls

  method Base64Encode(data: seq<bv8>) returns (text: seq<bv8>)
    requires EncodeOutSize(|data|) < WORD_SIZE
    ensures text == Encoded(data)
  {
    hide Encoded;
    var encodedSize := EncodeOutSize(|data|);
    var encodedBuffer := new bv8[encodedSize](_ => 0);
    var j := Encode(data, encodedBuffer);
    text := encodedBuffer[..encodedSize - 1];
  }

  /** The buffer before encryption: the data, then the padding. */
  method Pad(data: seq<bv8>) returns (dataBuffer: array<bv8>)
    ensures fresh(dataBuffer) && dataBuffer[..] == Padded(data)
  {
    hide PadByte;
    var paddedLength := PaddedLength(|data|);
    dataBuffer := new bv8[paddedLength](_ => 0);
    forall k | 0 <= k < |data| {
      dataBuffer[k] := data[k];
    }
    var paddingValue := paddedLength - |data|;
    forall k | |data| <= k < paddedLength {
      dataBuffer[k] := PadByte(paddingValue);
    }
  }

  method EncryptAES(key: seq<bv8>, data: seq<bv8>) returns (text: seq<bv8>)
    requires |key| == KEY_SIZE && EncodeOutSize(PaddedLength(|data|)) < WORD_SIZE
    ensures text == Ciphertext(key, data)
  {
    hide Expansion, KeyWords, Encoded, Padded, PaddedLength, EncodeOutSize, EcbEncrypt;
    var dataBuffer := Pad(data);
    var ctx := new Context();
    var encryptedBuffer := EncryptBlocks(ctx, key, dataBuffer);
    ctx.Free();
    text := Base64Encode(encryptedBuffer[..]);
  }

  method EncryptBlocks(ctx: Context, key: seq<bv8>, input: array<bv8>) returns (output: array<bv8>)
    requires ctx.Valid() && |key| == KEY_SIZE && input.Length % BLOCK == 0
    modifies ctx.roundkey
    ensures fresh(output) && output[..] == EcbEncrypt(input[..], Expansion(KeyWords(key)))
  {
    hide Expansion, KeyWords, Cipher, BlockAt, EcbEncrypt;
    ghost var w := Expansion(KeyWords(key));
    ghost var was := input[..];
    output := new bv8[input.Length](_ => 0);
    ctx.EncryptInit(key);
    var i := 0;
    while i < input.Length
      invariant 0 <= i <= input.Length && i % BLOCK == 0
      invariant input[..] == was && ctx.roundkey[..] == w
      invariant Enciphered(was, output[..], w, i / BLOCK)
      modifies output
    {
      ghost var before := output[..];
      ctx.Encrypt(input, i, output, i);
      EncipheredStep(was, before, output[..], w, i / BLOCK);
      i := i + BLOCK;
    }
    EncipheredIsEcb(was, output[..], w, i / BLOCK);
    assert was[..i] == was && output[..][..i] == output[..];
  }

  lemma EncipheredStep(s: seq<bv8>, before: seq<bv8>, after: seq<bv8>, w: Schedule, blocks: nat)
    requires Enciphered(s, before, w, blocks) && |after| == |before| && BLOCK * (blocks + 1) <= |s|
    requires forall k | 0 <= k < BLOCK * blocks :: after[k] == before[k]
    requires BlockAt(after, BLOCK * blocks) == Cipher(BlockAt(s, BLOCK * blocks), w)
    ensures Enciphered(s, after, w, blocks + 1)
  {
    hide Cipher, BlockAt;
    forall b: nat | b < blocks ensures BlockAt(after, BLOCK * b) == BlockAt(before, BLOCK * b) {
      SameBlock(after, before, BLOCK * b);
    }
  }

  method Base64Decode(text: seq<bv8>) returns (bytes: seq<bv8>)
    requires |text| < WORD_SIZE
    ensures bytes == DecodedText(text)
  {
    hide Decoded, Filled, Touched;
    var maxDecodedSize := DecodeOutSize(|text|);
    var decoded := new bv8[maxDecodedSize](_ => 0);
    var actualSize := Decode(text, decoded);
    LeftoverIs(text, decoded[..]);
    if actualSize == 0 && text != [] {
      return decoded[..];
    }
    bytes := decoded[..actualSize];
  }

  lemma LeftoverIs(text: seq<bv8>, out: seq<bv8>)
    requires |out| == DecodeOutSize(|text|) && Filled(out, text, Progress(text))
    requires forall k | Touched(Progress(text)) <= k < |out| :: out[k] == 0
    ensures out == Leftover(text)
  {
    hide ByteAt, Pending, Progress;
  }

  method DecryptAES(key: seq<bv8>, text: seq<bv8>) returns (data: seq<bv8>)
    requires |key| == KEY_SIZE && |text| < WORD_SIZE
    ensures data == Plaintext(key, text)
  {
    hide Expansion, Inversion, KeyWords, DecodedText, Stripped, EcbDecrypt;
    var bytes := Base64Decode(text);
    if |bytes| % BLOCK != 0 {
      return [];
    }
    var encryptedBuffer := new bv8[|bytes|](k requires 0 <= k < |bytes| => bytes[k]);
    assert encryptedBuffer[..] == bytes;
    var ctx := new Context();
    var decryptedBuffer := DecryptBlocks(ctx, key, encryptedBuffer);
    ctx.Free();
    data := Strip(decryptedBuffer);
  }

  method DecryptBlocks(ctx: Context, key: seq<bv8>, input: array<bv8>) returns (output: array<bv8>)
    requires ctx.Valid() && |key| == KEY_SIZE && input.Length % BLOCK == 0
    modifies ctx.roundkey
    ensures fresh(output) && output[..] == EcbDecrypt(input[..], Inversion(Expansion(KeyWords(key))))
  {
    hide Expansion, Inversion, KeyWords, EqInvCipher, BlockAt, EcbDecrypt;
    ghost var w := Inversion(Expansion(KeyWords(key)));
    ghost var was := input[..];
    ctx.DecryptInit(key);
    output := new bv8[input.Length](_ => 0);
    var i := 0;
    while i < input.Length
      invariant 0 <= i <= input.Length && i % BLOCK == 0
      invariant input[..] == was && ctx.roundkey[..] == w
      invariant Deciphered(was, output[..], w, i / BLOCK)
      modifies output
    {
      ghost var before := output[..];
      ctx.Decrypt(input, i, output, i);
      DecipheredStep(was, before, output[..], w, i / BLOCK);
      i := i + BLOCK;
    }
    DecipheredIsEcb(was, output[..], w, i / BLOCK);
    assert was[..i] == was && output[..][..i] == output[..];
  }

  lemma DecipheredStep(s: seq<bv8>, before: seq<bv8>, after: seq<bv8>, w: Schedule, blocks: nat)
    requires Deciphered(s, before, w, blocks) && |after| == |before| && BLOCK * (blocks + 1) <= |s|
    requires forall k | 0 <= k < BLOCK * blocks :: after[k] == before[k]
    requires BlockAt(after, BLOCK * blocks) == EqInvCipher(BlockAt(s, BLOCK * blocks), w)
    ensures Deciphered(s, after, w, blocks + 1)
  {
    hide EqInvCipher, BlockAt;
    forall b: nat | b < blocks ensures BlockAt(after, BLOCK * b) == BlockAt(before, BLOCK * b) {
      SameBlock(after, before, BLOCK * b);
    }
  }

  /** Checks the padding and takes it off. */
  method Strip(buffer: array<bv8>) returns (data: seq<bv8>)
    ensures data == match Stripped(buffer[..]) case Some(d) => d case None => []
  {
    hide Repeat;
    if buffer.Length == 0 {
      return [];
    }
    var last := buffer[buffer.Length - 1];
    var paddingValue := last as nat;
    if paddingValue == 0 || paddingValue > BLOCK {
      return [];
    }
    if buffer.Length < paddingValue {
      return [];
    }
    var filled := FilledWith(buffer, buffer.Length - paddingValue, last);
    if !filled {
      return [];
    }
    data := buffer[..buffer.Length - paddingValue];
  }

  method FilledWith(buffer: array<bv8>, start: nat, b: bv8) returns (filled: bool)
    requires start <= buffer.Length
    ensures filled == (buffer[start..] == Repeat(b, buffer.Length - start))
  {
    for i := start to buffer.Length
      invariant forall k | start <= k < i :: buffer[k] == b
    {
      if buffer[i] != b {
        assert buffer[start..][i - start] != b;
        return false;
      }
    }
    return true;
  }
}
