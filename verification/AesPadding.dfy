/** The padding of section 6.3 of RFC 5652, as encryptAES applies it and decryptAES checks it. */
module AesPadding {
  import opened Options

  const BLOCK: nat := 16

  function PaddedLength(n: nat): nat { (n / BLOCK + 1) * BLOCK }

  function PadByte(n: nat): bv8
    requires 0 < n <= BLOCK
  {
    n as bv8
  }

  function Repeat(b: bv8, n: nat): (s: seq<bv8>)
    ensures |s| == n
  {
    seq(n, i => b)
  }

  /** The data, and as many bytes as are missing from a whole block, each holding their number; never none. */
  function Padded(data: seq<bv8>): (s: seq<bv8>)
    ensures |s| == PaddedLength(|data|) && |s| % BLOCK == 0 && |s| > 0
  {
    var n := PaddedLength(|data|) - |data|;
    data + Repeat(PadByte(n), n)
  }

  /** What decryptAES takes off a decrypted buffer; None stands for its empty result on a bad padding. */
  function Stripped(s: seq<bv8>): Option<seq<bv8>> {
    if s == [] then None
    else
      var last := s[|s| - 1];
      var n := last as nat;
      if n == 0 || n > BLOCK || |s| < n then None
      else if s[|s| - n..] == Repeat(last, n) then Some(s[..|s| - n])
      else None
  }

  lemma PadByteIsNumber(n: nat)
    requires 0 < n <= BLOCK
    ensures PadByte(n) as nat == n
  {
    if n <= 8 { SmallPadByte(n); } else { LargePadByte(n); }
  }

  lemma SmallPadByte(n: nat)
    requires 0 < n <= 8
    ensures PadByte(n) as nat == n
  {
    if n == 1 { } else if n == 2 { } else if n == 3 { } else if n == 4 { }
    else if n == 5 { } else if n == 6 { } else if n == 7 { } else { }
  }

  lemma LargePadByte(n: nat)
    requires 8 < n <= 16
    ensures PadByte(n) as nat == n
  {
    if n == 9 { } else if n == 10 { } else if n == 11 { } else if n == 12 { }
    else if n == 13 { } else if n == 14 { } else if n == 15 { } else { }
  }

  lemma NumberIsPadByte(b: bv8)
    requires 0 < b as nat <= BLOCK
    ensures PadByte(b as nat) == b
  {
  }

  lemma StrippedPadded(data: seq<bv8>)
    ensures Stripped(Padded(data)) == Some(data)
  {
    hide PadByte;
    var s := Padded(data);
    var n := |s| - |data|;
    PadByteIsNumber(n);
    assert s[|s| - n..] == Repeat(PadByte(n), n);
  }

  lemma PaddedLengthIs(n: nat, m: nat)
    requires m % BLOCK == 0 && n < m <= n + BLOCK
    ensures PaddedLength(n) == m
  {
  }

  /** Stripping accepts exactly the whole blocks that padding can produce, and returns what was padded. */
  lemma StripsExactlyPaddings(s: seq<bv8>, data: seq<bv8>)
    requires |s| % BLOCK == 0
    ensures Stripped(s) == Some(data) <==> s == Padded(data)
  {
    hide PadByte, Stripped, Padded;
    if s == Padded(data) {
      StrippedPadded(data);
    }
    if Stripped(s) == Some(data) {
      OnlyPaddingsStrip(s, data);
    }
  }

  lemma OnlyPaddingsStrip(s: seq<bv8>, data: seq<bv8>)
    requires |s| % BLOCK == 0 && Stripped(s) == Some(data)
    ensures s == Padded(data)
  {
    hide PadByte;
    var last := s[|s| - 1];
    var n := last as nat;
    NumberIsPadByte(last);
    PaddedLengthIs(|data|, |s|);
    assert s == s[..|s| - n] + s[|s| - n..];
  }

  /** The padding by its numbers: from 1 to 16 bytes up to the next multiple of 16, each holding their number. */
  lemma PaddingBytes(data: seq<bv8>)
    ensures var s, n := Padded(data), 16 - |data| % 16;
            && |s| == |data| + n && s[..|data|] == data
            && forall k | |data| <= k < |s| :: s[k] as nat == n
  {
    hide PadByte;
    var n := 16 - |data| % 16;
    assert PaddedLength(|data|) == |data| + n;
    PadByteIsNumber(n);
  }
}
