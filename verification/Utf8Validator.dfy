/** The table-driven UTF-8 decoder, and the validator that keeps its state between calls. */
module Utf8Validator {
  import opened Utf8Grammar

  const ACCEPT: bv8 := 0
  const REJECT: bv8 := 1

  /** What the decoder keeps: the automaton's state and the code point read so far. */
  datatype Dfa = Dfa(state: bv8, code: bv32)

  // ---------------------------------------------------------------- the table

  /** The first 256 entries: the class of a byte. */
  function ByteClass(b: bv8): (c: bv8)
    ensures c <= 11
  {
    if b < 0x80 then 0 else if b < 0x90 then 1 else if b < 0xa0 then 9 else if b < 0xc0 then 7
    else if b < 0xc2 then 8 else if b < 0xe0 then 2
    else if b < 0xe1 then 10 else if b < 0xed then 3 else if b < 0xee then 4 else if b < 0xf0 then 3
    else if b < 0xf1 then 11 else if b < 0xf4 then 6 else if b < 0xf5 then 5 else 8
  }

  /** The last 144 entries: a row of sixteen classes for each state. */
  function Transition(state: bv8, c: bv8): bv8
    requires state <= 8
  {
    if state == 0 then
      if c == 0 then 0 else if c == 2 then 2 else if c == 3 then 3 else if c == 4 then 5
      else if c == 5 then 8 else if c == 6 then 7 else if c == 10 then 4 else if c == 11 then 6 else 1
    else if state == 2 then if c == 1 || c == 7 || c == 9 then 0 else 1
    else if state == 3 then if c == 1 || c == 7 || c == 9 then 2 else 1
    else if state == 4 then if c == 7 then 2 else 1
    else if state == 5 then if c == 1 || c == 9 then 2 else 1
    else if state == 6 then if c == 7 || c == 9 then 3 else 1
    else if state == 7 then if c == 1 || c == 7 || c == 9 then 3 else 1
    else if state == 8 then if c == 1 then 3 else 1
    else 1
  }

  // ---------------------------------------------------------------- the automaton

  /** Six more bits of a code point. */
  function Continued(code: bv32, b: bv8): bv32 { (b as bv32 & 0x3f) | (code << 6) }

  /** The bits of a first byte that belong to the code point. */
  function Started(c: bv8, b: bv8): bv32
    requires c <= 11
  {
    (0xff >> c) & (b as bv32)
  }

  predicate Valid(d: Dfa) { d.state <= 8 }

  function Step(d: Dfa, b: bv8): (e: Dfa)
    requires Valid(d)
    ensures Valid(e)
  {
    var c := ByteClass(b);
    Dfa(Transition(d.state, c),
        if d.state != ACCEPT then Continued(d.code, b) else Started(c, b))
  }

  function Run(d: Dfa, s: seq<bv8>): (e: Dfa)
    requires Valid(d)
    ensures Valid(e)
    decreases |s|
  {
    if s == [] then d else Run(Step(d, s[0]), s[1..])
  }

  /** The code points that the decoder shows, one each time it comes back to ACCEPT. */
  function Codepoints(d: Dfa, s: seq<bv8>): seq<bv32>
    requires Valid(d)
    decreases |s|
  {
    if s == [] then []
    else
      var e := Step(d, s[0]);
      if e.state == ACCEPT then [e.code] + Codepoints(e, s[1..]) else Codepoints(e, s[1..])
  }

  // ---------------------------------------------------------------- steps on the bytes of one encoding

  lemma OneByteSteps(c: bv32, code: bv32)
    requires c < 0x80
    ensures Step(Dfa(ACCEPT, code), c as bv8) == Dfa(ACCEPT, c)
  {
  }

  /** What a continuation byte adds to a code point that is still missing its last six bits. */
  lemma TailCode(c: bv32)
    requires c <= 0x10ffff
    ensures Continued(c >> 6, Tail(c)) == c
    ensures ByteClass(Tail(c)) == if c & 0x20 != 0 then 7 else if c & 0x10 != 0 then 9 else 1
  {
  }

  lemma LastTail(c: bv32)
    requires c <= 0x10ffff
    ensures Step(Dfa(2, c >> 6), Tail(c)) == Dfa(ACCEPT, c) && Step(Dfa(3, c >> 6), Tail(c)) == Dfa(2, c)
  {
    hide Tail, ByteClass, Continued, Started;
    TailCode(c);
  }

  lemma ShiftTwice(c: bv32)
    requires c <= 0x10ffff
    ensures (c >> 6) >> 6 == c >> 12 && (c >> 12) >> 6 == c >> 18 && c >> 6 <= 0x10ffff && c >> 12 <= 0x10ffff
  {
  }

  lemma TwoByteSteps(c: bv32, code: bv32)
    requires 0x80 <= c < 0x800
    ensures Step(Dfa(ACCEPT, code), (0xc0 | (c >> 6)) as bv8) == Dfa(2, c >> 6)
  {
  }

  /** The state that remembers which second bytes a three-byte form allows. */
  function ThreeByteState(c: bv32): bv8 {
    if c < 0x1000 then 4 else if 0xd000 <= c < 0xe000 then 5 else 3
  }

  lemma ThreeByteLead(c: bv32, code: bv32)
    requires 0x800 <= c < 0x10000
    ensures Step(Dfa(ACCEPT, code), (0xe0 | (c >> 12)) as bv8) == Dfa(ThreeByteState(c), c >> 12)
  {
  }

  lemma ThreeByteSecond(c: bv32)
    requires 0x800 <= c < 0x10000 && IsScalar(c)
    ensures Step(Dfa(ThreeByteState(c), c >> 12), Tail(c >> 6)) == Dfa(2, c >> 6)
  {
    hide Tail, ByteClass, Continued, Started;
    ShiftTwice(c);
    TailCode(c >> 6);
    ThreeByteRange(c);
  }

  lemma ThreeByteRange(c: bv32)
    requires 0x800 <= c < 0x10000 && IsScalar(c)
    ensures ThreeByteState(c) == 4 ==> (c >> 6) & 0x20 != 0
    ensures ThreeByteState(c) == 5 ==> (c >> 6) & 0x20 == 0
  {
  }

  function FourByteState(c: bv32): bv8 {
    if c < 0x40000 then 6 else if c < 0x100000 then 7 else 8
  }

  lemma FourByteLead(c: bv32, code: bv32)
    requires 0x10000 <= c <= 0x10ffff
    ensures Step(Dfa(ACCEPT, code), (0xf0 | (c >> 18)) as bv8) == Dfa(FourByteState(c), c >> 18)
  {
  }

  lemma FourByteSecond(c: bv32)
    requires 0x10000 <= c <= 0x10ffff
    ensures Step(Dfa(FourByteState(c), c >> 18), Tail(c >> 12)) == Dfa(3, c >> 12)
  {
    hide Tail, ByteClass, Continued, Started;
    ShiftTwice(c);
    TailCode(c >> 12);
    FourByteRange(c);
  }

  lemma FourByteRange(c: bv32)
    requires 0x10000 <= c <= 0x10ffff
    ensures FourByteState(c) == 6 ==> (c >> 12) & 0x30 != 0
    ensures FourByteState(c) == 8 ==> (c >> 12) & 0x30 == 0
  {
  }

  // ---------------------------------------------------------------- and back, from the steps to the encoding

  lemma OneByteForm(b0: bv8)
    requires ByteClass(b0) == 0
    ensures IsScalar(b0 as bv32) && Encoding(b0 as bv32) == [b0]
  {
  }

  predicate Continues(b: bv8) {
    var c := ByteClass(b);
    c == 1 || c == 7 || c == 9
  }

  /** The first two bytes of a three-byte form: no overlong form and no surrogate. */
  predicate OpensThree(b0: bv8, b1: bv8) {
    var c, d := ByteClass(b0), ByteClass(b1);
    (c == 3 && Continues(b1)) || (c == 10 && d == 7) || (c == 4 && (d == 1 || d == 9))
  }

  /** The first two bytes of a four-byte form: no overlong form and nothing past U+10FFFF. */
  predicate OpensFour(b0: bv8, b1: bv8) {
    var c, d := ByteClass(b0), ByteClass(b1);
    (c == 6 && Continues(b1)) || (c == 11 && (d == 7 || d == 9)) || (c == 5 && d == 1)
  }

  function Two(b0: bv8, b1: bv8): bv32 { ((b0 as bv32 & 0x1f) << 6) | (b1 as bv32 & 0x3f) }

  lemma TwoByteForm(b0: bv8, b1: bv8)
    requires ByteClass(b0) == 2 && Continues(b1)
    ensures 0x80 <= Two(b0, b1) < 0x800
    ensures (0xc0 | (Two(b0, b1) >> 6)) as bv8 == b0 && Tail(Two(b0, b1)) == b1
  {
  }

  function Three(b0: bv8, b1: bv8, b2: bv8): bv32 {
    ((b0 as bv32 & 0xf) << 12) | ((b1 as bv32 & 0x3f) << 6) | (b2 as bv32 & 0x3f)
  }

  lemma ThreeByteForm(b0: bv8, b1: bv8, b2: bv8)
    requires OpensThree(b0, b1) && Continues(b2)
    ensures 0x800 <= Three(b0, b1, b2) < 0x10000 && IsScalar(Three(b0, b1, b2))
    ensures (0xe0 | (Three(b0, b1, b2) >> 12)) as bv8 == b0
    ensures Tail(Three(b0, b1, b2) >> 6) == b1 && Tail(Three(b0, b1, b2)) == b2
  {
  }

  function Four(b0: bv8, b1: bv8, b2: bv8, b3: bv8): bv32 {
    ((b0 as bv32 & 0x7) << 18) | ((b1 as bv32 & 0x3f) << 12) | ((b2 as bv32 & 0x3f) << 6) | (b3 as bv32 & 0x3f)
  }

  lemma FourByteForm(b0: bv8, b1: bv8, b2: bv8, b3: bv8)
    requires OpensFour(b0, b1) && Continues(b2) && Continues(b3)
    ensures 0x10000 <= Four(b0, b1, b2, b3) && IsScalar(Four(b0, b1, b2, b3))
    ensures (0xf0 | (Four(b0, b1, b2, b3) >> 18)) as bv8 == b0 && Tail(Four(b0, b1, b2, b3) >> 12) == b1
    ensures Tail(Four(b0, b1, b2, b3) >> 6) == b2 && Tail(Four(b0, b1, b2, b3)) == b3
  {
  }

  // ---------------------------------------------------------------- whole runs

  lemma {:induction false} RunAppends(d: Dfa, s: seq<bv8>, t: seq<bv8>)
    requires Valid(d)
    ensures Run(d, s + t) == Run(Run(d, s), t)
    ensures Codepoints(d, s + t) == Codepoints(d, s) + Codepoints(Run(d, s), t)
    decreases |s|
  {
    hide Step;
    if s == [] {
      assert s + t == t;
    } else {
      assert (s + t)[1..] == s[1..] + t;
      RunAppends(Step(d, s[0]), s[1..], t);
    }
  }

  /** Rejection is final. */
  lemma {:induction false} RejectAbsorbs(d: Dfa, s: seq<bv8>)
    requires d.state == REJECT
    ensures Run(d, s).state == REJECT && Codepoints(d, s) == []
    decreases |s|
  {
    hide ByteClass, Continued, Started;
    if s != [] {
      RejectAbsorbs(Step(d, s[0]), s[1..]);
    }
  }

  /** The state after a run depends on the state before it alone. */
  lemma {:induction false} StateDecides(d: Dfa, e: Dfa, s: seq<bv8>)
    requires Valid(d) && d.state == e.state
    ensures Run(d, s).state == Run(e, s).state
    decreases |s|
  {
    hide ByteClass, Transition, Continued, Started;
    if s != [] {
      StateDecides(Step(d, s[0]), Step(e, s[0]), s[1..]);
    }
  }

  /** The validator that was at d is at e after a chunk. It stops at a rejection; the code point is then arbitrary. */
  ghost predicate Decoded(d: Dfa, s: seq<bv8>, e: Dfa)
    requires Valid(d)
  {
    Valid(e) && e.state == Run(d, s).state && (e.state != REJECT ==> e.code == Run(d, s).code)
  }

  /** Reading s and then t, from where the first call stopped, gives the state class and code point of one reading. */
  lemma ChunksAgree(d: Dfa, s: seq<bv8>, middle: Dfa, t: seq<bv8>)
    requires Valid(d) && Decoded(d, s, middle)
    ensures Decoded(d, s + t, Run(middle, t))
  {
    hide Run;
    RunAppends(d, s, t);
    StateDecides(middle, Run(d, s), t);
    if middle.state == REJECT {
      RejectAbsorbs(middle, t);
    }
  }

  function Joined(chunks: seq<seq<bv8>>): seq<bv8> {
    if chunks == [] then [] else chunks[0] + Joined(chunks[1..])
  }

  /** The states between successive chunks. */
  ghost predicate Passes(states: seq<Dfa>, chunks: seq<seq<bv8>>)
  {
    && |states| == |chunks| + 1
    && (forall k :: 0 <= k < |states| ==> Valid(states[k]))
    && forall k :: 0 <= k < |chunks| ==> Decoded(states[k], chunks[k], states[k + 1])
  }

  lemma DecodedThen(d: Dfa, s: seq<bv8>, middle: Dfa, t: seq<bv8>, e: Dfa)
    requires Valid(d) && Decoded(d, s, middle) && Decoded(middle, t, e)
    ensures Decoded(d, s + t, e)
  {
    hide Run;
    ChunksAgree(d, s, middle, t);
  }

  /** However a string is split, decoding its chunks one after another ends where decoding it whole does. */
  lemma {:induction false} AnyChunksAgree(states: seq<Dfa>, chunks: seq<seq<bv8>>)
    requires Passes(states, chunks)
    ensures Decoded(states[0], Joined(chunks), states[|chunks|])
    decreases |chunks|
  {
    hide Run, Decoded, Joined;
    var whole := Joined(chunks);
    if chunks == [] {
      RunNothing(states[0]);
      NothingDecoded(states[0]);
    } else {
      assert Decoded(states[0], chunks[0], states[1]);
      AnyChunksAgree(states[1..], chunks[1..]);
      DecodedThen(states[0], chunks[0], states[1], Joined(chunks[1..]), states[|chunks|]);
      JoinedFirst(chunks);
    }
  }

  lemma NothingDecoded(d: Dfa)
    requires Valid(d)
    ensures Joined([]) == [] && Decoded(d, [], d)
  {
  }

  lemma JoinedFirst(chunks: seq<seq<bv8>>)
    requires chunks != []
    ensures Joined(chunks) == chunks[0] + Joined(chunks[1..])
  {
  }

  lemma RunOne(d: Dfa, b: bv8, e: Dfa)
    requires Valid(d) && Step(d, b) == e
    ensures Run(d, [b]) == e && Codepoints(d, [b]) == if e.state == ACCEPT then [e.code] else []
  {
    hide Step;
    assert Run(e, []) == e;
  }

  lemma RunTwo(d: Dfa, b0: bv8, e: Dfa, b1: bv8, f: Dfa)
    requires Valid(d) && Step(d, b0) == e && Step(e, b1) == f && e.state != ACCEPT
    ensures Run(d, [b0, b1]) == f && Codepoints(d, [b0, b1]) == Codepoints(e, [b1])
  {
    hide Step;
    RunOne(e, b1, f);
    assert [b0, b1][1..] == [b1];
  }

  /** The automaton reads an encoding without a stop in between, and ends in ACCEPT with the scalar value. */
  lemma RunEncoding(c: bv32, code: bv32)
    requires IsScalar(c)
    ensures Run(Dfa(ACCEPT, code), Encoding(c)) == Dfa(ACCEPT, c)
    ensures Codepoints(Dfa(ACCEPT, code), Encoding(c)) == [c]
  {
    hide Step, Tail, Codepoints, Run;
    var d := Dfa(ACCEPT, code);
    ShiftTwice(c);
    LastTail(c);
    if c < 0x80 {
      OneByteSteps(c, code);
      RunOne(d, c as bv8, Dfa(ACCEPT, c));
    } else if c < 0x800 {
      TwoByteSteps(c, code);
      RunTwo(d, (0xc0 | (c >> 6)) as bv8, Dfa(2, c >> 6), Tail(c), Dfa(ACCEPT, c));
      RunOne(Dfa(2, c >> 6), Tail(c), Dfa(ACCEPT, c));
    } else if c < 0x10000 {
      RunThree(c, code);
    } else {
      RunFour(c, code);
    }
  }

  lemma RunThree(c: bv32, code: bv32)
    requires 0x800 <= c < 0x10000 && IsScalar(c)
    ensures Run(Dfa(ACCEPT, code), Encoding(c)) == Dfa(ACCEPT, c)
    ensures Codepoints(Dfa(ACCEPT, code), Encoding(c)) == [c]
  {
    hide Step, Tail, Codepoints, Run;
    var d, e := Dfa(ACCEPT, code), Dfa(ThreeByteState(c), c >> 12);
    var b0, b1, b2 := (0xe0 | (c >> 12)) as bv8, Tail(c >> 6), Tail(c);
    LastTail(c);
    ThreeByteLead(c, code);
    ThreeByteSecond(c);
    RunTwo(d, b0, e, b1, Dfa(2, c >> 6));
    RunOne(e, b1, Dfa(2, c >> 6));
    RunOne(Dfa(2, c >> 6), b2, Dfa(ACCEPT, c));
    RunAppends(d, [b0, b1], [b2]);
    assert Encoding(c) == [b0, b1] + [b2];
  }

  lemma RunFour(c: bv32, code: bv32)
    requires 0x10000 <= c && IsScalar(c)
    ensures Run(Dfa(ACCEPT, code), Encoding(c)) == Dfa(ACCEPT, c)
    ensures Codepoints(Dfa(ACCEPT, code), Encoding(c)) == [c]
  {
    hide Step, Tail, Codepoints, Run;
    var d, e := Dfa(ACCEPT, code), Dfa(FourByteState(c), c >> 18);
    var b0, b1, b2, b3 := (0xf0 | (c >> 18)) as bv8, Tail(c >> 12), Tail(c >> 6), Tail(c);
    ShiftTwice(c);
    LastTail(c);
    LastTail(c >> 6);
    FourByteLead(c, code);
    FourByteSecond(c);
    RunTwo(d, b0, e, b1, Dfa(3, c >> 12));
    RunOne(e, b1, Dfa(3, c >> 12));
    RunTwo(Dfa(3, c >> 12), b2, Dfa(2, c >> 6), b3, Dfa(ACCEPT, c));
    RunOne(Dfa(2, c >> 6), b3, Dfa(ACCEPT, c));
    RunAppends(d, [b0, b1], [b2, b3]);
    assert Encoding(c) == [b0, b1] + [b2, b3];
  }

  /** Every concatenation of encodings is accepted, and the code points shown are the values encoded. */
  lemma {:induction false} RunEncodings(cs: seq<bv32>, code: bv32)
    requires AllScalars(cs)
    ensures Run(Dfa(ACCEPT, code), EncodeAll(cs)).state == ACCEPT
    ensures Codepoints(Dfa(ACCEPT, code), EncodeAll(cs)) == cs
    decreases |cs|
  {
    hide Run, Codepoints, Encoding;
    if cs == [] {
      RunNothing(Dfa(ACCEPT, code));
    } else {
      RunEncodings(cs[1..], cs[0]);
      RunEncoding(cs[0], code);
      RunAppends(Dfa(ACCEPT, code), Encoding(cs[0]), EncodeAll(cs[1..]));
    }
  }

  lemma RunNothing(d: Dfa)
    requires Valid(d)
    ensures Run(d, []) == d && Codepoints(d, []) == []
  {
  }

  // ---------------------------------------------------------------- what is accepted is encoded

  /** The states from which a run that ends in ACCEPT must still read that many continuation bytes. */
  lemma LastByte(d: Dfa, s: seq<bv8>)
    requires Valid(d) && Run(d, s).state == ACCEPT && d.state == 2
    ensures |s| >= 1 && Continues(s[0])
  {
    hide ByteClass, Continued, Started;
    if s != [] && !Continues(s[0]) {
      RejectAbsorbs(Step(d, s[0]), s[1..]);
    }
  }

  lemma LastTwoBytes(d: Dfa, s: seq<bv8>)
    requires Valid(d) && Run(d, s).state == ACCEPT && d.state == 3
    ensures |s| >= 2 && Continues(s[0]) && Continues(s[1])
  {
    hide ByteClass, Continued, Started;
    if s != [] {
      if Continues(s[0]) {
        LastByte(Step(d, s[0]), s[1..]);
      } else {
        RejectAbsorbs(Step(d, s[0]), s[1..]);
      }
    }
  }

  /** The length of the form that the first byte opens. */
  function FormLength(b0: bv8): (n: nat)
    ensures n <= 4
  {
    var c := ByteClass(b0);
    if c == 0 then 1 else if c == 2 then 2 else if c == 3 || c == 4 || c == 10 then 3
    else if c == 5 || c == 6 || c == 11 then 4 else 0
  }

  lemma FirstForm(d: Dfa, s: seq<bv8>)
    requires d.state == ACCEPT && s != [] && Run(d, s).state == ACCEPT
    ensures 1 <= FormLength(s[0]) <= |s|
    ensures FormLength(s[0]) == 2 ==> Continues(s[1])
    ensures FormLength(s[0]) == 3 ==> OpensThree(s[0], s[1]) && Continues(s[2])
    ensures FormLength(s[0]) == 4 ==> OpensFour(s[0], s[1]) && Continues(s[2]) && Continues(s[3])
  {
    hide ByteClass, Continued, Started;
    var e := Step(d, s[0]);
    if e.state == REJECT {
      RejectAbsorbs(e, s[1..]);
    } else if e.state == 2 {
      LastByte(e, s[1..]);
    } else if e.state != ACCEPT && |s| > 1 {
      var f := Step(e, s[1]);
      if f.state == REJECT {
        RejectAbsorbs(f, s[1..][1..]);
      } else if f.state == 2 {
        LastByte(f, s[1..][1..]);
      } else {
        LastTwoBytes(f, s[1..][1..]);
      }
    }
  }

  /** The scalar value whose encoding an accepted string starts with. */
  function FirstScalar(s: seq<bv8>): bv32
    requires s != [] && 1 <= FormLength(s[0]) <= |s|
  {
    if FormLength(s[0]) == 1 then s[0] as bv32
    else if FormLength(s[0]) == 2 then Two(s[0], s[1])
    else if FormLength(s[0]) == 3 then Three(s[0], s[1], s[2])
    else Four(s[0], s[1], s[2], s[3])
  }

  lemma OneEncodes(b0: bv8)
    requires FormLength(b0) == 1
    ensures IsScalar(b0 as bv32) && Encoding(b0 as bv32) == [b0]
  {
    hide Encoding, IsScalar;
    OneByteForm(b0);
  }

  lemma TwoEncodes(b0: bv8, b1: bv8)
    requires FormLength(b0) == 2 && Continues(b1)
    ensures IsScalar(Two(b0, b1)) && Encoding(Two(b0, b1)) == [b0, b1]
  {
    hide ByteClass, Two, Tail, Continues;
    TwoByteForm(b0, b1);
  }

  lemma ThreeEncodes(b0: bv8, b1: bv8, b2: bv8)
    requires FormLength(b0) == 3 && OpensThree(b0, b1) && Continues(b2)
    ensures IsScalar(Three(b0, b1, b2)) && Encoding(Three(b0, b1, b2)) == [b0, b1, b2]
  {
    hide ByteClass, Three, Tail, Continues, OpensThree, FormLength;
    ThreeByteForm(b0, b1, b2);
  }

  lemma FourEncodes(b0: bv8, b1: bv8, b2: bv8, b3: bv8)
    requires FormLength(b0) == 4 && OpensFour(b0, b1) && Continues(b2) && Continues(b3)
    ensures IsScalar(Four(b0, b1, b2, b3)) && Encoding(Four(b0, b1, b2, b3)) == [b0, b1, b2, b3]
  {
    hide ByteClass, Four, Tail, Continues, OpensFour, FormLength;
    FourByteForm(b0, b1, b2, b3);
  }

  lemma FirstScalarEncodes(d: Dfa, s: seq<bv8>)
    requires d.state == ACCEPT && s != [] && Run(d, s).state == ACCEPT
    ensures 1 <= FormLength(s[0]) <= |s| && IsScalar(FirstScalar(s))
    ensures Encoding(FirstScalar(s)) == s[..FormLength(s[0])]
  {
    hide FormLength, Run, Two, Three, Four, Encoding, IsScalar, Continues, OpensThree, OpensFour;
    FirstForm(d, s);
    var n := FormLength(s[0]);
    if n == 1 {
      OneEncodes(s[0]);
    } else if n == 2 {
      TwoEncodes(s[0], s[1]);
      assert s[..2] == [s[0], s[1]];
    } else if n == 3 {
      ThreeEncodes(s[0], s[1], s[2]);
      assert s[..3] == [s[0], s[1], s[2]];
    } else {
      FourEncodes(s[0], s[1], s[2], s[3]);
      assert s[..4] == [s[0], s[1], s[2], s[3]];
    }
  }

  /** The code points shown on an accepted string are scalar values, and the string is their encoding. */
  lemma {:induction false} AcceptedIsEncoded(d: Dfa, s: seq<bv8>)
    requires d.state == ACCEPT && Run(d, s).state == ACCEPT
    ensures AllScalars(Codepoints(d, s)) && EncodeAll(Codepoints(d, s)) == s
    decreases |s|
  {
    hide Encoding, FormLength, FirstScalar, Run, Codepoints;
    if s == [] {
      RunNothing(d);
    } else {
      FirstScalarEncodes(d, s);
      var n, c := FormLength(s[0]), FirstScalar(s);
      assert s == Encoding(c) + s[n..];
      RunEncoding(c, d.code);
      RunAppends(d, Encoding(c), s[n..]);
      AcceptedIsEncoded(Dfa(ACCEPT, c), s[n..]);
      EncodeFirst(c, Codepoints(Dfa(ACCEPT, c), s[n..]));
    }
  }

  lemma EncodeFirst(c: bv32, cs: seq<bv32>)
    requires IsScalar(c) && AllScalars(cs)
    ensures AllScalars([c] + cs) && EncodeAll([c] + cs) == Encoding(c) + EncodeAll(cs)
  {
    hide Encoding;
    assert ([c] + cs)[1..] == cs;
  }

  /** The automaton accepts exactly the concatenations of encodings of scalar values. */
  lemma AcceptsExactlyUtf8(code: bv32, s: seq<bv8>)
    ensures Run(Dfa(ACCEPT, code), s).state == ACCEPT <==> IsUtf8(s)
  {
    hide Run, Codepoints, EncodeAll;
    var d := Dfa(ACCEPT, code);
    if Run(d, s).state == ACCEPT {
      AcceptedIsEncoded(d, s);
    }
    if IsUtf8(s) {
      var cs :| AllScalars(cs) && s == EncodeAll(cs);
      RunEncodings(cs, code);
    }
  }

  /** A string read in any chunks ends on acceptance exactly when it is UTF-8. */
  lemma ChunksAcceptExactlyUtf8(states: seq<Dfa>, chunks: seq<seq<bv8>>)
    requires Passes(states, chunks) && states[0].state == ACCEPT
    ensures states[|chunks|].state == ACCEPT <==> IsUtf8(Joined(chunks))
  {
    hide Run, Joined, IsUtf8;
    AnyChunksAgree(states, chunks);
    AcceptsExactlyUtf8(states[0].code, Joined(chunks));
  }

  // ---------------------------------------------------------------- the validator

  class Validator {
    var state: bv8
    var codepoint: bv32

    ghost predicate Ok()
      reads this
    {
      Valid(Dfa(state, codepoint))
    }

    constructor ()
      ensures Ok() && state == ACCEPT && codepoint == 0
    {
      state, codepoint := ACCEPT, 0;
    }

    /** Advances by one byte; false on rejection. */
    method Consume(byte: bv8) returns (ok: bool)
      requires Ok()
      modifies this
      ensures Ok() && Dfa(state, codepoint) == Step(Dfa(old(state), old(codepoint)), byte)
      ensures ok == (state != REJECT)
    {
      var next := Step(Dfa(state, codepoint), byte);
      state, codepoint := next.state, next.code;
      ok := state != REJECT;
    }

    /** Advances by a chunk, stopping at the first rejection; later chunks continue where this one ended. */
    method Decode(bytes: seq<bv8>) returns (ok: bool)
      requires Ok()
      modifies this
      ensures Ok() && Decoded(Dfa(old(state), old(codepoint)), bytes, Dfa(state, codepoint))
      ensures ok == (bytes == [] || state != REJECT)
    {
      hide Step;
      ghost var start := Dfa(state, codepoint);
      RunNothing(start);
      for i := 0 to |bytes|
        invariant Ok() && Dfa(state, codepoint) == Run(start, bytes[..i])
        invariant i > 0 ==> state != REJECT
      {
        ghost var before := Dfa(state, codepoint);
        var good := Consume(bytes[i]);
        RunOne(before, bytes[i], Dfa(state, codepoint));
        RunAppends(start, bytes[..i], [bytes[i]]);
        assert bytes[..i] + [bytes[i]] == bytes[..i + 1];
        if !good {
          RunAppends(start, bytes[..i + 1], bytes[i + 1..]);
          assert bytes[..i + 1] + bytes[i + 1..] == bytes;
          RejectAbsorbs(Dfa(state, codepoint), bytes[i + 1..]);
          return false;
        }
      }
      assert bytes[..|bytes|] == bytes;
      ok := true;
    }

    method Complete() returns (ok: bool)
      ensures ok == (state == ACCEPT)
    {
      ok := state == ACCEPT;
    }

    method Reset()
      modifies this
      ensures Ok() && state == ACCEPT && codepoint == 0
    {
      state, codepoint := ACCEPT, 0;
    }
  }

  /** Whether a whole string is UTF-8. */
  method Validate(s: seq<bv8>) returns (ok: bool)
    ensures ok <==> IsUtf8(s)
  {
    hide Run, IsUtf8;
    var v := new Validator();
    RunNothing(Dfa(ACCEPT, 0));
    AcceptsExactlyUtf8(0, s);
    var good := v.Decode(s);
    if !good {
      return false;
    }
    ok := v.Complete();
  }
}
