/** The forms whose relocation is exact only sometimes, and when it is. */
module Arm64Limits {
  import opened Arm64Bits
  import opened Arm64Classify
  import opened Arm64Encode
  import opened Arm64Machine
  import opened Arm64Trampoline
  import opened Arm64Targets
  import opened Arm64Blocks
  import opened Arm64Simulation
  import opened Arm64Steps
  import opened Arm64Relocation
  import opened Arm64Window
  import opened Arm64Layout

  // ---------------------------------------------------------------- literal loads

  /** The eight bytes that the block of a literal load puts into its general register. */
  function LoadedInstead(orig: Memory, tr: Trampoline, i: nat, mem: Memory): U64
    requires i < |tr.insts|
  {
    var inst := tr.insts[i];
    if Lifted(tr.insts, inst) then Read64(orig, tr.insts[inst.relate.index].pc) else Read64(mem, inst.relatePc)
  }

  /** Whatever its width, sign or register file, a literal load becomes a 64-bit load of a general register. */
  lemma LiteralBlock(env: Env, orig: Memory, tr: Trampoline, i: nat, t: State)
    requires Placed(tr) && TrampolineCode(t.core.mem, orig, tr) && i < |tr.insts|
    requires IsLiteralLoad(tr.insts[i].kind) && t.pc == tr.insts[i].newPc
    ensures Reaches(env, t,
                    State(t.pc + 8, SetReg(t.core, tr.insts[i].code % 0x20, LoadedInstead(orig, tr, i, t.core.mem))))
  {
    hide TrampolineCode, Placed, LdrLiteralX, LdrRtRn, Step, Read64, SetReg, RelatedAddress;
    var inst := tr.insts[i];
    BlockAt(t.core.mem, orig, tr, i);
    if Lifted(tr.insts, inst) {
      RunNearLiteral(env, t, inst.code % 0x20, inst.dataAddr);
    } else {
      RunFarLiteral(env, t, inst.code % 0x20, inst.dataAddr, inst.relatePc);
    }
  }

  function LowWord(x: U64): U32 { x % 0x1_0000_0000 }

  function HighWord(x: U64): U32 { x / 0x1_0000_0000 }

  /** What the original literal load puts into its register. */
  function OriginalLoad(s: State): U64 {
    match Decode(Fetch(s))
    case LoadLiteral(_, offset) => Read64(s.core.mem, Wrap64(s.pc + offset))
    case LoadWord(_, offset, signed) => Widened(signed, Read32(s.core.mem, Wrap64(s.pc + offset)))
    case _ => 0
  }

  lemma StepLoads(env: Env, s: State)
    requires Decode(Fetch(s)).LoadLiteral? || Decode(Fetch(s)).LoadWord?
    ensures Step(env, s) == State(Wrap64(s.pc + 4), SetReg(s.core, Fetch(s) % 0x20, OriginalLoad(s)))
  {
    hide Decode, SetReg, Read64, Read32, Widened, Fetch;
    LiteralDecodes(Fetch(s));
  }

  lemma SameRegister(c: Core, r: Reg, x: U64, y: U64)
    ensures SetReg(c, r, x) == SetReg(c, r, y) <==> r == 31 || x == y
  {
    if r != 31 {
      assert c.regs[r := x][r] == x && c.regs[r := y][r] == y;
    }
  }

  lemma SameCore(c: Core, r: Reg, x: U64)
    ensures SetReg(c, r, x) == c <==> r == 31 || c.regs[r] == x
  {
    if r != 31 {
      assert c.regs[r := x][r] == x;
      if c.regs[r] == x {
        assert c.regs[r := x] == c.regs;
      }
    }
  }

  lemma AlikeAfterLoad(tr: Trampoline, v: View, a: Core, b: Core, r: Reg, x: U64, y: U64)
    requires Alike(tr, v, a, b)
    ensures Alike(tr, Overwrite(v, RegLoc(r)), SetReg(a, r, x), SetReg(b, r, y)) <==> r == 31 || x == y
  {
    hide Similar, Tracks, Overwrite;
    SameRegister(b, r, x, y);
    AlikeSetReg(tr, v, a, b, r, x);
    if Alike(tr, Overwrite(v, RegLoc(r)), SetReg(a, r, x), SetReg(b, r, y)) {
      OverwriteShows(v, RegLoc(r));
      SimilarReg(Overwrite(v, RegLoc(r)).hidden, SetReg(a, r, x), SetReg(b, r, y), r);
    }
  }

  lemma OverwriteShows(v: View, written: set<int>)
    ensures Overwrite(v, written).hidden !! written
  {
  }

  /** Every literal load of a general register, with any offset: the block does what the original instruction does if
      and only if the eight bytes it loads are what the original puts into the register. */
  lemma LiteralExact(env: Env, orig: Memory, tr: Trampoline, i: nat, v: View, s: State, t: State) returns (t': State)
    requires AtBlock(orig, tr, i, v, s, t) && tr.insts[i].kind in {LdrLiteral, LdrswLiteral}
    ensures Reaches(env, t, t') && Step(env, s).pc == tr.func + 4 * (i + 1) && t'.pc == Cursor(tr, i + 1)
    ensures var rt := tr.insts[i].code % 0x20;
            Alike(tr, Overwrite(v, RegLoc(rt)), Step(env, s).core, t'.core)
            <==> rt == 31 || LoadedInstead(orig, tr, i, t.core.mem) == OriginalLoad(s)
  {
    hide Alike, TrampolineCode, Placed, SetReg, LoadedInstead, OriginalLoad, Step, Decode, Classify, Overwrite, Fetch;
    var inst := tr.insts[i];
    var x, rt := LoadedInstead(orig, tr, i, t.core.mem), inst.code % 0x20;
    FetchOriginal(orig, tr, i, v, s, t);
    NextPc(tr, i);
    LiteralDecodes(inst.code);
    LdrLiteralForms(inst.code);
    StepLoads(env, s);
    LiteralBlock(env, orig, tr, i, t);
    t' := State(t.pc + 8, SetReg(t.core, rt, x));
    AlikeAfterLoad(tr, v, s.core, t.core, rt, OriginalLoad(s), x);
  }

  lemma LdrLiteralForms(w: U32)
    ensures Classify(w) == LdrLiteral ==> w / 0x100_0000 in {0x18, 0x58}
  {
  }

  /** With a non-negative offset, and a literal that both machines see, the low half of what the block loads is the word
      that the original widens. */
  lemma LowHalfLoaded(orig: Memory, tr: Trampoline, i: nat, v: View, s: State, t: State)
    requires AtBlock(orig, tr, i, v, s, t) && tr.insts[i].kind in {LdrLiteral, LdrswLiteral}
    requires Decode(tr.insts[i].code).LoadWord? && LiteralOffset(tr.insts[i].code) >= 0
    requires tr.insts[i].relate.InWindow? || tr.insts[i].relatePc !in v.hidden
    ensures OriginalLoad(s)
         == Widened(Decode(tr.insts[i].code).signed, LowWord(LoadedInstead(orig, tr, i, t.core.mem)))
  {
    hide Alike, TrampolineCode, Placed, Decode, Classify, RelatedAddress, LiteralOffset, Widened, Read32, Fetch,
      LowWord;
    var inst := tr.insts[i];
    FetchOriginal(orig, tr, i, v, s, t);
    LiteralDecodes(inst.code);
    LiteralAddress(inst.code, s.pc);
    PlacedInst(tr, i);
    if inst.relate.InWindow? {
      LiteralAligned(tr, i);
      WindowWord(orig, tr, s.core, inst.relatePc);
      LowHalf(orig, inst.relatePc);
    } else {
      SameWordVisible(tr, v, s.core, t.core, inst.relatePc);
      LowHalf(t.core.mem, inst.relatePc);
    }
  }

  lemma WindowWord(orig: Memory, tr: Trampoline, c: Core, x: int)
    requires WindowIntact(orig, tr, c) && InWindowWords(tr, x)
    ensures Read32(c.mem, x) == Read32(orig, x)
  {
  }

  lemma SameWordVisible(tr: Trampoline, v: View, a: Core, b: Core, x: U64)
    requires Alike(tr, v, a, b) && x !in v.hidden
    ensures Read32(a.mem, x) == Read32(b.mem, x)
  {
  }

  lemma LowHalf(mem: Memory, a: int)
    ensures LowWord(Read64(mem, a)) == Read32(mem, a)
  {
    hide Read32;
  }

  lemma WidenedIs(signed: bool, x: U64)
    ensures x == Widened(signed, LowWord(x))
       <==> HighWord(x) == if signed && LowWord(x) >= 0x8000_0000 then 0xffff_ffff else 0
  {
    hide LowWord, HighWord;
    HalvesOf(x);
  }

  /** `ldr Wt, =literal` with a non-negative offset: the block does what the original instruction does if and only if
      the word behind the literal is 0. */
  lemma WordLiteralExact(env: Env, orig: Memory, tr: Trampoline, i: nat, v: View, s: State, t: State)
    returns (t': State)
    requires AtBlock(orig, tr, i, v, s, t)
    requires tr.insts[i].kind == LdrLiteral && tr.insts[i].code / 0x100_0000 == 0x18
    requires LiteralOffset(tr.insts[i].code) >= 0
    requires tr.insts[i].relate.InWindow? || tr.insts[i].relatePc !in v.hidden
    ensures Reaches(env, t, t') && Step(env, s).pc == tr.func + 4 * (i + 1) && t'.pc == Cursor(tr, i + 1)
    ensures var rt := tr.insts[i].code % 0x20;
            Alike(tr, Overwrite(v, RegLoc(rt)), Step(env, s).core, t'.core)
            <==> rt == 31 || HighWord(LoadedInstead(orig, tr, i, t.core.mem)) == 0
  {
    hide Alike, Related, Placed, LoadedInstead, OriginalLoad, Step, Decode, Classify, Overwrite, HighWord, LowWord,
      LiteralOffset, Widened;
    FetchOriginal(orig, tr, i, v, s, t);
    LiteralDecodes(tr.insts[i].code);
    t' := LiteralExact(env, orig, tr, i, v, s, t);
    LowHalfLoaded(orig, tr, i, v, s, t);
    WidenedIs(false, LoadedInstead(orig, tr, i, t.core.mem));
  }

  /** `ldrsw Xt, =literal` with a non-negative offset: if and only if the word behind the literal consists of copies of
      its sign. */
  lemma SignedLiteralExact(env: Env, orig: Memory, tr: Trampoline, i: nat, v: View, s: State, t: State)
    returns (t': State)
    requires AtBlock(orig, tr, i, v, s, t)
    requires tr.insts[i].kind == LdrswLiteral && LiteralOffset(tr.insts[i].code) >= 0
    requires tr.insts[i].relate.InWindow? || tr.insts[i].relatePc !in v.hidden
    ensures Reaches(env, t, t') && Step(env, s).pc == tr.func + 4 * (i + 1) && t'.pc == Cursor(tr, i + 1)
    ensures var rt, x := tr.insts[i].code % 0x20, LoadedInstead(orig, tr, i, t.core.mem);
            Alike(tr, Overwrite(v, RegLoc(rt)), Step(env, s).core, t'.core)
            <==> rt == 31 || HighWord(x) == if LowWord(x) < 0x8000_0000 then 0 else 0xffff_ffff
  {
    hide Alike, Related, Placed, LoadedInstead, OriginalLoad, Step, Decode, Classify, Overwrite, HighWord, LowWord,
      LiteralOffset, Widened;
    FetchOriginal(orig, tr, i, v, s, t);
    LiteralDecodes(tr.insts[i].code);
    t' := LiteralExact(env, orig, tr, i, v, s, t);
    LowHalfLoaded(orig, tr, i, v, s, t);
    WidenedIs(true, LoadedInstead(orig, tr, i, t.core.mem));
  }

  lemma HalvesOf(x: U64)
    ensures x == LowWord(x) + 0x1_0000_0000 * HighWord(x)
  {
  }

  /** `ldr St/Dt/Qt, =literal`: the vector register is never loaded; the general register of the same number, which the
      original leaves alone, is overwritten, and keeps its value if and only if it held the literal already. */
  lemma VectorLiteralExact(env: Env, orig: Memory, tr: Trampoline, i: nat, t: State) returns (t': State)
    requires Placed(tr) && TrampolineCode(t.core.mem, orig, tr) && i < |tr.insts|
    requires tr.insts[i].kind == LdrFpLiteral && t.pc == tr.insts[i].newPc
    ensures Reaches(env, t, t') && t'.pc == BlockEnd(tr.insts[i])
    ensures var x, rt := LoadedInstead(orig, tr, i, t.core.mem), tr.insts[i].code % 0x20;
            t'.core == t.core <==> rt == 31 || t.core.regs[rt] == x
  {
    hide TrampolineCode, Placed, SetReg, LoadedInstead;
    LiteralBlock(env, orig, tr, i, t);
    var x, rt := LoadedInstead(orig, tr, i, t.core.mem), tr.insts[i].code % 0x20;
    t' := State(t.pc + 8, SetReg(t.core, rt, x));
    SameCore(t.core, rt, x);
  }

  // ---------------------------------------------------------------- addresses

  /** adr and adrp: the block leaves the address that the original computes if and only if that address was not lifted,
      or its block happens to lie there. */
  lemma AddressExact(env: Env, orig: Memory, tr: Trampoline, i: nat, t: State)
    requires Placed(tr) && TrampolineCode(t.core.mem, orig, tr) && i < |tr.insts|
    requires tr.insts[i].kind in {Adr, Adrp} && t.pc == tr.insts[i].newPc
    ensures Step(env, t).pc == BlockEnd(tr.insts[i])
    ensures var inst := tr.insts[i];
            var rd := inst.code % 0x20;
            Step(env, t).core == SetReg(t.core, rd, inst.relatePc)
            <==> rd == 31 || !InWindowWords(tr, inst.relatePc) || Destination(tr.insts, inst) == inst.relatePc
  {
    hide TrampolineCode, Placed, LdrLiteralX, Step, Read64, SetReg, RelatedAddress;
    var inst := tr.insts[i];
    BlockAt(t.core.mem, orig, tr, i);
    RunLdrLiteral(env, t, inst.code % 0x20, inst.dataAddr);
    SameRegister(t.core, inst.code % 0x20, Destination(tr.insts, inst), inst.relatePc);
  }

  /** The manager keeps its trampolines in pages of their own, so there it is exact if and only if the address was not
      lifted. */
  lemma AddressIntoWindow(mmap: seq<U64>, env: Env, orig: Memory, tr: Trampoline, i: nat, t: State)
    requires Placed(tr) && TrampolineCode(t.core.mem, orig, tr) && i < |tr.insts|
    requires tr.insts[i].kind in {Adr, Adrp} && t.pc == tr.insts[i].newPc
    requires OutsideWindow(mmap, tr.func) && forall x :: Owns(tr, x) ==> !OutsidePages(mmap, x)
    ensures var inst := tr.insts[i];
            var rd := inst.code % 0x20;
            Step(env, t).core == SetReg(t.core, rd, inst.relatePc) <==> rd == 31 || !InWindowWords(tr, inst.relatePc)
  {
    hide TrampolineCode, Placed, Step, SetReg, OutsidePages, Owns, RelatedAddress, BlockCode;
    BlockAt(t.core.mem, orig, tr, i);
    AddressExact(env, orig, tr, i, t);
    PlacedBasics(tr);
    var inst := tr.insts[i];
    if Lifted(tr.insts, inst) {
      BlockOwned(tr, inst.relate.index);
    }
  }

  lemma BlockOwned(tr: Trampoline, i: nat)
    requires Placed(tr) && i < |tr.insts|
    ensures Owns(tr, tr.insts[i].newPc)
  {
    hide Placed;
    assert tr.insts[i].newPc in InstWords(tr.insts[i]);
  }
}
