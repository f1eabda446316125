/** Every instruction of the window, and every run through it, simulated by the trampoline. */
module Arm64Window {
  import opened Arm64Bits
  import opened Arm64Classify
  import opened Arm64Encode
  import opened Arm64Machine
  import opened Arm64Trampoline
  import opened Arm64EncodeProofs
  import opened Arm64Targets
  import opened Arm64Blocks
  import opened Arm64Simulation
  import opened Arm64Steps
  import opened Arm64Relocation

  /** Original machine about to execute lifted instruction i, trampoline about to execute block i. */
  ghost predicate AtBlock(orig: Memory, tr: Trampoline, i: nat, v: View, s: State, t: State)
  {
    && Placed(tr) && CodeOf(orig, tr) && i < |tr.insts|
    && s.pc == tr.func + 4 * i && t.pc == tr.insts[i].newPc
    && Related(orig, tr, v, s, t)
  }

  /** The step neither reads anything hidden nor touches code, and is one the relocator handles exactly. */
  ghost predicate SafeStep(env: Env, tr: Trampoline, i: nat, v: View, s: State)
    requires Placed(tr) && i < |tr.insts|
  {
    && Supported(tr, i)
    && StepReads(env, tr, i, s.core) !! v.hidden
    && (forall x :: x in StepWrites(env, tr, i, s.core) ==> !Private(tr, x))
    && StackApart(tr, Step(env, s).core.sp)
    && (tr.insts[i].kind == NotPcRelated && !Decode(tr.insts[i].code).Plain? ==> !InWindowWords(tr, Step(env, s).pc))
  }

  /** What a rewritten branch clobbers. */
  function JumpHides(kind: Kind): set<int> { if kind == NotPcRelated then {} else {X17} }

  /** The view after a branch away from instruction i: a call leaves the two return addresses in the link registers. */
  function Jumped(tr: Trampoline, i: nat, v: View): View
    requires i < |tr.insts|
  {
    var gone := Clobber(v, JumpHides(tr.insts[i].kind));
    if IsCall(tr, i) then Linked(gone, i + 1) else gone
  }

  function Passed(env: Env, tr: Trampoline, i: nat, v: View, c: Core): View
    requires i < |tr.insts|
  {
    Moved(v, StepWrites(env, tr, i, c), StepMoves(env, tr, i, c))
  }

  /** The outcome of simulating one instruction, before the glue that follows it. */
  ghost predicate BlockDone(env: Env, orig: Memory, tr: Trampoline, i: nat, v: View, s: State, t': State)
    requires Placed(tr) && i < |tr.insts|
  {
    var s' := Step(env, s);
    && TrampolineCode(t'.core.mem, orig, tr)
    && WindowIntact(orig, tr, s'.core)
    && if FallsThrough(env, tr, i, s.core) then
         && s'.pc == tr.func + 4 * (i + 1) && t'.pc == Cursor(tr, i + 1)
         && Alike(tr, Passed(env, tr, i, v, s.core), s'.core, t'.core)
       else
         && Corresponds(tr, s'.pc, t'.pc)
         && Alike(tr, Jumped(tr, i, v), s'.core, t'.core)
  }

  // ---------------------------------------------------------------- facts about block i

  lemma BlockAt(m: Memory, orig: Memory, tr: Trampoline, i: nat)
    requires Placed(tr) && TrampolineCode(m, orig, tr) && i < |tr.insts|
    ensures BlockCode(m, orig, tr.insts, tr.insts[i]) && InstPlaced(tr, i)
  {
    hide BlockCode, GlueCode, JumpCode, InstPlaced, GluePlaced;
  }

  lemma FetchOriginal(orig: Memory, tr: Trampoline, i: nat, v: View, s: State, t: State)
    requires AtBlock(orig, tr, i, v, s, t)
    ensures Fetch(s) == tr.insts[i].code
    ensures tr.insts[i].kind == NotPcRelated || tr.insts[i].kind == Classify(tr.insts[i].code)
  {
    hide Alike, TrampolineCode, Classify, InstPlaced, GluePlaced, LoadedAsData;
    assert InWindowWords(tr, s.pc);
    assert Parsed(orig, tr.func, tr.insts, i);
  }

  lemma AlikeSimilar(tr: Trampoline, v: View, a: Core, b: Core)
    requires Alike(tr, v, a, b)
    ensures Similar(v.hidden, a, b)
  {
  }

  lemma NextPc(tr: Trampoline, i: nat)
    requires Placed(tr) && i < |tr.insts|
    ensures Wrap64(tr.func + 4 * i + 4) == tr.func + 4 * (i + 1)
  {
    hide InstPlaced, GluePlaced;
  }

  /** The relocated destination of a branch corresponds to its original target. */
  lemma DestinationCorresponds(tr: Trampoline, i: nat)
    requires 0 < tr.func && tr.func % 4 == 0 && i < |tr.insts| && tr.insts[i].relatePc % 4 == 0 && InstPlaced(tr, i)
    ensures Corresponds(tr, tr.insts[i].relatePc, Destination(tr.insts, tr.insts[i]))
  {
    hide RelatedAddress, Near, BlockLength;
    WholeWords(tr.func, tr.insts[i].relatePc);
  }

  // ---------------------------------------------------------------- instructions copied verbatim

  lemma {:induction false} SimulatePlain(env: Env, orig: Memory, tr: Trampoline, i: nat, v: View, s: State, t: State)
    requires Framed(env) && AtBlock(orig, tr, i, v, s, t) && SafeStep(env, tr, i, v, s)
    requires tr.insts[i].kind == NotPcRelated && Decode(tr.insts[i].code).Plain?
    ensures Reaches(env, t, Step(env, t)) && BlockDone(env, orig, tr, i, v, s, Step(env, t))
  {
    hide Alike, Framed, TrampolineCode, Placed, Decode, StackApart, ExecPlain, PlainWrites, PlainReads, Owns;
    var w := tr.insts[i].code;
    BlockAt(t.core.mem, orig, tr, i);
    FetchOriginal(orig, tr, i, v, s, t);
    NextPc(tr, i);
    ReachesStep(env, t);
    AlikePlain(env, tr, w, v, s.core, t.core);
    forall x | InWindowWords(tr, x)
      ensures Read32(Step(env, s).core.mem, x) == Read32(orig, x)
    {
      assert Private(tr, x);
      WindowAddress(tr, x);
      KeepsWord(env, w, s.core, x);
    }
    forall x | Owns(tr, x)
      ensures Read32(Step(env, t).core.mem, x) == Read32(t.core.mem, x)
    {
      assert Private(tr, x);
      OwnedAddress(tr, x);
      KeepsWord(env, w, t.core, x);
    }
    TrampolineStable(t.core.mem, Step(env, t).core.mem, orig, tr);
  }

  lemma KeepsWord(env: Env, w: U32, c: Core, x: int)
    requires Framed(env) && x >= 0 && x !in PlainWrites(env, w, c)
    ensures Read32(ExecPlain(env, w, c).mem, x) == Read32(c.mem, x)
  {
    hide Framed, PlainWrites, ExecPlain;
    PlainKeeps(env, w, c, x);
  }

  lemma WindowAddress(tr: Trampoline, x: int)
    requires Placed(tr) && InWindowWords(tr, x)
    ensures x >= 0
  {
  }

  lemma BlockAddress(inst: Instruction, x: int)
    requires x in InstWords(inst)
    ensures x >= 0
  {
  }

  lemma GlueAddress(from: U64, glue: Glue, to: int, x: int)
    requires x in GlueWords(from, glue, to)
    ensures x >= 0
  {
    hide CanUseAdrp;
  }

  lemma OwnedAddress(tr: Trampoline, x: int)
    requires Placed(tr) && Owns(tr, x)
    ensures x >= 0
  {
    hide InstPlaced, GluePlaced, CanUseAdrp, InstWords, GlueWords, Placed;
    PlacedBasics(tr);
    if i :| 0 <= i < |tr.insts| && x in InstWords(tr.insts[i]) {
      BlockAddress(tr.insts[i], x);
    } else if i :| 0 <= i <= |tr.insts| && InGlue(tr, i, x) {
      CursorPlaced(tr, i);
      GlueAddress(Cursor(tr, i), tr.glue[i], Landing(tr, i), x);
    }
  }

  /** An indirect branch through a register other than x17's hidden value goes to the same place on both sides. */
  lemma SimulateRegisterBranch(env: Env, orig: Memory, tr: Trampoline, i: nat, v: View, s: State, t: State)
    requires AtBlock(orig, tr, i, v, s, t) && SafeStep(env, tr, i, v, s)
    requires tr.insts[i].kind == NotPcRelated && !Decode(tr.insts[i].code).Plain?
    ensures Reaches(env, t, Step(env, t)) && BlockDone(env, orig, tr, i, v, s, Step(env, t))
  {
    hide Similar, Tracks, TrampolineCode, Placed, Decode, StackApart, Owns, Private;
    var w := tr.insts[i].code;
    BlockAt(t.core.mem, orig, tr, i);
    FetchOriginal(orig, tr, i, v, s, t);
    NextPc(tr, i);
    ReachesStep(env, t);
    ClobberNothing(v);
    match Decode(w)
    case BranchReg(rn) =>
      SimilarReg(v.hidden, s.core, t.core, rn);
    case BranchRegLink(rn) =>
      SimilarReg(v.hidden, s.core, t.core, rn);
      AlikeLink(tr, v, s.core, t.core, i + 1, Wrap64(s.pc + 4), Wrap64(t.pc + 4));
  }

  // ---------------------------------------------------------------- branches

  lemma StepBranch(env: Env, s: State, w: U32)
    requires Fetch(s) == w && IsBranch(Classify(w))
    ensures Step(env, s) == State(RelatedAddress(Classify(w), w, s.pc),
                                  Link(s.core, Classify(w) == BranchLink, Wrap64(s.pc + 4)))
  {
    hide RelatedAddress;
    BranchAddress(w, s.pc);
  }

  lemma BranchAligned(w: U32, pc: U64)
    requires IsBranch(Classify(w)) && pc % 4 == 0
    ensures RelatedAddress(Classify(w), w, pc) % 4 == 0
  {
    hide RelatedAddress, Classify, Decode;
    BranchAddress(w, pc);
    OffsetAligned(w);
    WrapAligned(pc, Decode(w).offset / 4);
  }

  lemma OffsetAligned(w: U32)
    ensures Decode(w).Branch? || Decode(w).BranchAndLink? || Decode(w).CondBranch? ==> Decode(w).offset % 4 == 0
  {
    hide Classify, Imm19, AdrImm;
    DivUnique(4 * Signed(w % 0x400_0000, 0x200_0000), 4, Signed(w % 0x400_0000, 0x200_0000), 0);
    DivUnique(4 * Signed(Imm19(w), 0x4_0000), 4, Signed(Imm19(w), 0x4_0000), 0);
  }

  /** b and bl become an absolute jump through x17. */
  lemma SimulateBranch(env: Env, orig: Memory, tr: Trampoline, i: nat, v: View, s: State, t: State)
    returns (t': State)
    requires AtBlock(orig, tr, i, v, s, t) && IsBranch(tr.insts[i].kind)
    ensures Reaches(env, t, t') && BlockDone(env, orig, tr, i, v, s, t')
  {
    hide Alike, TrampolineCode, Placed, Decode, Classify, RelatedAddress, LdrLiteralX, BranchRegister, Step, Read64;
    var inst := tr.insts[i];
    BlockAt(t.core.mem, orig, tr, i);
    FetchOriginal(orig, tr, i, v, s, t);
    NextPc(tr, i);
    StepBranch(env, s, inst.code);
    PlacedBasics(tr);
    BranchAligned(inst.code, s.pc);
    DestinationCorresponds(tr, i);
    RunLiteralJump(env, t, inst.dataAddr, inst.kind == BranchLink);
    var to := Read64(t.core.mem, inst.dataAddr);
    t' := State(to, Link(SetReg(t.core, 17, to), inst.kind == BranchLink, t.pc + 8));
    AlikeClobber(tr, v, s.core, t.core, to);
    if inst.kind == BranchLink {
      AlikeLink(tr, Clobber(v, {X17}), s.core, SetReg(t.core, 17, to), i + 1, Wrap64(s.pc + 4), t.pc + 8);
    }
  }

  lemma PlacedBasics(tr: Trampoline)
    requires Placed(tr)
    ensures 0 < tr.func && tr.func % 4 == 0 && 0 < |tr.insts| <= 6 && tr.func + 24 < 0x1_0000_0000_0000_0000
    ensures |tr.glue| == |tr.insts| + 1
  {
  }

  // ---------------------------------------------------------------- conditional branches

  lemma StepCond(env: Env, s: State, w: U32)
    requires Fetch(s) == w && IsCondBranch(Classify(w))
    ensures Step(env, s).core == s.core
    ensures Step(env, s).pc == if Taken(env, w, s.core) then RelatedAddress(Classify(w), w, s.pc) else Wrap64(s.pc + 4)
  {
    hide RelatedAddress, Taken;
    CondBranchAddress(w, s.pc);
  }

  lemma CondAligned(w: U32, pc: U64)
    requires IsCondBranch(Classify(w)) && pc % 4 == 0
    ensures RelatedAddress(Classify(w), w, pc) % 4 == 0
  {
    hide RelatedAddress, Classify, Decode;
    CondBranchAddress(w, pc);
    OffsetAligned(w);
    WrapAligned(pc, Decode(w).offset / 4);
  }

  lemma SimilarTaken(env: Env, hidden: set<int>, w: U32, a: Core, b: Core)
    requires IsCondBranch(Classify(w)) && Similar(hidden, a, b)
    requires Classify(w) == BranchCond || RegLoc(w % 0x20) !! hidden
    ensures Taken(env, w, a) == Taken(env, w, b)
  {
    hide Similar, RegLoc, GetReg;
    SameSp(hidden, a, b);
    if Classify(w) != BranchCond {
      SimilarReg(hidden, a, b, w % 0x20);
    }
  }

  /** The first word of a rewritten conditional branch skips over the second exactly when the original is taken. */
  lemma RunCondHead(env: Env, t: State, w: U32)
    requires IsCondBranch(Classify(w)) && Fetch(t) == WithImm19Of2(w) && t.pc + 16 < 0x1_0000_0000_0000_0000
    ensures Step(env, t) == State(if Taken(env, w, t.core) then t.pc + 8 else t.pc + 4, t.core)
  {
    hide Decode, Taken, WithImm19Of2, Classify, Wrap64;
    DecodeWithImm19Of2(w);
    TakenWithImm19Of2(env, w, t.core);
    WrapSame(t.pc + 8);
    WrapSame(t.pc + 4);
  }

  lemma RunSkip(env: Env, t: State)
    requires t.pc + 12 < 0x1_0000_0000_0000_0000 && Fetch(t) == UncondBranch(t.pc, t.pc + 12)
    ensures Step(env, t) == State(t.pc + 12, t.core)
  {
    hide Decode, UncondBranch, Wrap64;
    DecodeUncondBranch(t.pc, t.pc + 12);
    WrapSame(t.pc + 12);
  }

  lemma RunCondNotTaken(env: Env, t: State, w: U32)
    requires IsCondBranch(Classify(w)) && t.pc + 16 < 0x1_0000_0000_0000_0000 && !Taken(env, w, t.core)
    requires Fetch(t) == WithImm19Of2(w) && Read32(t.core.mem, t.pc + 4) == UncondBranch(t.pc + 4, t.pc + 16)
    ensures Reaches(env, t, State(t.pc + 16, t.core))
  {
    hide Decode, Taken, WithImm19Of2, UncondBranch, Step;
    RunCondHead(env, t, w);
    RunSkip(env, Step(env, t));
    Two(env, t);
  }

  lemma RunCondTaken(env: Env, t: State, w: U32, d: U64)
    requires IsCondBranch(Classify(w)) && t.pc + 16 < 0x1_0000_0000_0000_0000 && Taken(env, w, t.core)
    requires Fetch(t) == WithImm19Of2(w) && Near(t.pc + 8, d)
    requires Read32(t.core.mem, t.pc + 8) == LdrLiteralX(17, t.pc + 8, d)
    requires Read32(t.core.mem, t.pc + 12) == BranchRegister(17, false)
    ensures var v := Read64(t.core.mem, d); Reaches(env, t, State(v, SetReg(t.core, 17, v)))
  {
    hide Decode, Taken, WithImm19Of2, LdrLiteralX, BranchRegister, Step, Read64;
    RunCondHead(env, t, w);
    ReachesStep(env, t);
    var t1 := Step(env, t);
    RunLiteralJump(env, t1, d, false);
    var v := Read64(t.core.mem, d);
    ReachesTransitive(env, t, t1, State(v, SetReg(t.core, 17, v)));
  }

  /** b.cond, cbz and cbnz keep their condition; taken, they jump through x17. */
  lemma SimulateCondBranch(env: Env, orig: Memory, tr: Trampoline, i: nat, v: View, s: State, t: State)
    returns (t': State)
    requires AtBlock(orig, tr, i, v, s, t) && IsCondBranch(tr.insts[i].kind)
    requires StepReads(env, tr, i, s.core) !! v.hidden
    ensures Reaches(env, t, t') && BlockDone(env, orig, tr, i, v, s, t')
  {
    hide Alike, TrampolineCode, Placed, Decode, Classify, RelatedAddress, LdrLiteralX, BranchRegister, Step, Read64,
      Taken, WithImm19Of2, UncondBranch, Moved, Clobber, Overwrite, Reaches, Corresponds, Destination, CodeOf;
    var inst := tr.insts[i];
    BlockAt(t.core.mem, orig, tr, i);
    FetchOriginal(orig, tr, i, v, s, t);
    NextPc(tr, i);
    StepCond(env, s, inst.code);
    AlikeSimilar(tr, v, s.core, t.core);
    SimilarTaken(env, v.hidden, inst.code, s.core, t.core);
    if Taken(env, inst.code, s.core) {
      PlacedBasics(tr);
      CondAligned(inst.code, s.pc);
      DestinationCorresponds(tr, i);
      RunCondTaken(env, t, inst.code, inst.dataAddr);
      var to := Read64(t.core.mem, inst.dataAddr);
      t' := State(to, SetReg(t.core, 17, to));
      AlikeClobber(tr, v, s.core, t.core, to);
    } else {
      RunCondNotTaken(env, t, inst.code);
      t' := State(t.pc + 16, t.core);
      MoveNothing(v, {});
      OverwriteNothing(v);
    }
  }

  // ---------------------------------------------------------------- address computations

  lemma StepAddress(env: Env, s: State, w: U32)
    requires Fetch(s) == w && Classify(w) in {Adr, Adrp}
    ensures Step(env, s) == State(Wrap64(s.pc + 4), SetReg(s.core, w % 0x20, RelatedAddress(Classify(w), w, s.pc)))
  {
    hide RelatedAddress, SetReg;
    if Classify(w) == Adr { AdrAddress(w, s.pc); } else { AdrpAddress(w, s.pc); }
  }

  /** adr and adrp become a literal load of the address. */
  lemma SimulateAddress(env: Env, orig: Memory, tr: Trampoline, i: nat, v: View, s: State, t: State)
    requires AtBlock(orig, tr, i, v, s, t) && tr.insts[i].kind in {Adr, Adrp} && Supported(tr, i)
    ensures Reaches(env, t, Step(env, t)) && BlockDone(env, orig, tr, i, v, s, Step(env, t))
  {
    hide Alike, TrampolineCode, Placed, Decode, Classify, RelatedAddress, LdrLiteralX, Step, Read64, SetReg;
    var inst := tr.insts[i];
    var rd := inst.code % 0x20;
    BlockAt(t.core.mem, orig, tr, i);
    FetchOriginal(orig, tr, i, v, s, t);
    NextPc(tr, i);
    StepAddress(env, s, inst.code);
    RunLdrLiteral(env, t, rd, inst.dataAddr);
    ReachesStep(env, t);
    AlikeSetReg(tr, v, s.core, t.core, rd, inst.relatePc);
    MoveNothing(v, RegLoc(rd));
    SetRegMem(s.core, rd, inst.relatePc);
    SetRegMem(t.core, rd, inst.relatePc);
  }

  lemma SetRegMem(c: Core, r: Reg, v: U64)
    ensures SetReg(c, r, v).mem == c.mem && SetReg(c, r, v).sp == c.sp
  {
  }

  // ---------------------------------------------------------------- literal loads

  lemma StepLiteral(env: Env, s: State, w: U32)
    requires Fetch(s) == w && Classify(w) == LdrLiteral && w / 0x100_0000 == 0x58 && Decode(w).LoadLiteral?
    requires Decode(w).offset >= 0
    ensures Step(env, s) == State(Wrap64(s.pc + 4),
                                  SetReg(s.core, w % 0x20, Read64(s.core.mem, RelatedAddress(LdrLiteral, w, s.pc))))
  {
    hide RelatedAddress, SetReg, Read64, Classify, Decode, LiteralOffset;
    LiteralAddress(w, s.pc);
    LiteralDecodes(w);
  }

  lemma LoadTwice(c: Core, rt: Reg, a: U64)
    ensures var c1 := SetReg(c, rt, a);
            rt != 31 ==> SetReg(c1, rt, Read64(c1.mem, GetReg(c1, rt))) == SetReg(c, rt, Read64(c.mem, a))
    ensures rt == 31 ==> forall v :: SetReg(c, rt, v) == c
  {
    if rt != 31 {
      assert c.regs[rt := a][rt := Read64(c.mem, a)] == c.regs[rt := Read64(c.mem, a)];
    }
  }

  /** A literal outside the window is loaded through its address; the register ends up with the literal itself. */
  lemma RunFarLiteral(env: Env, t: State, rt: Reg, d: U64, a: U64)
    requires Near(t.pc, d) && t.pc + 8 < 0x1_0000_0000_0000_0000 && Read64(t.core.mem, d) == a
    requires Fetch(t) == LdrLiteralX(rt, t.pc, d) && Read32(t.core.mem, t.pc + 4) == LdrRtRn(rt, rt)
    ensures Reaches(env, t, State(t.pc + 8, SetReg(t.core, rt, Read64(t.core.mem, a))))
  {
    hide LdrLiteralX, LdrRtRn, Step, Read64, SetReg, GetReg;
    RunLdrLiteral(env, t, rt, d);
    SetRegMem(t.core, rt, a);
    RunLdrSelf(env, Step(env, t), rt);
    LoadTwice(t.core, rt, a);
    Two(env, t);
  }

  /** A literal lifted with the window has been copied next to the code. */
  lemma RunNearLiteral(env: Env, t: State, rt: Reg, d: U64)
    requires Near(t.pc, d) && t.pc + 8 < 0x1_0000_0000_0000_0000
    requires Fetch(t) == LdrLiteralX(rt, t.pc, d) && Read32(t.core.mem, t.pc + 4) == NOP
    ensures Reaches(env, t, State(t.pc + 8, SetReg(t.core, rt, Read64(t.core.mem, d))))
  {
    hide LdrLiteralX, Step, Read64, SetReg;
    RunLdrLiteral(env, t, rt, d);
    SetRegMem(t.core, rt, Read64(t.core.mem, d));
    RunNop(env, Step(env, t));
    Two(env, t);
  }

  lemma LiteralAligned(tr: Trampoline, i: nat)
    requires Placed(tr) && i < |tr.insts| && IsLiteralLoad(tr.insts[i].kind) && tr.insts[i].relate.InWindow?
    ensures var index := tr.insts[i].relate.index;
            index < |tr.insts| && tr.insts[index].pc == tr.insts[i].relatePc
  {
    hide Placed, Near, RelatedAddress, BlockLength, Wrap64;
    var r := tr.insts[i].relatePc;
    PlacedBasics(tr);
    PlacedInst(tr, i);
    LiteralMod4(tr.insts[i].kind, tr.insts[i].code, tr.insts[i].pc);
    var index := (r - tr.func) / 4;
    IndexInside(tr.func, r, |tr.insts|);
    PlacedInst(tr, index);
  }

  lemma PlacedInst(tr: Trampoline, i: nat)
    requires Placed(tr) && i < |tr.insts|
    ensures InstPlaced(tr, i)
  {
    hide InstPlaced, GluePlaced;
  }

  lemma IndexInside(func: int, r: int, n: nat)
    requires func % 4 == 0 && r % 4 == 0 && func <= r < func + 4 * n
    ensures 0 <= (r - func) / 4 < n && r == func + 4 * ((r - func) / 4)
  {
    WholeWords(func, r);
  }

  lemma WholeWords(a: int, b: int)
    requires a % 4 == 0 && b % 4 == 0
    ensures b == a + 4 * ((b - a) / 4) && (b - a) % 4 == 0
  {
    DivUnique(b - a, 4, b / 4 - a / 4, 0);
  }

  lemma ReadWindow64(orig: Memory, tr: Trampoline, c: Core, a: int)
    requires WindowIntact(orig, tr, c) && InWindowWords(tr, a) && InWindowWords(tr, a + 4)
    ensures Read64(c.mem, a) == Read64(orig, a)
  {
  }

  /** ldr Xt, =literal. */
  lemma SimulateLiteral(env: Env, orig: Memory, tr: Trampoline, i: nat, v: View, s: State, t: State)
    returns (t': State)
    requires AtBlock(orig, tr, i, v, s, t) && tr.insts[i].kind == LdrLiteral && Supported(tr, i)
    requires StepReads(env, tr, i, s.core) !! v.hidden
    ensures Reaches(env, t, t') && BlockDone(env, orig, tr, i, v, s, t')
  {
    hide Similar, Tracks, TrampolineCode, Placed, Classify, RelatedAddress, LdrLiteralX, LdrRtRn, Step, Read64, SetReg,
      Decode;
    var inst := tr.insts[i];
    var rt, a := inst.code % 0x20, inst.relatePc;
    var x := Read64(s.core.mem, a);
    BlockAt(t.core.mem, orig, tr, i);
    FetchOriginal(orig, tr, i, v, s, t);
    NextPc(tr, i);
    StepLiteral(env, s, inst.code);
    if inst.relate.InWindow? {
      LiteralAligned(tr, i);
      ReadWindow64(orig, tr, s.core, a);
      RunNearLiteral(env, t, rt, inst.dataAddr);
    } else {
      SimilarRead64(v.hidden, s.core, t.core, a);
      RunFarLiteral(env, t, rt, inst.dataAddr, a);
    }
    t' := State(t.pc + 8, SetReg(t.core, rt, x));
    AlikeSetReg(tr, v, s.core, t.core, rt, x);
    MoveNothing(v, RegLoc(rt));
    SetRegMem(s.core, rt, x);
    SetRegMem(t.core, rt, x);
  }

  // ---------------------------------------------------------------- one instruction

  lemma SimulateBlock(env: Env, orig: Memory, tr: Trampoline, i: nat, v: View, s: State, t: State)
    returns (t': State)
    requires Framed(env) && AtBlock(orig, tr, i, v, s, t) && SafeStep(env, tr, i, v, s)
    ensures Reaches(env, t, t') && BlockDone(env, orig, tr, i, v, s, t')
  {
    hide Alike, TrampolineCode, Placed, Classify, Step, Decode, StackApart, BlockDone, Reaches, Framed, StepReads,
      CodeOf, FallsThrough;
    FetchOriginal(orig, tr, i, v, s, t);
    var kind := tr.insts[i].kind;
    if kind == NotPcRelated {
      t' := Step(env, t);
      if Decode(tr.insts[i].code).Plain? {
        SimulatePlain(env, orig, tr, i, v, s, t);
      } else {
        SimulateRegisterBranch(env, orig, tr, i, v, s, t);
      }
    } else if IsBranch(kind) {
      t' := SimulateBranch(env, orig, tr, i, v, s, t);
    } else if IsCondBranch(kind) {
      t' := SimulateCondBranch(env, orig, tr, i, v, s, t);
    } else if kind in {Adr, Adrp} {
      t' := Step(env, t);
      SimulateAddress(env, orig, tr, i, v, s, t);
    } else {
      NeverTestBranch(tr.insts[i].code);
      t' := SimulateLiteral(env, orig, tr, i, v, s, t);
    }
  }

  lemma NeverTestBranch(code: U32)
    ensures Classify(code) != Tbz && Classify(code) != Tbnz
  {
  }

  /** What crossing from the end of block i - 1 to block i, or over the exit jump, overwrites. */
  function AdvanceHides(tr: Trampoline, i: nat, sp: U64): set<int>
    requires i <= |tr.insts| && |tr.glue| == |tr.insts| + 1
  {
    GlueHides(tr.glue[i], sp) + if i == |tr.insts| then {X17} else {}
  }

  /** The view after instruction i: what it overwrote agrees again, a rewritten jump clobbers x17, and the glue behind
      it may spill below the stack pointer. */
  function NextView(env: Env, tr: Trampoline, i: nat, v: View, s: State): View
    requires i < |tr.insts| && |tr.glue| == |tr.insts| + 1
  {
    if FallsThrough(env, tr, i, s.core) then
      Clobber(Passed(env, tr, i, v, s.core), AdvanceHides(tr, i + 1, Step(env, s).core.sp))
    else Jumped(tr, i, v)
  }

  /** From the end of block i - 1 to block i, or over the exit jump back into the function. */
  lemma SimulateAdvance(env: Env, orig: Memory, tr: Trampoline, i: nat, v: View, c: Core, t: State)
    returns (t': State)
    requires Placed(tr) && i <= |tr.insts| && t.pc == Cursor(tr, i)
    requires TrampolineCode(t.core.mem, orig, tr) && Alike(tr, v, c, t.core) && StackApart(tr, c.sp)
    ensures Reaches(env, t, t') && Corresponds(tr, tr.func + 4 * i, t'.pc)
    ensures TrampolineCode(t'.core.mem, orig, tr)
    ensures Alike(tr, Clobber(v, AdvanceHides(tr, i, c.sp)), c, t'.core)
  {
    hide Alike, TrampolineCode, Placed, Step, StackApart, GlueHides, Clobber;
    PlacedBasics(tr);
    t' := SimulateGlue(env, orig, tr, i, v, c, t);
    var hides := GlueHides(tr.glue[i], c.sp);
    if i == |tr.insts| {
      var t1 := t';
      t' := SimulateExit(env, orig, tr, Clobber(v, hides), c, t1);
      ReachesTransitive(env, t, t1, t');
      ClobberTwice(v, hides, {X17});
    } else {
      assert hides + {} == hides;
    }
  }

  /** One step of the window: the trampoline gets to the corresponding place in a corresponding state. After a call,
      the link register holds the address of the next instruction in one machine and the end of the block in the
      other. */
  lemma SimulateStep(env: Env, orig: Memory, tr: Trampoline, i: nat, v: View, s: State, t: State)
    returns (t': State)
    requires Framed(env) && AtBlock(orig, tr, i, v, s, t) && SafeStep(env, tr, i, v, s)
    ensures Reaches(env, t, t') && Corresponds(tr, Step(env, s).pc, t'.pc)
    ensures Related(orig, tr, NextView(env, tr, i, v, s), Step(env, s), t')
  {
    hide Alike, TrampolineCode, Placed, Classify, Step, Decode, StackApart, Reaches, Framed, StepReads, StepWrites,
      CodeOf, FallsThrough, WindowIntact, AdvanceHides, Supported, IsCall, Jumped, Passed, Corresponds;
    PlacedBasics(tr);
    var t1 := SimulateBlock(env, orig, tr, i, v, s, t);
    if FallsThrough(env, tr, i, s.core) {
      t' := SimulateAdvance(env, orig, tr, i + 1, Passed(env, tr, i, v, s.core), Step(env, s).core, t1);
      ReachesTransitive(env, t, t1, t');
    } else {
      t' := t1;
    }
  }
}
