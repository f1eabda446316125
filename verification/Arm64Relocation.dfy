/** The simulation theorem: a trampoline does what the lifted window did. */
module Arm64Relocation {
  import opened Arm64Bits
  import opened Arm64Classify
  import opened Arm64Encode
  import opened Arm64Machine
  import opened Arm64Trampoline
  import opened Arm64Blocks
  import opened Arm64Simulation
  import opened Arm64Steps

  // ---------------------------------------------------------------- the supported instructions

  /** Instruction i is one whose relocated form is exact, wherever it is executed. Literal loads must be the 64-bit
      general-register form with a non-negative offset, address computations must leave the window, and an
      instruction copied verbatim must not depend on its own address. */
  predicate Supported(tr: Trampoline, i: nat)
    requires i < |tr.insts|
  {
    var inst := tr.insts[i];
    match inst.kind
    case NotPcRelated =>
      var d := Decode(inst.code);
      d.Plain? || d.BranchReg? || d.BranchRegLink?
    case Adr => inst.relate.External?
    case Adrp => inst.relate.External?
    case LdrLiteral =>
      && inst.code / 0x100_0000 == 0x58 && Decode(inst.code).LoadLiteral? && Decode(inst.code).offset >= 0
      && (inst.relate.InWindow? ==> inst.relatePc + 4 < WindowEnd(tr))
    case LdrswLiteral => false
    case LdrFpLiteral => false
    case _ => true
  }

  predicate IsCall(tr: Trampoline, i: nat)
    requires i < |tr.insts|
  {
    tr.insts[i].kind == BranchLink || (tr.insts[i].kind == NotPcRelated && Decode(tr.insts[i].code).BranchRegLink?)
  }

  /** What instruction i reads and writes among memory words, x17 and x30. Loading a literal that was lifted with the
      window reads only the window itself. */
  function StepReads(env: Env, tr: Trampoline, i: nat, c: Core): set<int>
    requires i < |tr.insts|
  {
    var inst := tr.insts[i];
    match inst.kind
    case NotPcRelated =>
      (match Decode(inst.code)
       case Plain => PlainReads(env, inst.code, c)
       case BranchReg(rn) => RegLoc(rn)
       case BranchRegLink(rn) => RegLoc(rn)
       case _ => {})
    case BranchCond => {}
    case Cbz => RegLoc(inst.code % 0x20)
    case Cbnz => RegLoc(inst.code % 0x20)
    case LdrLiteral => if inst.relate.InWindow? then {} else Words(inst.relatePc)
    case _ => {}
  }

  function StepWrites(env: Env, tr: Trampoline, i: nat, c: Core): set<int>
    requires i < |tr.insts|
  {
    var inst := tr.insts[i];
    match inst.kind
    case NotPcRelated => if Decode(inst.code).Plain? then PlainWrites(env, inst.code, c) else {}
    case Adr => RegLoc(inst.code % 0x20)
    case Adrp => RegLoc(inst.code % 0x20)
    case LdrLiteral => RegLoc(inst.code % 0x20)
    case _ => {}
  }

  function StepMoves(env: Env, tr: Trampoline, i: nat, c: Core): map<int, int>
    requires i < |tr.insts|
  {
    var inst := tr.insts[i];
    if inst.kind == NotPcRelated && Decode(inst.code).Plain? then PlainMoves(env, inst.code, c) else map[]
  }

  /** The instruction passes control to its successor rather than branching. */
  predicate FallsThrough(env: Env, tr: Trampoline, i: nat, c: Core)
    requires i < |tr.insts|
  {
    var inst := tr.insts[i];
    if inst.kind == NotPcRelated then Decode(inst.code).Plain?
    else if IsBranch(inst.kind) then false
    else if IsCondBranch(inst.kind) then !Taken(env, inst.code, c)
    else true
  }

  // ---------------------------------------------------------------- the simulation relation

  /** The original machine at `pc` is matched by the trampoline at `pc'`. */
  predicate Corresponds(tr: Trampoline, pc: int, pc': int) {
    if InWindowWords(tr, pc) then (pc - tr.func) % 4 == 0 && pc' == tr.insts[(pc - tr.func) / 4].newPc
    else pc' == pc
  }

  ghost predicate WindowIntact(orig: Memory, tr: Trampoline, c: Core)
  {
    forall x :: InWindowWords(tr, x) ==> Read32(c.mem, x) == Read32(orig, x)
  }

  /** The spill slot is ordinary stack memory. */
  ghost predicate StackApart(tr: Trampoline, sp: U64)
    requires Placed(tr)
  {
    forall x :: x in Words(SpillSlot(sp)) ==> !Private(tr, x)
  }

  /** Both machines are between instructions, and agree on all that the view does not except. */
  ghost predicate Related(orig: Memory, tr: Trampoline, v: View, s: State, t: State)
    requires Placed(tr)
  {
    && TrampolineCode(t.core.mem, orig, tr)
    && WindowIntact(orig, tr, s.core)
    && Alike(tr, v, s.core, t.core)
  }

  // ---------------------------------------------------------------- glue

  function GlueHides(glue: Glue, sp: U64): set<int> {
    if glue.Chain? then Words(SpillSlot(sp)) else {}
  }

  lemma RunNopUpTo(env: Env, t: State, to: U64)
    requires t.pc + 16 < 0x1_0000_0000_0000_0000 && NopUpTo(t.core.mem, t.pc, to)
    ensures Reaches(env, t, State(to, t.core))
  {
    ReachesStep(env, t);
    if to != t.pc {
      RunNop(env, t);
    }
  }

  function Spilled(c: Core): Core {
    c.(mem := Write64(c.mem, SpillSlot(c.sp), c.regs[17]))
  }

  lemma WriteElsewhere(mem: Memory, a: int, v: U64, x: int)
    requires x !in Words(a)
    ensures Read32(Write64(mem, a, v), x) == Read32(mem, x)
  {
    assert x != a && x != a + 4;
  }

  lemma ChainSurvivesSpill(c: Core, from: U64, page: U64, literal: U64)
    requires from + 16 < 0x1_0000_0000_0000_0000 && ChainCode(c.mem, from, page, literal)
    requires forall x :: x in JumpWords(from + 4, CanUseAdrp(from, page), literal) + {page}
               ==> x !in Words(SpillSlot(c.sp))
    ensures JumpCode(Spilled(c).mem, from + 4, CanUseAdrp(from, page), page, literal)
    ensures Read32(Spilled(c).mem, page) == LDR_X17_BELOW_SP
  {
    hide AdrpRegister, AddRtRnImm, BranchRegister, LdrLiteralX, UncondBranch, JumpCode, Read32, Write64, CanUseAdrp;
    forall x | x in JumpWords(from + 4, CanUseAdrp(from, page), literal) + {page}
      ensures Read32(Spilled(c).mem, x) == Read32(c.mem, x)
    {
      WriteElsewhere(c.mem, SpillSlot(c.sp), c.regs[17], x);
    }
    JumpCodeStable(c.mem, Spilled(c).mem, from + 4, CanUseAdrp(from, page), page, literal);
    assert page in JumpWords(from + 4, CanUseAdrp(from, page), literal) + {page};
  }

  lemma SpillAndReload(c: Core, page: U64)
    ensures var c' := SetReg(Spilled(c), 17, page);
            SetReg(c', 17, Read64(c'.mem, SpillSlot(c'.sp))) == Spilled(c)
  {
    hide Read64, Write64;
    ReadBack(c.mem, SpillSlot(c.sp), c.regs[17]);
    assert c.regs[17 := page][17 := c.regs[17]] == c.regs;
  }

  /** A page-to-page jump: x17 comes through unharmed, only its spill slot is written. */
  lemma RunChain(env: Env, t: State, page: U64, literal: U64)
    requires GluePlaced(t.pc, Chain(page, literal), page) && ChainCode(t.core.mem, t.pc, page, literal)
    requires forall x :: x in JumpWords(t.pc + 4, CanUseAdrp(t.pc, page), literal) + {page}
               ==> x !in Words(SpillSlot(t.core.sp))
    ensures Reaches(env, t, State(page + 4, Spilled(t.core)))
  {
    hide AdrpRegister, AddRtRnImm, BranchRegister, LdrLiteralX, UncondBranch, Decode, Step, Read64, Write64, CanUseAdrp,
      JumpCode;
    ChainSurvivesSpill(t.core, t.pc, page, literal);
    RunSpill(env, t);
    NearAcrossPage(t.pc, page);
    var t1 := State(t.pc + 4, Spilled(t.core));
    var t2 := State(page, SetReg(t1.core, 17, page));
    RunJump(env, t1, CanUseAdrp(t.pc, page), page, literal);
    RunReload(env, t2);
    SpillAndReload(t.core, page);
    ReachesStep(env, t);
    ReachesStep(env, t2);
    ReachesTransitive(env, t, t1, t2);
    ReachesTransitive(env, t, t2, Step(env, t2));
  }

  lemma NearAcrossPage(p: U64, page: U64)
    requires p + 4 < 0x1_0000_0000_0000_0000 && p / 0x1000 == (p + 4) / 0x1000
    ensures CanUseAdrp(p, page) ==> CanUseAdrp(p + 4, page)
  {
    assert PageStart(p) == 0x1000 * (p / 0x1000) && PageStart(p + 4) == 0x1000 * ((p + 4) / 0x1000);
  }

  lemma GlueAt(m: Memory, orig: Memory, tr: Trampoline, i: nat)
    requires Placed(tr) && TrampolineCode(m, orig, tr) && i <= |tr.insts|
    ensures GlueCode(m, Cursor(tr, i), tr.glue[i], Landing(tr, i))
  {
    hide BlockCode, GlueCode, JumpCode, InstPlaced, GluePlaced;
  }

  lemma GlueOutsideStack(tr: Trampoline, i: nat, sp: U64, x: int)
    requires Placed(tr) && i <= |tr.insts| && StackApart(tr, sp)
    requires 0 <= Cursor(tr, i) < 0x1_0000_0000_0000_0000 && x in GlueWordsAt(tr, i)
    ensures x !in Words(SpillSlot(sp))
  {
    hide InstPlaced, GluePlaced, GlueWordsAt, InstWords, ExitWords;
    assert InGlue(tr, i, x);
    assert Owns(tr, x);
    assert Private(tr, x);
  }

  lemma SpillOutsideTrampoline(orig: Memory, tr: Trampoline, c: Core)
    requires Placed(tr) && TrampolineCode(c.mem, orig, tr) && StackApart(tr, c.sp)
    ensures TrampolineCode(Spilled(c).mem, orig, tr)
  {
    hide TrampolineCode, Placed, Owns, Read32, Write64;
    forall x | Owns(tr, x) ensures Read32(c.mem, x) == Read32(Spilled(c).mem, x) {
      assert Private(tr, x);
      WriteElsewhere(c.mem, SpillSlot(c.sp), c.regs[17], x);
    }
    TrampolineStable(c.mem, Spilled(c).mem, orig, tr);
  }

  lemma ChainOutsideStack(tr: Trampoline, i: nat, sp: U64)
    requires Placed(tr) && i <= |tr.insts| && |tr.glue| == |tr.insts| + 1 && tr.glue[i].Chain? && StackApart(tr, sp)
    requires 0 <= Cursor(tr, i) && Cursor(tr, i) + 16 < 0x1_0000_0000_0000_0000
    ensures var from, page, literal := Cursor(tr, i), tr.glue[i].page, tr.glue[i].literal;
            forall x :: x in JumpWords(from + 4, CanUseAdrp(from, page), literal) + {page}
              ==> x !in Words(SpillSlot(sp))
  {
    hide Placed, StackApart, CanUseAdrp, JumpWords, Landing, Cursor;
    var from, page, literal := Cursor(tr, i), tr.glue[i].page, tr.glue[i].literal;
    forall x | x in JumpWords(from + 4, CanUseAdrp(from, page), literal) + {page}
      ensures x !in Words(SpillSlot(sp))
    {
      GlueOutsideStack(tr, i, sp, x);
    }
  }

  /** Crossing a page: the chain, and the NOP that may follow it in the new page. */
  lemma SimulateChain(env: Env, orig: Memory, tr: Trampoline, i: nat, v: View, c: Core, t: State)
    returns (t': State)
    requires Placed(tr) && i <= |tr.insts| && |tr.glue| == |tr.insts| + 1 && tr.glue[i].Chain?
    requires t.pc == Cursor(tr, i)
    requires TrampolineCode(t.core.mem, orig, tr) && Alike(tr, v, c, t.core) && StackApart(tr, c.sp)
    ensures Reaches(env, t, t') && t'.pc == Landing(tr, i)
    ensures TrampolineCode(t'.core.mem, orig, tr)
    ensures Alike(tr, Clobber(v, Words(SpillSlot(c.sp))), c, t'.core)
  {
    hide Placed, TrampolineCode, StackApart, Step, JumpCode, CanUseAdrp, JumpWords, Read32, Write64, Similar, Tracks,
      ChainCode, Landing, Cursor;
    var page, literal := tr.glue[i].page, tr.glue[i].literal;
    CursorPlaced(tr, i);
    GlueAt(t.core.mem, orig, tr, i);
    SameSp(v.hidden, c, t.core);
    ChainOutsideStack(tr, i, c.sp);
    RunChain(env, t, page, literal);
    var t1 := State(page + 4, Spilled(t.core));
    SpillOutsideTrampoline(orig, tr, t.core);
    AlikeSpill(tr, v, c, t.core, SpillSlot(c.sp), t.core.regs[17]);
    GlueAt(t1.core.mem, orig, tr, i);
    RunNopUpTo(env, t1, Landing(tr, i));
    t' := State(Landing(tr, i), t1.core);
    ReachesTransitive(env, t, t1, t');
  }

  /** The glue in front of block i (or of the exit jump) changes nothing but a spill slot. */
  lemma SimulateGlue(env: Env, orig: Memory, tr: Trampoline, i: nat, v: View, c: Core, t: State)
    returns (t': State)
    requires Placed(tr) && i <= |tr.insts| && t.pc == Cursor(tr, i)
    requires TrampolineCode(t.core.mem, orig, tr) && Alike(tr, v, c, t.core) && StackApart(tr, c.sp)
    ensures Reaches(env, t, t') && t'.pc == Landing(tr, i)
    ensures TrampolineCode(t'.core.mem, orig, tr)
    ensures Alike(tr, Clobber(v, GlueHides(tr.glue[i], c.sp)), c, t'.core)
  {
    hide InstPlaced, TrampolineCode, StackApart, Step, Read32, Alike, Landing, Cursor;
    CursorPlaced(tr, i);
    if tr.glue[i].Chain? {
      t' := SimulateChain(env, orig, tr, i, v, c, t);
    } else {
      GlueAt(t.core.mem, orig, tr, i);
      RunNopUpTo(env, t, Landing(tr, i));
      t' := State(Landing(tr, i), t.core);
      ClobberNothing(v);
    }
  }

  /** The exit jump returns to the first instruction after the window. */
  lemma SimulateExit(env: Env, orig: Memory, tr: Trampoline, v: View, c: Core, t: State)
    returns (t': State)
    requires Placed(tr) && t.pc == tr.exit
    requires TrampolineCode(t.core.mem, orig, tr) && Alike(tr, v, c, t.core)
    ensures Reaches(env, t, t') && t'.pc == WindowEnd(tr)
    ensures TrampolineCode(t'.core.mem, orig, tr)
    ensures Alike(tr, Clobber(v, {X17}), c, t'.core)
  {
    hide BlockCode, GlueCode, InstPlaced, GluePlaced, JumpCode, CanUseAdrp, Step, Alike;
    RunJump(env, t, CanUseAdrp(tr.exit, WindowEnd(tr)), WindowEnd(tr), tr.exitLiteral);
    t' := State(WindowEnd(tr), SetReg(t.core, 17, WindowEnd(tr)));
    AlikeClobber(tr, v, c, t.core, WindowEnd(tr));
  }
}
