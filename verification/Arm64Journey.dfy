/** Whole runs: through the window, out into other code, into calls, and back through the return addresses. */
module Arm64Journey {
  import opened Arm64Bits
  import opened Arm64Classify
  import opened Arm64Encode
  import opened Arm64Machine
  import opened Arm64Trampoline
  import opened Arm64Simulation
  import opened Arm64Steps
  import opened Arm64Relocation
  import opened Arm64Window

  // ---------------------------------------------------------------- code outside the window

  function OutsideReads(env: Env, s: State): set<int> {
    var w := Fetch(s);
    match Decode(w)
    case Plain => PlainReads(env, w, s.core)
    case CondBranch(_) => if w / 0x100_0000 == 0x54 then {} else RegLoc(w % 0x20)
    case TestBranch(_) => RegLoc(w % 0x20)
    case LoadLiteral(_, offset) => Words(Wrap64(s.pc + offset))
    case LoadWord(_, offset, _) => {Wrap64(s.pc + offset)}
    case BranchReg(rn) => RegLoc(rn)
    case BranchRegLink(rn) => RegLoc(rn)
    case _ => {}
  }

  function OutsideWrites(env: Env, s: State): set<int> {
    var w := Fetch(s);
    match Decode(w)
    case Plain => PlainWrites(env, w, s.core)
    case BranchAndLink(_) => RegLoc(30)
    case BranchRegLink(_) => RegLoc(30)
    case AdrPc(rd, _) => RegLoc(rd)
    case AdrPage(rd, _) => RegLoc(rd)
    case LoadLiteral(rt, _) => RegLoc(rt)
    case LoadWord(rt, _, _) => RegLoc(rt)
    case _ => {}
  }

  function OutsideMoves(env: Env, s: State): map<int, int> {
    if Decode(Fetch(s)).Plain? then PlainMoves(env, Fetch(s), s.core) else map[]
  }

  /** Code that both machines share: it is not hidden, reads nothing hidden, leaves the window and the trampoline
      alone, and does not jump into the patched window. */
  ghost predicate SafeOutside(env: Env, tr: Trampoline, v: View, s: State)
    requires Placed(tr)
  {
    && !InWindowWords(tr, s.pc) && s.pc !in v.hidden && !Decode(Fetch(s)).Unmodelled?
    && OutsideReads(env, s) !! v.hidden
    && (forall x :: x in OutsideWrites(env, s) ==> !Private(tr, x))
    && !InWindowWords(tr, Step(env, s).pc)
  }

  lemma SetRegBoth(tr: Trampoline, v: View, a: Core, b: Core, r: Reg, x: U64)
    requires Alike(tr, v, a, b)
    ensures Alike(tr, Moved(v, RegLoc(r), map[]), SetReg(a, r, x), SetReg(b, r, x))
  {
    hide Alike, Moved, Overwrite, RegLoc, SetReg;
    AlikeSetReg(tr, v, a, b, r, x);
    MoveNothing(v, RegLoc(r));
  }

  lemma UnmovedView(v: View)
    ensures Moved(v, {}, map[]) == v
  {
    hide Moved, Overwrite;
    MoveNothing(v, {});
    OverwriteNothing(v);
  }

  lemma SameTaken(env: Env, v: View, w: U32, a: Core, b: Core)
    requires Similar(v.hidden, a, b)
    requires w / 0x100_0000 == 0x54 || RegLoc(w % 0x20) !! v.hidden
    ensures Taken(env, w, a) == Taken(env, w, b)
  {
    hide Similar, RegLoc, GetReg;
    SameSp(v.hidden, a, b);
    if w / 0x100_0000 != 0x54 {
      SimilarReg(v.hidden, a, b, w % 0x20);
    }
  }

  lemma SameBit(v: View, w: U32, a: Core, b: Core)
    requires Similar(v.hidden, a, b) && RegLoc(w % 0x20) !! v.hidden
    ensures BitTaken(w, a) == BitTaken(w, b)
  {
    hide Similar, RegLoc, GetReg, Pow2;
    SimilarReg(v.hidden, a, b, w % 0x20);
  }

  lemma SameWord(v: View, a: Core, b: Core, x: U64)
    requires Similar(v.hidden, a, b) && x !in v.hidden
    ensures Read32(a.mem, x) == Read32(b.mem, x)
  {
  }

  /** The same instruction at the same address acts alike. */
  lemma SameStep(env: Env, tr: Trampoline, v: View, s: State, t: State)
    requires Framed(env) && Alike(tr, v, s.core, t.core) && s.pc == t.pc && Fetch(s) == Fetch(t)
    requires OutsideReads(env, s) !! v.hidden
    ensures Step(env, s).pc == Step(env, t).pc && OutsideWrites(env, s) == OutsideWrites(env, t)
    ensures Alike(tr, Moved(v, OutsideWrites(env, s), OutsideMoves(env, s)), Step(env, s).core, Step(env, t).core)
  {
    hide Alike, Framed, Decode, Moved, Fetch, Taken, ExecPlain, PlainReads, PlainWrites, PlainMoves, SetReg, RegLoc,
      Read64, GetReg, Words, Similar, BitTaken, Read32, Widened;
    AlikeSimilar(tr, v, s.core, t.core);
    UnmovedView(v);
    var w := Fetch(s);
    match Decode(w)
    case Plain => AlikePlain(env, tr, w, v, s.core, t.core);
    case Branch(_) =>
    case BranchAndLink(_) => SetRegBoth(tr, v, s.core, t.core, 30, Wrap64(s.pc + 4));
    case CondBranch(_) => SameTaken(env, v, w, s.core, t.core);
    case TestBranch(_) => SameBit(v, w, s.core, t.core);
    case AdrPc(rd, offset) => SetRegBoth(tr, v, s.core, t.core, rd, Wrap64(s.pc + offset));
    case AdrPage(rd, offset) => SetRegBoth(tr, v, s.core, t.core, rd, Wrap64(PageStart(s.pc) + offset));
    case LoadLiteral(rt, offset) =>
      SimilarRead64(v.hidden, s.core, t.core, Wrap64(s.pc + offset));
      SetRegBoth(tr, v, s.core, t.core, rt, Read64(s.core.mem, Wrap64(s.pc + offset)));
    case LoadWord(rt, offset, signed) =>
      SameWord(v, s.core, t.core, Wrap64(s.pc + offset));
      SetRegBoth(tr, v, s.core, t.core, rt, Widened(signed, Read32(s.core.mem, Wrap64(s.pc + offset))));
    case BranchReg(rn) => SimilarReg(v.hidden, s.core, t.core, rn);
    case BranchRegLink(rn) =>
      SimilarReg(v.hidden, s.core, t.core, rn);
      SetRegBoth(tr, v, s.core, t.core, 30, Wrap64(s.pc + 4));
    case Unmodelled =>
  }

  lemma StepKeeps(env: Env, s: State, x: int)
    requires Framed(env) && x >= 0 && x !in OutsideWrites(env, s)
    ensures Read32(Step(env, s).core.mem, x) == Read32(s.core.mem, x)
  {
    hide Framed, Decode, Fetch, Taken, ExecPlain, PlainWrites, SetReg, Read64, GetReg, Read32, BitTaken, Widened;
    var w := Fetch(s);
    match Decode(w)
    case Plain => KeepsWord(env, w, s.core, x);
    case BranchAndLink(_) => SetRegMem(s.core, 30, Wrap64(s.pc + 4));
    case AdrPc(rd, offset) => SetRegMem(s.core, rd, Wrap64(s.pc + offset));
    case AdrPage(rd, offset) => SetRegMem(s.core, rd, Wrap64(PageStart(s.pc) + offset));
    case LoadLiteral(rt, offset) => SetRegMem(s.core, rt, Read64(s.core.mem, Wrap64(s.pc + offset)));
    case LoadWord(rt, offset, signed) =>
      SetRegMem(s.core, rt, Widened(signed, Read32(s.core.mem, Wrap64(s.pc + offset))));
    case BranchRegLink(_) => SetRegMem(s.core, 30, Wrap64(s.pc + 4));
    case _ =>
  }

  lemma SameFetch(tr: Trampoline, v: View, s: State, t: State)
    requires Alike(tr, v, s.core, t.core) && s.pc == t.pc && s.pc !in v.hidden
    ensures Fetch(s) == Fetch(t)
  {
  }

  /** A step outside the window: both machines take it, side by side. */
  lemma SimulateOutside(env: Env, orig: Memory, tr: Trampoline, v: View, s: State, t: State)
    requires Framed(env) && Placed(tr) && Related(orig, tr, v, s, t) && s.pc == t.pc && SafeOutside(env, tr, v, s)
    ensures Step(env, s).pc == Step(env, t).pc
    ensures Related(orig, tr, Moved(v, OutsideWrites(env, s), OutsideMoves(env, s)), Step(env, s), Step(env, t))
  {
    hide Alike, Framed, Decode, Moved, Fetch, Step, OutsideReads, OutsideWrites, OutsideMoves, TrampolineCode, Placed,
      Owns, Read32;
    SameFetch(tr, v, s, t);
    SameStep(env, tr, v, s, t);
    forall x | InWindowWords(tr, x)
      ensures Read32(Step(env, s).core.mem, x) == Read32(orig, x)
    {
      assert Private(tr, x);
      WindowAddress(tr, x);
      StepKeeps(env, s, x);
    }
    forall x | Owns(tr, x)
      ensures Read32(Step(env, t).core.mem, x) == Read32(t.core.mem, x)
    {
      assert Private(tr, x);
      OwnedAddress(tr, x);
      StepKeeps(env, t, x);
    }
    TrampolineStable(t.core.mem, Step(env, t).core.mem, orig, tr);
  }

  // ---------------------------------------------------------------- returns

  /** `ret` while the link register holds the return address that a lifted call left. */
  predicate Returning(tr: Trampoline, v: View, s: State) {
    Decode(Fetch(s)) == BranchReg(30) && X30 in v.links && v.links[X30] <= |tr.insts|
  }

  ghost predicate SafeReturn(tr: Trampoline, v: View, s: State)
    requires Placed(tr)
  {
    && (AtInstruction(tr, s.pc) || (!InWindowWords(tr, s.pc) && s.pc !in v.hidden))
    && StackApart(tr, s.core.sp)
  }

  lemma ReturnWord(orig: Memory, tr: Trampoline, v: View, s: State, t: State)
    requires Placed(tr) && CodeOf(orig, tr) && Related(orig, tr, v, s, t) && Corresponds(tr, s.pc, t.pc)
    requires AtInstruction(tr, s.pc) || (!InWindowWords(tr, s.pc) && s.pc !in v.hidden)
    requires Decode(Fetch(s)).BranchReg?
    ensures Fetch(t) == Fetch(s)
  {
    hide Alike, TrampolineCode, Placed, CodeOf, WindowIntact;
    if AtInstruction(tr, s.pc) {
      var i := IndexOf(tr, s.pc);
      BlockAt(t.core.mem, orig, tr, i);
      FetchOriginal(orig, tr, i, v, s, t);
    } else {
      SameFetch(tr, v, s, t);
    }
  }

  /** A return through a link: the original machine arrives behind the call, the other one at the end of the call's
      block, from where the glue leads on to the corresponding block. */
  lemma SimulateReturn(env: Env, orig: Memory, tr: Trampoline, v: View, s: State, t: State) returns (t': State)
    requires Placed(tr) && CodeOf(orig, tr) && Related(orig, tr, v, s, t) && Corresponds(tr, s.pc, t.pc)
    requires Returning(tr, v, s) && SafeReturn(tr, v, s)
    ensures Reaches(env, t, t') && Corresponds(tr, Step(env, s).pc, t'.pc)
    ensures Step(env, s).pc == tr.func + 4 * v.links[X30]
    ensures Related(orig, tr, Clobber(v, AdvanceHides(tr, v.links[X30], s.core.sp)), Step(env, s), t')
  {
    hide Similar, TrampolineCode, Placed, CodeOf, Decode, Fetch, StackApart, WindowIntact, Clobber, AdvanceHides,
      Corresponds, AtInstruction, InWindowWords, Cursor;
    PlacedBasics(tr);
    ReturnWord(orig, tr, v, s, t);
    assert Value(s.core, X30) == tr.func + 4 * v.links[X30] && Value(t.core, X30) == Cursor(tr, v.links[X30]);
    ReachesStep(env, t);
    var t1 := Step(env, t);
    t' := SimulateAdvance(env, orig, tr, v.links[X30], v, s.core, t1);
    ReachesTransitive(env, t, t1, t');
  }

  // ---------------------------------------------------------------- runs

  predicate AtInstruction(tr: Trampoline, pc: int) { InWindowWords(tr, pc) && (pc - tr.func) % 4 == 0 }

  function IndexOf(tr: Trampoline, pc: int): (i: nat)
    requires AtInstruction(tr, pc)
    ensures i < |tr.insts| && pc == tr.func + 4 * i
  {
    (pc - tr.func) / 4
  }

  ghost predicate Safe(env: Env, tr: Trampoline, v: View, s: State)
    requires Placed(tr)
  {
    if Returning(tr, v, s) then SafeReturn(tr, v, s)
    else if AtInstruction(tr, s.pc) then SafeStep(env, tr, IndexOf(tr, s.pc), v, s)
    else SafeOutside(env, tr, v, s)
  }

  function ViewNext(env: Env, tr: Trampoline, v: View, s: State): View
    requires |tr.glue| == |tr.insts| + 1
  {
    if Returning(tr, v, s) then Clobber(v, AdvanceHides(tr, v.links[X30], s.core.sp))
    else if AtInstruction(tr, s.pc) then NextView(env, tr, IndexOf(tr, s.pc), v, s)
    else Moved(v, OutsideWrites(env, s), OutsideMoves(env, s))
  }

  /** Every one of the next m original steps is safe, wherever it is. */
  ghost predicate SafeRun(env: Env, tr: Trampoline, v: View, s: State, m: nat)
    requires Placed(tr)
    decreases m
  {
    m == 0 || (Safe(env, tr, v, s) && SafeRun(env, tr, ViewNext(env, tr, v, s), Step(env, s), m - 1))
  }

  ghost function ViewAfter(env: Env, tr: Trampoline, v: View, s: State, m: nat): View
    requires |tr.glue| == |tr.insts| + 1
    decreases m
  {
    if m == 0 then v else ViewAfter(env, tr, ViewNext(env, tr, v, s), Step(env, s), m - 1)
  }

  /** Between two steps: the machines are at corresponding places, in corresponding states. */
  ghost predicate Together(orig: Memory, tr: Trampoline, v: View, s: State, t: State)
    requires Placed(tr)
  {
    Related(orig, tr, v, s, t) && Corresponds(tr, s.pc, t.pc)
  }

  lemma SimulateAny(env: Env, orig: Memory, tr: Trampoline, v: View, s: State, t: State) returns (t': State)
    requires Framed(env) && Placed(tr) && CodeOf(orig, tr) && Together(orig, tr, v, s, t) && Safe(env, tr, v, s)
    ensures |tr.glue| == |tr.insts| + 1
    ensures Reaches(env, t, t') && Together(orig, tr, ViewNext(env, tr, v, s), Step(env, s), t')
  {
    hide Placed, Related, Step, SafeStep, NextView, Reaches, CodeOf, Framed, SafeOutside, SafeReturn, Returning,
      OutsideReads, OutsideWrites, OutsideMoves, Moved, Clobber, AdvanceHides;
    PlacedBasics(tr);
    if Returning(tr, v, s) {
      t' := SimulateReturn(env, orig, tr, v, s, t);
    } else if AtInstruction(tr, s.pc) {
      var i := IndexOf(tr, s.pc);
      assert AtBlock(orig, tr, i, v, s, t);
      t' := SimulateStep(env, orig, tr, i, v, s, t);
    } else {
      OutsidePlaces(env, tr, v, s);
      SimulateOutside(env, orig, tr, v, s, t);
      t' := Step(env, t);
      ReachesStep(env, t);
    }
  }

  lemma OutsidePlaces(env: Env, tr: Trampoline, v: View, s: State)
    requires Placed(tr) && SafeOutside(env, tr, v, s)
    ensures !InWindowWords(tr, s.pc) && !InWindowWords(tr, Step(env, s).pc)
  {
  }

  /** Any number of steps: branches in the window land on the relocated target, leaving ones on the original target;
      calls run side by side and come back to corresponding places. */
  lemma {:induction false} SimulateRun(env: Env, orig: Memory, tr: Trampoline, v: View, s: State, t: State, m: nat)
    returns (t': State)
    requires Framed(env) && Placed(tr) && CodeOf(orig, tr)
    requires Together(orig, tr, v, s, t) && SafeRun(env, tr, v, s, m)
    ensures |tr.glue| == |tr.insts| + 1
    ensures Reaches(env, t, t') && Together(orig, tr, ViewAfter(env, tr, v, s, m), Run(env, s, m), t')
    decreases m
  {
    hide Placed, Together, Step, Safe, ViewNext, Reaches, CodeOf, Framed;
    PlacedBasics(tr);
    if m == 0 {
      t' := t;
      ReachesStep(env, t);
    } else {
      var t1 := SimulateAny(env, orig, tr, v, s, t);
      t' := SimulateRun(env, orig, tr, ViewNext(env, tr, v, s), Step(env, s), t1, m - 1);
      ReachesTransitive(env, t, t1, t');
    }
  }

  /** From the end of any block, in particular from the return address that a call leaves, the trampoline follows the
      original run from the next instruction on. */
  lemma ResumedRun(env: Env, orig: Memory, tr: Trampoline, i: nat, v: View, s: State, t: State, m: nat)
    returns (t': State)
    requires Framed(env) && Placed(tr) && CodeOf(orig, tr) && i <= |tr.insts|
    requires s.pc == tr.func + 4 * i && t.pc == Cursor(tr, i)
    requires Related(orig, tr, v, s, t) && StackApart(tr, s.core.sp)
    requires |tr.glue| == |tr.insts| + 1 && SafeRun(env, tr, Clobber(v, AdvanceHides(tr, i, s.core.sp)), s, m)
    ensures Reaches(env, t, t')
    ensures Together(orig, tr, ViewAfter(env, tr, Clobber(v, AdvanceHides(tr, i, s.core.sp)), s, m), Run(env, s, m), t')
  {
    hide Placed, Step, Reaches, CodeOf, Framed, Alike, TrampolineCode, WindowIntact, StackApart, AdvanceHides, SafeRun,
      ViewAfter, Run, Clobber, Corresponds;
    var w := Clobber(v, AdvanceHides(tr, i, s.core.sp));
    var t1 := SimulateAdvance(env, orig, tr, i, v, s.core, t);
    assert Together(orig, tr, w, s, t1);
    t' := SimulateRun(env, orig, tr, w, s, t1, m);
    ReachesTransitive(env, t, t1, t');
  }

  /** Calling the trampoline instead of the function: whatever the unhooked function goes on to do, in the window, in
      the rest of its code, in the functions it calls and after their return, the trampoline follows; wherever the
      original is outside the window, both are at the same address. */
  lemma TrampolineRefinesFunction(env: Env, orig: Memory, tr: Trampoline, v: View, s: State, t: State, m: nat)
    returns (t': State)
    requires Framed(env) && Placed(tr) && CodeOf(orig, tr)
    requires s.pc == tr.func && t.pc == tr.entry && Related(orig, tr, v, s, t) && StackApart(tr, s.core.sp)
    requires |tr.glue| == |tr.insts| + 1 && SafeRun(env, tr, Clobber(v, AdvanceHides(tr, 0, s.core.sp)), s, m)
    ensures Reaches(env, t, t')
    ensures Together(orig, tr, ViewAfter(env, tr, Clobber(v, AdvanceHides(tr, 0, s.core.sp)), s, m), Run(env, s, m), t')
    ensures !InWindowWords(tr, Run(env, s, m).pc) ==> t'.pc == Run(env, s, m).pc
  {
    hide Placed, Step, Reaches, CodeOf, Framed, Related, StackApart, AdvanceHides, SafeRun, ViewAfter, Run, Clobber;
    t' := ResumedRun(env, orig, tr, 0, v, s, t, m);
  }

  /** A call in the window: the original leaves the address of the next instruction in the link register, the
      trampoline the end of the call's block, from which `ResumedRun` leads on. */
  lemma SimulateCall(env: Env, orig: Memory, tr: Trampoline, i: nat, v: View, s: State, t: State) returns (t': State)
    requires Framed(env) && AtBlock(orig, tr, i, v, s, t) && SafeStep(env, tr, i, v, s) && IsCall(tr, i)
    ensures Reaches(env, t, t') && Corresponds(tr, Step(env, s).pc, t'.pc)
    ensures Step(env, s).core.regs[30] == tr.func + 4 * (i + 1) && t'.core.regs[30] == Cursor(tr, i + 1)
    ensures Related(orig, tr, Linked(Clobber(v, JumpHides(tr.insts[i].kind)), i + 1), Step(env, s), t')
  {
    hide Similar, TrampolineCode, Placed, Step, Decode, Classify, Reaches, Framed, SafeStep, WindowIntact, Corresponds,
      CodeOf, JumpHides, Cursor, Clobber, Clear;
    PlacedBasics(tr);
    t' := SimulateStep(env, orig, tr, i, v, s, t);
    var after := Linked(Clobber(v, JumpHides(tr.insts[i].kind)), i + 1);
    assert NextView(env, tr, i, v, s) == after;
    assert X30 in after.links && after.links[X30] == i + 1;
  }
}
