/** A concrete program: a function whose first instructions are a call, a literal load and a NOP, and a callee that
    saves the link register on the stack. Hooking it succeeds, and its original can still be called. */
module Arm64Example {
  import opened Arm64Bits
  import opened Arm64Classify
  import opened Arm64Encode
  import opened Arm64Machine
  import opened Arm64Trampoline
  import opened Arm64Simulation
  import opened Arm64Steps
  import opened Arm64Relocation
  import opened Arm64Window
  import opened Arm64Journey
  import opened Arm64Layout
  import opened Arm64InlineHook
  import opened Arm64Hooked

  const FUNC: U64 := 0x1000
  const LITERAL: U64 := 0x1100
  const CALLEE: U64 := 0x2000
  const HOOK: U64 := 0x3000
  const PAGES: seq<U64> := [0x1_0000, 0x2_0000]
  const SP: U64 := 0x8000_0000
  const SLOT: U64 := 0x7fff_fff0

  const BL_CALLEE: U32 := 0x9400_0400   // bl +0x1000
  const LDR_X0: U32 := 0x5800_07e0      // ldr x0, +0xfc
  const PUSH_X30: U32 := 0xf81f_0ffe    // str x30, [sp, #-16]!
  const POP_X30: U32 := 0xf841_07fe     // ldr x30, [sp], #16
  const RET: U32 := 0xd65f_03c0

  const PROGRAM: Memory := map[
    FUNC := BL_CALLEE, FUNC + 4 := LDR_X0, FUNC + 8 := NOP, LITERAL := 42,
    CALLEE := PUSH_X30, CALLEE + 4 := POP_X30, CALLEE + 8 := RET]

  /** The program is in memory, whatever the trampoline pages hold. */
  predicate Loaded(mem: Memory) {
    && Read32(mem, FUNC) == BL_CALLEE && Read32(mem, FUNC + 4) == LDR_X0 && Read32(mem, FUNC + 8) == NOP
    && Read32(mem, CALLEE) == PUSH_X30 && Read32(mem, CALLEE + 4) == POP_X30 && Read32(mem, CALLEE + 8) == RET
    && Read64(mem, LITERAL) == 42
  }

  lemma ProgramWords()
    ensures Decode(BL_CALLEE) == BranchAndLink(0x1000) && Classify(BL_CALLEE) == BranchLink
    ensures Decode(LDR_X0) == LoadLiteral(0, 0xfc) && Classify(LDR_X0) == LdrLiteral
    ensures Decode(NOP) == Plain && Classify(NOP) == NotPcRelated
  {
  }

  lemma CalleeWords()
    ensures Decode(PUSH_X30) == Plain && Decode(POP_X30) == Plain && Decode(RET) == BranchReg(30)
    ensures !Interpreted(PUSH_X30) && !Interpreted(POP_X30)
  {
  }

  // ---------------------------------------------------------------- saving and restoring the link register

  function Push(c: Core): Core {
    var slot := Wrap64(c.sp - 16);
    c.(sp := slot, mem := Write64(c.mem, slot, c.regs[30]))
  }

  function Pop(c: Core): Core {
    SetReg(c, 30, Read64(c.mem, c.sp)).(sp := Wrap64(c.sp + 16))
  }

  function PushMap(c: Core): map<int, int> { map[Wrap64(c.sp - 16) as int := X30] }

  function PopMap(c: Core): map<int, int> { map[X30 := c.sp] }

  function StackStep(w: U32, c: Core): Core {
    if w == PUSH_X30 then Push(c) else if w == POP_X30 then Pop(c) else c
  }

  function StackWrites(w: U32, c: Core): set<int> {
    if w == PUSH_X30 then Words(Wrap64(c.sp - 16)) else if w == POP_X30 then {X30} else {}
  }

  function StackMoves(w: U32, c: Core): map<int, int> {
    if w == PUSH_X30 then PushMap(c) else if w == POP_X30 then PopMap(c) else map[]
  }

  /** Pushing and popping the link register moves it; every other instruction idles. */
  ghost function Stacking(): Env {
    Env(StackStep, (w, c) => {}, StackWrites, StackMoves, (cond, flags) => false)
  }

  lemma PushSimilar(hidden: set<int>, a: Core, b: Core)
    requires Similar(hidden, a, b)
    ensures var slot: int := Wrap64(a.sp - 16);
            Similar(hidden - Words(slot) + Carried(PushMap(a), hidden), Push(a), Push(b))
  {
    var slot: int := Wrap64(a.sp - 16);
    assert slot in Words(slot) && slot + 4 in Words(slot);
    if X30 in hidden {
      assert X30 in Loc(PushMap(a)[slot]) && Loc(slot) == Words(slot);
    }
  }

  lemma PopSimilar(hidden: set<int>, a: Core, b: Core)
    requires Similar(hidden, a, b)
    ensures Similar(hidden - {X30} + Carried(PopMap(a), hidden), Pop(a), Pop(b))
  {
    assert a.sp in Words(a.sp) && a.sp + 4 in Words(a.sp);
    if !(Words(a.sp) !! hidden) {
      assert Loc(a.sp) == Words(a.sp);
      assert X30 in Loc(X30);
      assert X30 in Carried(PopMap(a), hidden);
    }
  }

  lemma NothingSimilar(hidden: set<int>, a: Core, b: Core)
    requires Similar(hidden, a, b)
    ensures Similar(hidden - {} + Carried(map[], hidden), a, b)
  {
  }

  lemma PushMoves(c: Core)
    ensures var slot: int := Wrap64(c.sp - 16); Value(Push(c), slot) == Value(c, X30)
    ensures forall x :: x !in Words(Wrap64(c.sp - 16)) ==> SameAt(x, Push(c), c)
  {
    hide Read64, Write64;
    var slot: int := Wrap64(c.sp - 16);
    ReadBack(c.mem, slot, c.regs[30]);
    assert slot in Words(slot) && slot + 4 in Words(slot);
  }

  lemma PopMoves(c: Core)
    ensures Value(Pop(c), X30) == Value(c, c.sp)
    ensures forall x :: x != X30 ==> SameAt(x, Pop(c), c)
  {
  }

  lemma StackSimilar(w: U32, hidden: set<int>, a: Core, b: Core)
    requires Similar(hidden, a, b)
    ensures Similar(hidden - StackWrites(w, a) + Carried(StackMoves(w, a), hidden), StackStep(w, a), StackStep(w, b))
    ensures StackWrites(w, a) == StackWrites(w, b) && StackMoves(w, a) == StackMoves(w, b)
  {
    hide Similar, Push, Pop, Carried, Words;
    SameSp(hidden, a, b);
    if w == PUSH_X30 {
      PushSimilar(hidden, a, b);
    } else if w == POP_X30 {
      PopSimilar(hidden, a, b);
    } else {
      NothingSimilar(hidden, a, b);
    }
  }

  lemma StackKeeps(w: U32, c: Core)
    ensures forall d :: d in StackMoves(w, c) ==> Value(StackStep(w, c), d) == Value(c, StackMoves(w, c)[d])
    ensures forall x :: x !in StackWrites(w, c) ==> SameAt(x, StackStep(w, c), c)
  {
    hide Push, Pop, SameAt, Value, Words;
    PushMoves(c);
    PopMoves(c);
    forall x ensures SameAt(x, c, c) { SameAtSelf(c, x); }
  }

  lemma StackingIsFramed()
    ensures Framed(Stacking())
  {
    hide Similar, StackStep, StackWrites, StackMoves, SameAt, Value, Carried;
    forall w, a, b, hidden | Similar(hidden, a, b)
      ensures Similar(hidden - StackWrites(w, a) + Carried(StackMoves(w, a), hidden), StackStep(w, a), StackStep(w, b))
      ensures StackWrites(w, a) == StackWrites(w, b) && StackMoves(w, a) == StackMoves(w, b)
    {
      StackSimilar(w, hidden, a, b);
    }
    forall w, c
      ensures forall d :: d in StackMoves(w, c) ==> Value(StackStep(w, c), d) == Value(c, StackMoves(w, c)[d])
      ensures forall x :: x !in StackWrites(w, c) ==> SameAt(x, StackStep(w, c), c)
    {
      StackKeeps(w, c);
    }
  }

  // ---------------------------------------------------------------- the original run

  /** The machine after k steps from the entry of the function: the call, the callee's push, pop and return, the literal
      load and the NOP. */
  function After(mem: Memory, k: nat): State {
    var c0 := Core(seq(31, i => 0), SP, 0, mem);
    var c1 := SetReg(c0, 30, FUNC + 4);
    var c3 := c1.(mem := Write64(mem, SLOT, FUNC + 4));
    if k == 0 then State(FUNC, c0)
    else if k == 1 then State(CALLEE, c1)
    else if k == 2 then State(CALLEE + 4, Push(c1))
    else if k == 3 then State(CALLEE + 8, c3)
    else if k == 4 then State(FUNC + 4, c3)
    else State(if k == 5 then FUNC + 8 else FUNC + 12, SetReg(c3, 0, 42))
  }

  lemma SlotElsewhere(mem: Memory, x: int)
    requires Loaded(mem)
    ensures Loaded(Write64(mem, SLOT, FUNC + 4)) && Read64(Write64(mem, SLOT, FUNC + 4), SLOT) == FUNC + 4
    ensures x < SLOT ==> Read32(Write64(mem, SLOT, FUNC + 4), x) == Read32(mem, x)
  {
    ReadBack(mem, SLOT, FUNC + 4);
  }

  lemma FetchAfter(mem: Memory, k: nat)
    requires Loaded(mem) && k < 6
    ensures Fetch(After(mem, k)) == [BL_CALLEE, PUSH_X30, POP_X30, RET, LDR_X0, NOP][k]
  {
    hide Write64, Read32;
    SlotElsewhere(mem, 0);
  }

  lemma StepCallee(mem: Memory, k: nat)
    requires Loaded(mem) && 1 <= k <= 3
    ensures Step(Stacking(), After(mem, k)) == After(mem, k + 1)
  {
    hide Decode, Write64, Read64, Fetch, Interpreted;
    FetchAfter(mem, k);
    CalleeWords();
    SlotElsewhere(mem, 0);
    var c := After(mem, 1).core;
    assert Pop(Push(c)).regs == c.regs;
  }

  lemma StepAfter(mem: Memory, k: nat)
    requires Loaded(mem) && k < 6
    ensures Step(Stacking(), After(mem, k)) == After(mem, k + 1)
  {
    hide Decode, Write64, Read64, Fetch, Interpreted, Push, Pop;
    FetchAfter(mem, k);
    ProgramWords();
    SlotElsewhere(mem, 0);
    if 1 <= k <= 3 { StepCallee(mem, k); }
  }

  lemma {:induction false} RunAfter(mem: Memory, k: nat, m: nat)
    requires Loaded(mem) && k + m <= 6
    ensures Run(Stacking(), After(mem, k), m) == After(mem, k + m)
    decreases m
  {
    hide Step, Loaded, After;
    if m > 0 {
      StepAfter(mem, k);
      RunAfter(mem, k + 1, m - 1);
    }
  }

  // ---------------------------------------------------------------- the run is safe for every trampoline

  /** A trampoline that was lifted from this function into the pages. */
  ghost predicate Fits(tr: Trampoline, mem: Memory) {
    && Placed(tr) && CodeOf(mem, tr) && tr.func == FUNC && |tr.insts| == 3
    && forall x :: Owns(tr, x) ==> 0x1_0000 <= x < 0x3_0000
  }

  lemma FirstInst(tr: Trampoline, mem: Memory)
    requires Fits(tr, mem) && Loaded(mem)
    ensures tr.insts[0].kind == BranchLink && tr.insts[0].code == BL_CALLEE
  {
    hide Classify, Owns, InstPlaced, GluePlaced;
    ProgramWords();
    assert Parsed(mem, tr.func, tr.insts, 0);
  }

  lemma LiteralTarget()
    ensures RelatedAddress(LdrLiteral, LDR_X0, FUNC + 4) == LITERAL
  {
  }

  lemma SecondInst(tr: Trampoline, mem: Memory)
    requires Fits(tr, mem) && Loaded(mem)
    ensures tr.insts[1].kind == LdrLiteral && tr.insts[1].code == LDR_X0
    ensures tr.insts[1].relatePc == LITERAL && tr.insts[1].relate == External
  {
    hide Classify, Owns, GluePlaced, RelatedAddress, Near;
    ProgramWords();
    FirstInst(tr, mem);
    assert Parsed(mem, tr.func, tr.insts, 1);
    assert InstPlaced(tr, 1);
    LiteralTarget();
  }

  lemma ThirdInst(tr: Trampoline, mem: Memory)
    requires Fits(tr, mem) && Loaded(mem)
    ensures tr.insts[2].kind == NotPcRelated && tr.insts[2].code == NOP
  {
    hide Classify, Owns, GluePlaced, InstPlaced;
    ProgramWords();
    FirstInst(tr, mem);
    SecondInst(tr, mem);
    assert Parsed(mem, tr.func, tr.insts, 2);
  }

  lemma PrivatePlaces(tr: Trampoline, mem: Memory, x: int)
    requires Fits(tr, mem) && Private(tr, x)
    ensures FUNC <= x < 0x3_0000
  {
    hide Placed, CodeOf, Owns;
  }

  lemma StackIsApart(tr: Trampoline, mem: Memory, sp: U64)
    requires Fits(tr, mem) && sp in {SP, SLOT}
    ensures StackApart(tr, sp)
  {
    hide Private, CodeOf, Owns, Placed;
    forall x | x in Words(SpillSlot(sp)) ensures !Private(tr, x) {
      if Private(tr, x) {
        PrivatePlaces(tr, mem, x);
      }
    }
  }

  /** Besides the touched words, at most x17, x30 and the slot below the stack pointer differ. */
  predicate Within(v: View, touched: set<int>) {
    v.hidden <= touched + {X17, X30} + Words(SLOT)
  }

  /** The touched words include none of the callee and not the literal. */
  predicate Elsewhere(touched: set<int>) {
    touched !! {CALLEE, CALLEE + 4, CALLEE + 8, LITERAL, LITERAL + 4}
  }

  lemma ClobberWithin(v: View, touched: set<int>, written: set<int>)
    requires Within(v, touched) && written <= {X17} + Words(SLOT)
    ensures Within(Clobber(v, written), touched)
  {
  }

  lemma AdvanceWithin(tr: Trampoline, i: nat)
    requires i <= |tr.insts| && |tr.glue| == |tr.insts| + 1
    ensures AdvanceHides(tr, i, SP) <= {X17} + Words(SLOT)
  {
  }

  /** The call. */
  lemma SafeCall(tr: Trampoline, mem: Memory, touched: set<int>, v: View)
    requires Fits(tr, mem) && Loaded(mem) && Within(v, touched)
    ensures |tr.glue| == |tr.insts| + 1 && Safe(Stacking(), tr, v, After(mem, 0))
    ensures var v' := ViewNext(Stacking(), tr, v, After(mem, 0));
            Within(v', touched) && X30 in v'.links && v'.links[X30] == 1
  {
    hide Decode, Placed, CodeOf, Owns, Loaded, StackApart, Step, Stacking, Clobber;
    PlacedBasics(tr);
    FetchAfter(mem, 0);
    ProgramWords();
    FirstInst(tr, mem);
    StepAfter(mem, 0);
    StackIsApart(tr, mem, SP);
    assert IndexOf(tr, FUNC) == 0;
    ClobberWithin(v, touched, {X17});
  }

  /** The callee saves the link register. */
  lemma SafePush(tr: Trampoline, mem: Memory, touched: set<int>, v: View)
    requires Fits(tr, mem) && Loaded(mem) && Within(v, touched) && Elsewhere(touched) && X30 in v.links
             && v.links[X30] == 1
    ensures |tr.glue| == |tr.insts| + 1 && Safe(Stacking(), tr, v, After(mem, 1))
    ensures var v' := ViewNext(Stacking(), tr, v, After(mem, 1));
            Within(v', touched) && SLOT in v'.links && v'.links[SLOT] == 1
  {
    hide Decode, Placed, CodeOf, Owns, Loaded, StackApart, Step, Interpreted, Private, Clear;
    PlacedBasics(tr);
    FetchAfter(mem, 1);
    CalleeWords();
    StepAfter(mem, 1);
    forall x | x in Words(SLOT) ensures !Private(tr, x) {
      if Private(tr, x) { PrivatePlaces(tr, mem, x); }
    }
    PlainStack(PUSH_X30, After(mem, 1).core);
  }

  lemma PlainStack(w: U32, c: Core)
    requires !Interpreted(w)
    ensures PlainReads(Stacking(), w, c) == {} && PlainWrites(Stacking(), w, c) == StackWrites(w, c)
    ensures PlainMoves(Stacking(), w, c) == StackMoves(w, c)
  {
    hide IsAddX17, IsLoadSelf;
  }

  /** The callee restores it. */
  lemma SafePop(tr: Trampoline, mem: Memory, touched: set<int>, v: View)
    requires Fits(tr, mem) && Loaded(mem) && Within(v, touched) && Elsewhere(touched) && SLOT in v.links
             && v.links[SLOT] == 1
    ensures |tr.glue| == |tr.insts| + 1 && Safe(Stacking(), tr, v, After(mem, 2))
    ensures var v' := ViewNext(Stacking(), tr, v, After(mem, 2));
            Within(v', touched) && X30 in v'.links && v'.links[X30] == 1
  {
    hide Decode, Placed, CodeOf, Owns, Loaded, StackApart, Step, Interpreted, Private, Clear;
    PlacedBasics(tr);
    FetchAfter(mem, 2);
    CalleeWords();
    StepAfter(mem, 2);
    if Private(tr, X30) { PrivatePlaces(tr, mem, X30); }
    PlainStack(POP_X30, After(mem, 2).core);
  }

  /** The callee returns, to different addresses in the two machines. */
  lemma SafeReturnStep(tr: Trampoline, mem: Memory, touched: set<int>, v: View)
    requires Fits(tr, mem) && Loaded(mem) && Within(v, touched) && Elsewhere(touched) && X30 in v.links
             && v.links[X30] == 1
    ensures |tr.glue| == |tr.insts| + 1 && Safe(Stacking(), tr, v, After(mem, 3))
    ensures Within(ViewNext(Stacking(), tr, v, After(mem, 3)), touched)
  {
    hide Decode, Placed, CodeOf, Owns, Loaded, StackApart, Step, Clobber, AdvanceHides;
    PlacedBasics(tr);
    FetchAfter(mem, 3);
    CalleeWords();
    StackIsApart(tr, mem, SP);
    AdvanceWithin(tr, 1);
    ClobberWithin(v, touched, AdvanceHides(tr, 1, SP));
  }

  /** The literal load. */
  lemma SafeLoad(tr: Trampoline, mem: Memory, touched: set<int>, v: View)
    requires Fits(tr, mem) && Loaded(mem) && Within(v, touched) && Elsewhere(touched)
    ensures |tr.glue| == |tr.insts| + 1 && Safe(Stacking(), tr, v, After(mem, 4))
    ensures Within(ViewNext(Stacking(), tr, v, After(mem, 4)), touched)
  {
    hide Decode, Placed, CodeOf, Owns, Loaded, StackApart, Step, Clobber, Private, Stacking, Clear, AdvanceHides;
    PlacedBasics(tr);
    FetchAfter(mem, 4);
    ProgramWords();
    SecondInst(tr, mem);
    StepAfter(mem, 4);
    StackIsApart(tr, mem, SP);
    assert IndexOf(tr, FUNC + 4) == 1;
    AdvanceWithin(tr, 2);
    ClobberWithin(Passed(Stacking(), tr, 1, v, After(mem, 4).core), touched, AdvanceHides(tr, 2, SP));
  }

  /** The NOP, and the way out. */
  lemma SafeNop(tr: Trampoline, mem: Memory, touched: set<int>, v: View)
    requires Fits(tr, mem) && Loaded(mem) && Within(v, touched)
    ensures |tr.glue| == |tr.insts| + 1 && Safe(Stacking(), tr, v, After(mem, 5))
    ensures Within(ViewNext(Stacking(), tr, v, After(mem, 5)), touched)
  {
    hide Decode, Placed, CodeOf, Owns, Loaded, StackApart, Step, Clobber, Private, Stacking, Clear, AdvanceHides;
    PlacedBasics(tr);
    FetchAfter(mem, 5);
    ProgramWords();
    ThirdInst(tr, mem);
    StepAfter(mem, 5);
    StackIsApart(tr, mem, SP);
    assert IndexOf(tr, FUNC + 8) == 2;
    AdvanceWithin(tr, 3);
    ClobberWithin(Passed(Stacking(), tr, 2, v, After(mem, 5).core), touched, AdvanceHides(tr, 3, SP));
  }

  lemma SafeNext(tr: Trampoline, mem: Memory, v: View, k: nat, m: nat)
    requires Placed(tr) && |tr.glue| == |tr.insts| + 1 && Loaded(mem) && k < 6 && m > 0
    requires Safe(Stacking(), tr, v, After(mem, k))
    requires SafeRun(Stacking(), tr, ViewNext(Stacking(), tr, v, After(mem, k)), After(mem, k + 1), m - 1)
    ensures SafeRun(Stacking(), tr, v, After(mem, k), m)
    ensures ViewAfter(Stacking(), tr, v, After(mem, k), m)
         == ViewAfter(Stacking(), tr, ViewNext(Stacking(), tr, v, After(mem, k)), After(mem, k + 1), m - 1)
  {
    hide Safe, ViewNext, Placed, Step, After, Loaded;
    StepAfter(mem, k);
  }

  /** All six steps. */
  lemma SafeJourney(tr: Trampoline, mem: Memory, touched: set<int>, v: View)
    requires Fits(tr, mem) && Loaded(mem) && Within(v, touched) && Elsewhere(touched)
    ensures SafeRun(Stacking(), tr, v, After(mem, 0), 6)
    ensures |tr.glue| == |tr.insts| + 1 && Within(ViewAfter(Stacking(), tr, v, After(mem, 0), 6), touched)
  {
    hide Safe, ViewNext, Placed, Step, After, Loaded, CodeOf, Owns, Within, Elsewhere;
    SafeCall(tr, mem, touched, v);
    var v1 := ViewNext(Stacking(), tr, v, After(mem, 0));
    SafePush(tr, mem, touched, v1);
    var v2 := ViewNext(Stacking(), tr, v1, After(mem, 1));
    SafePop(tr, mem, touched, v2);
    var v3 := ViewNext(Stacking(), tr, v2, After(mem, 2));
    SafeReturnStep(tr, mem, touched, v3);
    var v4 := ViewNext(Stacking(), tr, v3, After(mem, 3));
    SafeLoad(tr, mem, touched, v4);
    var v5 := ViewNext(Stacking(), tr, v4, After(mem, 4));
    SafeNop(tr, mem, touched, v5);
    SafeNext(tr, mem, v5, 5, 1);
    SafeNext(tr, mem, v4, 4, 2);
    SafeNext(tr, mem, v3, 3, 3);
    SafeNext(tr, mem, v2, 2, 4);
    SafeNext(tr, mem, v1, 1, 5);
    SafeNext(tr, mem, v, 0, 6);
  }

  // ---------------------------------------------------------------- hooking it

  lemma PagesAreGood()
    ensures GoodMmap(PAGES) && OutsideWindow(PAGES, FUNC)
    ensures forall x :: OutsidePages(PAGES, x) <==> !(0x1_0000 <= x < 0x1_1000 || 0x2_0000 <= x < 0x2_1000)
  {
    forall x ensures OutsidePages(PAGES, x) <==> !InPage(PAGES[0], x) && !InPage(PAGES[1], x) {
    }
  }

  lemma StillLoaded(mem: Memory)
    requires forall x :: OutsidePages(PAGES, x) ==> Read32(mem, x) == Read32(PROGRAM, x)
    ensures Loaded(mem)
  {
    PagesAreGood();
  }

  lemma NearHook()
    ensures PatchSize(FUNC, HOOK) == 12
  {
  }

  lemma TouchedIsElsewhere()
    ensures Elsewhere(Touched(PAGES, FUNC, HOOK))
  {
    hide OutsidePages, PatchSize, GoodMmap, PageWords, Span, OutsideWindow;
    NearHook();
    PagesAreGood();
    forall x | x in Touched(PAGES, FUNC, HOOK) ensures x < FUNC + 12 || x >= 0x1_0000 {
    }
  }

  lemma CanBeLifted(mem: Memory)
    requires Loaded(mem)
    ensures Liftable(mem, FUNC, HOOK) && Scan(mem, FUNC, 0, PatchSize(FUNC, HOOK), []).0 == 3
  {
    hide Classify, RelatedAddress, Scan, Liftable, Read32;
    NearHook();
    ProgramWords();
    LiteralTarget();
    forall i | 0 <= i && 4 * i < 12
      ensures var code := Read32(mem, FUNC + 4 * i);
              IsDataReference(Classify(code)) ==>
                !(FUNC <= RelatedAddress(Classify(code), code, FUNC + 4 * i) < FUNC + 12)
    {
      assert i in {0, 1, 2};
    }
    ScanWithoutLiterals(mem, FUNC, 0, 12, []);
    LiftableWithoutLiterals(mem, FUNC, HOOK);
  }

  lemma FitsHooked(tr: Trampoline, mem: Memory)
    requires Placed(tr) && CodeOf(mem, tr) && tr.func == FUNC && |tr.insts| == 3
    requires forall x :: Owns(tr, x) ==> !OutsidePages(PAGES, x)
    ensures Fits(tr, mem)
  {
    hide Placed, CodeOf, Owns, OutsidePages;
    PagesAreGood();
  }

  lemma StartWithin(tr: Trampoline, touched: set<int>)
    requires |tr.glue| == |tr.insts| + 1
    ensures Within(StartView(tr, touched, SP), touched)
  {
    hide Clobber, AdvanceHides;
    AdvanceWithin(tr, 0);
    ClobberWithin(View(touched, map[]), touched, AdvanceHides(tr, 0, SP));
  }

  /** After six steps of the original, the other machine is behind the window too, with the literal in x0. */
  lemma Arrived(tr: Trampoline, mem: Memory, v: View, t: State)
    requires Fits(tr, mem) && Together(mem, tr, v, After(mem, 6), t)
    ensures t.pc == FUNC + 12 && t.core.regs[0] == 42 && t.core.sp == SP
  {
    hide Placed, CodeOf, Owns, TrampolineCode, Tracks;
  }

  /** The manager maps its first page, hooks the function, and the original, called through the address that
      `hookFunction` returns, makes its call, comes back, loads the literal and goes on behind the window. */
  method HookExample() returns (h: InlineHook, origFunc: U64, ghost t: State)
    ensures h.Valid() && Redirected(h.mem, FUNC, HOOK)
    ensures Reaches(Stacking(), State(origFunc, After(h.mem, 0).core), t)
    ensures t.pc == FUNC + 12 && t.core.regs[0] == 42 && t.core.sp == SP
  {
    hide GoodMmap, Placed, CodeOf, Owns, Loaded, Redirected, StillCallable, Liftable, Scan, Touched, Within, Elsewhere,
      SafeRun, ViewAfter, Run, StackApart, Framed, HooksOk, CursorsOk, BusyOk, PagesFrom, OutsidePages, OutsideWindow,
      Read32;
    PagesAreGood();
    h := new InlineHook(PAGES, PROGRAM);
    ghost var before := h.mem;
    StillLoaded(before);
    CanBeLifted(before);
    TouchedIsElsewhere();
    var ok;
    ghost var tr;
    ok, origFunc, tr := HookAndKeepOriginal(h, FUNC, HOOK);
    FitsHooked(tr, before);
    t := OriginalFinishes(tr, before, h.mem);
  }

  lemma OriginalFinishes(tr: Trampoline, before: Memory, after: Memory) returns (t: State)
    requires Fits(tr, before) && Loaded(before) && StillCallable(tr, Touched(PAGES, FUNC, HOOK), before, after)
    ensures Reaches(Stacking(), State(tr.entry, After(after, 0).core), t)
    ensures t.pc == FUNC + 12 && t.core.regs[0] == 42 && t.core.sp == SP
  {
    hide Placed, CodeOf, Owns, Loaded, Touched, Within, Elsewhere, SafeRun, ViewAfter, Run, StackApart, Framed,
      Together, Reaches, StartView, Stacking;
    var touched := Touched(PAGES, FUNC, HOOK);
    PlacedBasics(tr);
    TouchedIsElsewhere();
    StartWithin(tr, touched);
    var v := StartView(tr, touched, SP);
    SafeJourney(tr, before, touched, v);
    RunAfter(before, 0, 6);
    StackingIsFramed();
    StackIsApart(tr, before, SP);
    var core := After(before, 0).core;
    assert State(tr.func, core) == After(before, 0);
    t :| Reaches(Stacking(), State(tr.entry, core.(mem := after)), t)
      && Together(before, tr, ViewAfter(Stacking(), tr, v, State(tr.func, core), 6),
                  Run(Stacking(), State(tr.func, core), 6), t);
    Arrived(tr, before, ViewAfter(Stacking(), tr, v, After(before, 0), 6), t);
  }

  // ---------------------------------------------------------------- a trampoline across two pages

  const ENTRY: U64 := 0x1_0f80
  const SECOND: U64 := 0x2_0000

  /** The call fits into the first page; the rest had to go to the second. */
  const CHAINED: Trampoline := Trampoline(
    FUNC, ENTRY,
    [ Instruction(FUNC, BL_CALLEE, BranchLink, CALLEE, External, ENTRY, 0x1_0fb0),
      Instruction(FUNC + 4, LDR_X0, LdrLiteral, LITERAL, External, SECOND + 4, 0x2_0ff8),
      Instruction(FUNC + 8, NOP, NotPcRelated, 0, External, SECOND + 0x10, 0)],
    [Direct, Chain(SECOND, 0x1_0fa8), Direct, Direct], SECOND + 0x14, 0x2_0ff0)

  const PATCH: Memory := map[
    FUNC := AdrpRegister(17, FUNC, HOOK), FUNC + 4 := AddRtRnImm(17, 17, HOOK % 0x1000),
    FUNC + 8 := BranchRegister(17, false)]

  const CHAINED_PAGES: Memory := map[
    // the call and its literal
    ENTRY := LdrLiteralX(17, ENTRY, 0x1_0fb0), ENTRY + 4 := BranchRegister(17, true), 0x1_0fb0 := CALLEE,
    // the jump to the second page
    ENTRY + 8 := STR_X17_BELOW_SP, ENTRY + 12 := AdrpRegister(17, ENTRY + 12, SECOND),
    ENTRY + 16 := AddRtRnImm(17, 17, SECOND % 0x1000), ENTRY + 20 := BranchRegister(17, false),
    SECOND := LDR_X17_BELOW_SP,
    // the literal load and its literal
    SECOND + 4 := LdrLiteralX(0, SECOND + 4, 0x2_0ff8), SECOND + 8 := LdrRtRn(0, 0), 0x2_0ff8 := LITERAL,
    // the alignment, the NOP and the exit jump
    SECOND + 12 := NOP, SECOND + 16 := NOP, SECOND + 0x14 := AdrpRegister(17, SECOND + 0x14, FUNC + 12),
    SECOND + 0x18 := AddRtRnImm(17, 17, (FUNC + 12) % 0x1000), SECOND + 0x1c := BranchRegister(17, false)]

  const CHAINED_CODE: Memory := PROGRAM + PATCH + CHAINED_PAGES

  lemma ChainedTargets()
    ensures RelatedAddress(BranchLink, BL_CALLEE, FUNC) == CALLEE && RelatedAddress(NotPcRelated, NOP, FUNC + 8) == 0
    ensures CanUseAdrp(ENTRY + 8, SECOND) && CanUseAdrp(SECOND + 0x14, FUNC + 12)
  {
  }

  lemma ChainedPlaced()
    ensures Placed(CHAINED)
  {
    hide RelatedAddress, CanUseAdrp;
    ChainedTargets();
    LiteralTarget();
    forall i | 0 <= i < 3
      ensures InstPlaced(CHAINED, i) && GluePlaced(Cursor(CHAINED, i), CHAINED.glue[i], CHAINED.insts[i].newPc)
    {
      assert i in {0, 1, 2};
    }
  }

  lemma InSecondPage(x: int)
    ensures x in CHAINED_PAGES ==> Read32(CHAINED_CODE, x) == CHAINED_PAGES[x]
    ensures x >= 0x1_0000 && x !in CHAINED_PAGES ==> Read32(CHAINED_CODE, x) == 0
  {
    hide AdrpRegister, AddRtRnImm, BranchRegister, LdrLiteralX, LdrRtRn;
  }

  /** What the two blocks with literals and their literals hold. */
  lemma ChainedWords()
    ensures ENTRY in CHAINED_PAGES && CHAINED_PAGES[ENTRY] == LdrLiteralX(17, ENTRY, 0x1_0fb0)
    ensures ENTRY + 4 in CHAINED_PAGES && CHAINED_PAGES[ENTRY + 4] == BranchRegister(17, true)
    ensures 0x1_0fb0 in CHAINED_PAGES && CHAINED_PAGES[0x1_0fb0] == CALLEE && 0x1_0fb4 !in CHAINED_PAGES
    ensures SECOND + 4 in CHAINED_PAGES && CHAINED_PAGES[SECOND + 4] == LdrLiteralX(0, SECOND + 4, 0x2_0ff8)
    ensures SECOND + 8 in CHAINED_PAGES && CHAINED_PAGES[SECOND + 8] == LdrRtRn(0, 0)
    ensures 0x2_0ff8 in CHAINED_PAGES && CHAINED_PAGES[0x2_0ff8] == LITERAL && 0x2_0ffc !in CHAINED_PAGES
  {
    hide AdrpRegister, AddRtRnImm, BranchRegister, LdrLiteralX, LdrRtRn;
  }

  lemma ChainedCall(orig: Memory)
    ensures BlockCode(CHAINED_CODE, orig, CHAINED.insts, CHAINED.insts[0])
  {
    hide AdrpRegister, AddRtRnImm, BranchRegister, LdrLiteralX, LdrRtRn, CanUseAdrp, CHAINED_CODE, Read32,
      WithImm19Of2, UncondBranch, CHAINED_PAGES;
    ChainedWords();
    InSecondPage(ENTRY);
    InSecondPage(ENTRY + 4);
    InSecondPage(0x1_0fb0);
    InSecondPage(0x1_0fb4);
  }

  lemma ChainedLoad(orig: Memory)
    ensures BlockCode(CHAINED_CODE, orig, CHAINED.insts, CHAINED.insts[1])
  {
    hide AdrpRegister, AddRtRnImm, BranchRegister, LdrLiteralX, LdrRtRn, CanUseAdrp, CHAINED_CODE, Read32,
      WithImm19Of2, UncondBranch, CHAINED_PAGES;
    ChainedWords();
    InSecondPage(SECOND + 4);
    InSecondPage(SECOND + 8);
    InSecondPage(0x2_0ff8);
    InSecondPage(0x2_0ffc);
  }

  lemma ChainedNop(orig: Memory)
    ensures BlockCode(CHAINED_CODE, orig, CHAINED.insts, CHAINED.insts[2])
  {
    hide AdrpRegister, AddRtRnImm, BranchRegister, LdrLiteralX, LdrRtRn, CanUseAdrp, CHAINED_CODE, Read32;
    InSecondPage(SECOND + 16);
  }

  lemma ChainedJump()
    ensures ChainCode(CHAINED_CODE, ENTRY + 8, SECOND, 0x1_0fa8)
  {
    hide AdrpRegister, AddRtRnImm, BranchRegister, LdrLiteralX, LdrRtRn, CanUseAdrp, CHAINED_CODE, Read32;
    ChainedTargets();
    InSecondPage(ENTRY + 8);
    InSecondPage(ENTRY + 12);
    InSecondPage(ENTRY + 16);
    InSecondPage(ENTRY + 20);
    InSecondPage(SECOND);
  }

  lemma ChainedGlue(i: nat)
    requires i < 4
    ensures GlueCode(CHAINED_CODE, Cursor(CHAINED, i), CHAINED.glue[i], Landing(CHAINED, i))
  {
    hide ChainCode, CHAINED_CODE, Read32;
    ChainedJump();
    InSecondPage(SECOND + 12);
    assert i in {0, 1, 2, 3};
  }

  lemma ChainedExit()
    ensures JumpCode(CHAINED_CODE, CHAINED.exit, CanUseAdrp(CHAINED.exit, WindowEnd(CHAINED)), WindowEnd(CHAINED),
                     CHAINED.exitLiteral)
  {
    hide AdrpRegister, AddRtRnImm, BranchRegister, LdrLiteralX, LdrRtRn, CanUseAdrp, CHAINED_CODE, Read32;
    ChainedTargets();
    forall x ensures x in CHAINED_PAGES ==> Read32(CHAINED_CODE, x) == CHAINED_PAGES[x] { InSecondPage(x); }
  }

  lemma ChainedLoaded(orig: Memory)
    ensures TrampolineCode(CHAINED_CODE, orig, CHAINED)
  {
    hide BlockCode, GlueCode, JumpCode, CHAINED_CODE, CanUseAdrp;
    ChainedCall(orig);
    ChainedLoad(orig);
    ChainedNop(orig);
    forall i | 0 <= i < 3
      ensures BlockCode(CHAINED_CODE, orig, CHAINED.insts, CHAINED.insts[i])
      ensures GlueCode(CHAINED_CODE, Cursor(CHAINED, i), CHAINED.glue[i], CHAINED.insts[i].newPc)
    {
      assert i in {0, 1, 2};
      ChainedGlue(i);
    }
    ChainedGlue(3);
    ChainedExit();
  }

  lemma ChainedOwns(x: int)
    requires Placed(CHAINED) && Owns(CHAINED, x)
    ensures !OutsidePages(PAGES, x)
  {
    hide Placed, CanUseAdrp, OutsidePages, InstWords, InGlue, ExitWords, GoodMmap;
    PagesAreGood();
    if i :| 0 <= i < 3 && x in InstWords(CHAINED.insts[i]) {
      ChainedInstWords(i, x);
    } else if i :| 0 <= i <= 3 && InGlue(CHAINED, i, x) {
      ChainedGlueWords(i, x);
    } else {
      ChainedExitWords(x);
    }
  }

  lemma ChainedInstWords(i: nat, x: int)
    requires i < 3 && x in InstWords(CHAINED.insts[i])
    ensures ENTRY <= x < 0x1_1000 || SECOND <= x < 0x2_1000
  {
    assert i in {0, 1, 2};
  }

  lemma ChainedGlueWords(i: nat, x: int)
    requires Placed(CHAINED) && i <= 3 && InGlue(CHAINED, i, x)
    ensures ENTRY <= x < 0x1_1000 || SECOND <= x < 0x2_1000
  {
    hide Placed, CanUseAdrp;
    assert i in {0, 1, 2, 3};
  }

  lemma ChainedExitWords(x: int)
    requires x in ExitWords(CHAINED)
    ensures SECOND <= x < 0x2_1000
  {
    hide CanUseAdrp;
  }

  lemma ProgramLoaded()
    ensures Loaded(PROGRAM)
  {
  }

  lemma ChainedParsed()
    ensures CodeOf(PROGRAM, CHAINED)
  {
    hide Classify;
    ProgramWords();
    forall i | 0 <= i < 3 ensures Parsed(PROGRAM, FUNC, CHAINED.insts, i) {
      assert i in {0, 1, 2};
    }
  }

  lemma ChainedFits()
    ensures Fits(CHAINED, PROGRAM)
  {
    hide Placed, Owns, CodeOf, OutsidePages;
    ChainedPlaced();
    ChainedParsed();
    PagesAreGood();
    forall x | Owns(CHAINED, x) ensures 0x1_0000 <= x < 0x3_0000 {
      ChainedOwns(x);
    }
  }

  lemma PagesTouched(x: int)
    requires x in CHAINED_PAGES
    ensures 0x1_0000 <= x < 0x1_1000 || 0x2_0000 <= x < 0x2_1000
  {
    hide AdrpRegister, AddRtRnImm, BranchRegister, LdrLiteralX, LdrRtRn;
  }

  lemma OnlyTouched(x: int)
    requires x !in Touched(PAGES, FUNC, HOOK)
    ensures Read32(CHAINED_CODE, x) == Read32(PROGRAM, x)
  {
    hide AdrpRegister, AddRtRnImm, BranchRegister, LdrLiteralX, LdrRtRn, OutsidePages, PatchSize, CHAINED_PAGES,
      PROGRAM, PageWords, Span;
    NearHook();
    PagesAreGood();
    if x in CHAINED_PAGES { PagesTouched(x); }
  }

  /** The same run through the trampoline that crosses to another page after the call. */
  lemma ChainedRuns() returns (t: State)
    ensures Reaches(Stacking(), State(ENTRY, After(CHAINED_CODE, 0).core), t)
    ensures t.pc == FUNC + 12 && t.core.regs[0] == 42 && t.core.sp == SP
  {
    hide Placed, CodeOf, Owns, Loaded, Touched, Within, Elsewhere, SafeRun, ViewAfter, Run, StackApart, Framed,
      Together, Reaches, Stacking, TrampolineCode, Alike, Read32;
    var touched := Touched(PAGES, FUNC, HOOK);
    ChainedFits();
    ProgramLoaded();
    ChainedLoaded(PROGRAM);
    TouchedIsElsewhere();
    PlacedBasics(CHAINED);
    StartWithin(CHAINED, touched);
    SafeJourney(CHAINED, PROGRAM, touched, StartView(CHAINED, touched, SP));
    RunAfter(PROGRAM, 0, 6);
    StackingIsFramed();
    StackIsApart(CHAINED, PROGRAM, SP);
    var core := After(PROGRAM, 0).core;
    forall x | x !in touched ensures Read32(CHAINED_CODE, x) == Read32(core.mem, x) { OnlyTouched(x); }
    AlikeAtStart(CHAINED, touched, core, CHAINED_CODE);
    t := TrampolineRefinesFunction(Stacking(), PROGRAM, CHAINED, View(touched, map[]), After(PROGRAM, 0),
                                   State(ENTRY, core.(mem := CHAINED_CODE)), 6);
    Arrived(CHAINED, PROGRAM, ViewAfter(Stacking(), CHAINED, StartView(CHAINED, touched, SP), After(PROGRAM, 0), 6), t);
  }
}
