/** What hooking means to a running program. */
module Arm64Hooked {
  import opened Arm64Bits
  import opened Arm64Classify
  import opened Arm64Encode
  import opened Arm64Machine
  import opened Arm64EncodeProofs
  import opened Arm64Trampoline
  import opened Arm64Targets
  import opened Arm64Blocks
  import opened Arm64Simulation
  import opened Arm64Steps
  import opened Arm64Relocation
  import opened Arm64Window
  import opened Arm64Journey
  import opened Arm64Layout
  import opened Arm64InlineHook

  /** Calling a hooked function enters the hook, with nothing but x17 changed. */
  lemma CallReachesHook(env: Env, t: State, hookFunc: U64)
    requires Redirected(t.core.mem, t.pc, hookFunc) && t.pc % 4 == 0
    ensures Reaches(env, t, State(hookFunc, SetReg(t.core, 17, hookFunc)))
  {
    hide JumpCode, CanUseAdrp;
    RunJump(env, t, CanUseAdrp(t.pc, hookFunc), hookFunc, t.pc + 12);
  }

  /** Calling the original through a live trampoline: as long as the words the manager keeps busy are as the manager
      left them, the trampoline follows the unhooked function, through the calls it makes and their returns. */
  lemma OriginalRuns(env: Env, h: Hook, mem: Memory, busy: set<int>, v: View, s: State, t: State, m: nat)
    returns (t': State)
    requires Framed(env) && HookOk(h, mem, busy) && SameOn(busy, mem, t.core.mem)
    requires s.pc == h.tr.func && t.pc == h.tr.entry
    requires WindowIntact(h.orig, h.tr, s.core) && Alike(h.tr, v, s.core, t.core) && StackApart(h.tr, s.core.sp)
    requires SafeRun(env, h.tr, Clobber(v, AdvanceHides(h.tr, 0, s.core.sp)), s, m)
    ensures Reaches(env, t, t')
    ensures Together(h.orig, h.tr, ViewAfter(env, h.tr, Clobber(v, AdvanceHides(h.tr, 0, s.core.sp)), s, m),
                     Run(env, s, m), t')
    ensures !InWindowWords(h.tr, Run(env, s, m).pc) ==> t'.pc == Run(env, s, m).pc
  {
    hide Framed, Alike, StackApart, SafeRun, Run, ViewAfter, Reaches, TrampolineCode, Placed, CodeOf, WindowIntact,
      Owns, Apart, Together, Clobber, AdvanceHides;
    HookKept(h, mem, t.core.mem, busy, busy);
    PlacedBasics(h.tr);
    t' := TrampolineRefinesFunction(env, h.orig, h.tr, v, s, t, m);
  }

  // ---------------------------------------------------------------- what one call of hookFunction leaves behind

  function Span(a: int, length: nat): (r: set<int>)
    ensures forall x :: x in r <==> a <= x < a + length
    decreases length
  {
    if length == 0 then {} else {a} + Span(a + 1, length - 1)
  }

  function PageWords(mmap: seq<U64>): (r: set<int>)
    ensures forall x :: x in r <==> !OutsidePages(mmap, x)
  {
    if mmap == [] then {}
    else
      var rest := PageWords(mmap[1..]);
      assert forall x :: OutsidePages(mmap, x) <==> !InPage(mmap[0], x) && OutsidePages(mmap[1..], x) by {
        forall x ensures OutsidePages(mmap, x) <==> !InPage(mmap[0], x) && OutsidePages(mmap[1..], x) {
          OutsideFirst(mmap, x);
        }
      }
      Span(mmap[0], PAGE) + rest
  }

  lemma OutsideFirst(mmap: seq<U64>, x: int)
    requires mmap != []
    ensures OutsidePages(mmap, x) <==> !InPage(mmap[0], x) && OutsidePages(mmap[1..], x)
  {
    hide InPage;
    assert forall k :: 1 <= k < |mmap| ==> mmap[k] == mmap[1..][k - 1];
  }

  /** The words in which the memory after a call of `hookFunction` may differ from the memory before. */
  function Touched(mmap: seq<U64>, func: U64, hookFunc: U64): set<int> {
    PageWords(mmap) + Span(func, PatchSize(func, hookFunc))
  }

  /** The two machines start alike but for the touched words; the glue at the entry may spill x17. */
  function StartView(tr: Trampoline, touched: set<int>, sp: U64): View
    requires |tr.glue| == |tr.insts| + 1
  {
    Clobber(View(touched, map[]), AdvanceHides(tr, 0, sp))
  }

  /** Whatever the function does when it is called at `tr.func` in the memory `before`, calling `tr.entry` in the
      memory `after` does too, in any state and for any number of steps. */
  ghost predicate StillCallable(tr: Trampoline, touched: set<int>, before: Memory, after: Memory)
    requires Placed(tr)
  {
    PlacedBasics(tr);
    forall env, core: Core, m: nat ::
      && Framed(env) && core.mem == before && StackApart(tr, core.sp)
      && SafeRun(env, tr, StartView(tr, touched, core.sp), State(tr.func, core), m)
      ==> exists t ::
            && Reaches(env, State(tr.entry, core.(mem := after)), t)
            && Together(before, tr, ViewAfter(env, tr, StartView(tr, touched, core.sp), State(tr.func, core), m),
                        Run(env, State(tr.func, core), m), t)
  }

  lemma TouchedElsewhere(mmap: seq<U64>, func: U64, hookFunc: U64, x: int)
    requires x !in Touched(mmap, func, hookFunc)
    ensures OutsidePages(mmap, x) && !(func <= x < func + PatchSize(func, hookFunc))
  {
    hide PatchSize, OutsidePages;
  }

  lemma AlikeAtStart(tr: Trampoline, touched: set<int>, core: Core, after: Memory)
    requires forall x :: x !in touched ==> Read32(after, x) == Read32(core.mem, x)
    ensures Alike(tr, View(touched, map[]), core, core.(mem := after))
  {
    hide Read32;
  }

  lemma HookedRuns(mmap: seq<U64>, hookFunc: U64, h: Hook, after: Memory, busy: set<int>)
    requires HookOk(h, after, busy)
    requires forall x :: OutsidePages(mmap, x) && !(h.tr.func <= x < h.tr.func + PatchSize(h.tr.func, hookFunc)) ==>
                           Read32(after, x) == Read32(h.orig, x)
    ensures Placed(h.tr) && StillCallable(h.tr, Touched(mmap, h.tr.func, hookFunc), h.orig, after)
  {
    hide Framed, Alike, StackApart, SafeRun, Run, ViewAfter, Reaches, TrampolineCode, Placed, CodeOf, Owns, HookOk,
      Together, Read32, OutsidePages, PatchSize, Clobber, AdvanceHides, Touched;
    var tr, touched := h.tr, Touched(mmap, h.tr.func, hookFunc);
    HookPlaced(h, after, busy);
    PlacedBasics(tr);
    forall x | x !in touched ensures Read32(after, x) == Read32(h.orig, x) {
      TouchedElsewhere(mmap, tr.func, hookFunc, x);
    }
    forall env, core: Core, m: nat |
      && Framed(env) && core.mem == h.orig && StackApart(tr, core.sp)
      && SafeRun(env, tr, StartView(tr, touched, core.sp), State(tr.func, core), m)
      ensures exists t ::
            && Reaches(env, State(tr.entry, core.(mem := after)), t)
            && Together(h.orig, tr, ViewAfter(env, tr, StartView(tr, touched, core.sp), State(tr.func, core), m),
                        Run(env, State(tr.func, core), m), t)
    {
      AlikeAtStart(tr, touched, core, after);
      SameOnRefl(busy, after);
      var t := OriginalRuns(env, h, after, busy, View(touched, map[]), State(tr.func, core),
                            State(tr.entry, core.(mem := after)), m);
    }
  }

  /** Trampolines live in the pages of the manager. */
  lemma OwnedInPages(mmap: seq<U64>, pages: seq<U64>, pc: U64, dataEnd: U64, h: Hook, mem: Memory, busy: set<int>)
    requires HookOk(h, mem, busy) && PagesFrom(mmap, pages) && BusyOk(pages, pc, dataEnd, busy)
    ensures Placed(h.tr) && forall x :: Owns(h.tr, x) ==> !OutsidePages(mmap, x)
  {
    hide HookOk, Placed, Owns, PagesFrom, BusyOk, OutsidePages;
    HookPlaced(h, mem, busy);
    forall x | Owns(h.tr, x) ensures !OutsidePages(mmap, x) {
      if OutsidePages(mmap, x) {
        BusyInside(mmap, pages, pc, dataEnd, busy, x);
      }
    }
  }

  lemma HookCode(h: Hook, mem: Memory, busy: set<int>)
    requires HookOk(h, mem, busy)
    ensures CodeOf(h.orig, h.tr)
  {
    hide CodeOf, Placed, TrampolineCode, Owns, Apart;
  }

  /** `hookFunction` as its caller sees it: calling the function enters the hook, and calling the address it returns
      does what the function did. */
  method HookAndKeepOriginal(h: InlineHook, func: U64, hookFunc: U64)
    returns (ok: bool, origFunc: U64, ghost tr: Trampoline)
    requires h.Valid() && (func != 0 ==> h.Hookable(func) && h.HasSupply())
    modifies h
    ensures h.Valid()
    ensures ok <==> func != 0 && Liftable(old(h.mem), func, hookFunc)
    ensures ok ==>
              && tr.func == func && tr.entry == origFunc && Redirected(h.mem, func, hookFunc)
              && Placed(tr) && StillCallable(tr, Touched(h.mmap, func, hookFunc), old(h.mem), h.mem)
              && |tr.insts| == Scan(old(h.mem), func, 0, PatchSize(func, hookFunc), []).0 && CodeOf(old(h.mem), tr)
              && forall x :: Owns(tr, x) ==> !OutsidePages(h.mmap, x)
  {
    hide HookOk, CodeOf, Owns, Scan, Redirected, Liftable, StillCallable, GoodMmap, PagesFrom, CursorsOk, BusyOk,
      Placed, OutsidePages, Read32, PatchSize, Touched, OutsideWindow, Disjoint;
    ok, origFunc, tr := h.HookFunction(func, hookFunc);
    if ok {
      assert h.hooks[|h.hooks| - 1] == Hook(tr, old(h.mem));
      HookedRuns(h.mmap, hookFunc, Hook(tr, old(h.mem)), h.mem, h.busy);
      HookCode(Hook(tr, old(h.mem)), h.mem, h.busy);
      OwnedInPages(h.mmap, h.allocAddress, h.currentPcStart, h.currentDataEnd, Hook(tr, old(h.mem)), h.mem, h.busy);
    }
  }

  /** A branch within ±2^27 survives encoding and the visitor's decoding, for every 4-aligned displacement. */
  lemma BranchRoundTrip(pc: U64, target: U64)
    requires -0x800_0000 <= target - pc < 0x800_0000 && (target - pc) % 4 == 0
    ensures Classify(UncondBranch(pc, target)) == BranchUncond
    ensures RelatedAddress(BranchUncond, UncondBranch(pc, target), pc) == target
  {
    hide UncondBranch, RelatedAddress, Classify;
    var w := UncondBranch(pc, target);
    DecodeUncondBranch(pc, target);
    ClassOfBranch(w);
    BranchAddress(w, pc);
    WrapSame(target);
  }

  lemma ClassOfBranch(w: U32)
    requires Decode(w).Branch?
    ensures Classify(w) == BranchUncond
  {
    hide Classify;
  }

  /** Test-and-branch instructions are not recognised, so they are copied verbatim: not taken, the copy falls through
      like the original; taken, it arrives at the original target if and only if it sits at the original address. */
  lemma TestBranchCopied(env: Env, s: State, t: State)
    requires IsTestBranch(Fetch(s)) && Fetch(t) == Fetch(s) && BitTaken(Fetch(s), s.core) == BitTaken(Fetch(s), t.core)
    ensures Classify(Fetch(s)) == NotPcRelated
    ensures BitTaken(Fetch(s), s.core) ==> (Step(env, t).pc == Step(env, s).pc <==> t.pc == s.pc)
    ensures !BitTaken(Fetch(s), s.core) ==> Step(env, s).pc == Wrap64(s.pc + 4) && Step(env, t).pc == Wrap64(t.pc + 4)
  {
    hide BitTaken, Fetch, Decode, Classify, Wrap64;
    TestBranchDecodes(Fetch(s));
    SameDistance(t.pc, s.pc, Decode(Fetch(s)).offset);
  }

  lemma TestBranchDecodes(w: U32)
    requires IsTestBranch(w)
    ensures Classify(w) == NotPcRelated && Decode(w).TestBranch?
  {
    var op := w / 0x100_0000;
    DivUnique(op, 2, w / 0x200_0000, w % 0x200_0000 / 0x100_0000);
    assert op in {0x36, 0x37, 0xb6, 0xb7};
  }

  lemma SameDistance(a: U64, b: U64, offset: int)
    ensures Wrap64(a + offset) == Wrap64(b + offset) <==> a == b
  {
  }
}
