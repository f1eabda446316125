/** Running a trampoline does what running the lifted window did. */
module Arm64Simulation {
  import opened Arm64Bits
  import opened Arm64Classify
  import opened Arm64Encode
  import opened Arm64Machine
  import opened Arm64Trampoline

  // ---------------------------------------------------------------- footprints

  function CodeWords(p: int, length: nat): set<int> {
    {p} + (if length > 4 then {p + 4} else {}) + (if length > 8 then {p + 8, p + 12} else {})
  }

  /** The words a block and its literal occupy. */
  function InstWords(inst: Instruction): set<int> {
    CodeWords(inst.newPc, BlockLength(inst.kind)) + (if inst.kind == NotPcRelated then {} else Words(inst.dataAddr))
  }

  function JumpWords(p: int, near: bool, literal: int): set<int> {
    {p, p + 4, p + 8} + (if near then {} else Words(literal))
  }

  function GlueWords(from: U64, glue: Glue, to: int): set<int> {
    match glue
    case Direct => if to == from then {} else {from}
    case Chain(page, literal) =>
      {from} + JumpWords(from + 4, CanUseAdrp(from, page), literal)
      + {page} + (if to == page + 4 then {} else {page + 4})
  }

  /** Where the glue in front of block i (or of the exit jump) leads. */
  function Landing(tr: Trampoline, i: nat): U64
    requires i <= |tr.insts|
  {
    if i < |tr.insts| then tr.insts[i].newPc else tr.exit
  }

  function GlueWordsAt(tr: Trampoline, i: nat): set<int>
    requires i <= |tr.insts| && |tr.glue| == |tr.insts| + 1
    requires 0 <= Cursor(tr, i) < 0x1_0000_0000_0000_0000
  {
    GlueWords(Cursor(tr, i), tr.glue[i], Landing(tr, i))
  }

  function ExitWords(tr: Trampoline): set<int>
    requires 0 <= WindowEnd(tr) < 0x1_0000_0000_0000_0000
  {
    JumpWords(tr.exit, CanUseAdrp(tr.exit, WindowEnd(tr)), tr.exitLiteral)
  }

  /** x is a word of code or data that the trampoline relies on. */
  ghost predicate Owns(tr: Trampoline, x: int)
    requires Placed(tr)
  {
    || (exists i :: 0 <= i < |tr.insts| && x in InstWords(tr.insts[i]))
    || (exists i :: 0 <= i <= |tr.insts| && InGlue(tr, i, x))
    || x in ExitWords(tr)
  }

  predicate InGlue(tr: Trampoline, i: nat, x: int)
    requires Placed(tr) && i <= |tr.insts|
  {
    CursorPlaced(tr, i);
    x in GlueWordsAt(tr, i)
  }

  lemma CursorPlaced(tr: Trampoline, i: nat)
    requires Placed(tr) && i <= |tr.insts|
    ensures GluePlaced(Cursor(tr, i), tr.glue[i], Landing(tr, i))
    ensures 0 <= Cursor(tr, i) && Cursor(tr, i) + 16 < 0x1_0000_0000_0000_0000
  {
    hide InstPlaced;
    if i < |tr.insts| {
      assert InstPlaced(tr, i) && GluePlaced(Cursor(tr, i), tr.glue[i], tr.insts[i].newPc);
    }
  }

  predicate InWindowWords(tr: Trampoline, x: int) { tr.func <= x < WindowEnd(tr) }

  /** The locations code depends on: the lifted window and the trampoline itself. */
  ghost predicate Private(tr: Trampoline, x: int)
    requires Placed(tr)
  {
    InWindowWords(tr, x) || Owns(tr, x)
  }

  // ---------------------------------------------------------------- a trampoline survives writes elsewhere

  lemma JumpCodeStable(m: Memory, m': Memory, p: U64, near: bool, target: U64, literal: U64)
    requires p + 8 < 0x1_0000_0000_0000_0000 && JumpCode(m, p, near, target, literal)
    requires forall x :: x in JumpWords(p, near, literal) ==> Read32(m, x) == Read32(m', x)
    ensures JumpCode(m', p, near, target, literal)
  {
    hide AdrpRegister, AddRtRnImm, BranchRegister, LdrLiteralX, UncondBranch;
  }

  lemma GlueCodeStable(m: Memory, m': Memory, from: U64, glue: Glue, to: int)
    requires GlueCode(m, from, glue, to)
    requires forall x :: x in GlueWords(from, glue, to) ==> Read32(m, x) == Read32(m', x)
    ensures GlueCode(m', from, glue, to)
  {
    hide AdrpRegister, AddRtRnImm, BranchRegister, LdrLiteralX, UncondBranch, CanUseAdrp, JumpCode;
    if glue.Chain? {
      JumpCodeStable(m, m', from + 4, CanUseAdrp(from, glue.page), glue.page, glue.literal);
    }
  }

  lemma BlockCodeStable(m: Memory, m': Memory, orig: Memory, insts: seq<Instruction>, inst: Instruction)
    requires BlockCode(m, orig, insts, inst)
    requires forall x :: x in InstWords(inst) ==> Read32(m, x) == Read32(m', x)
    ensures BlockCode(m', orig, insts, inst)
  {
    hide AdrpRegister, AddRtRnImm, BranchRegister, LdrLiteralX, UncondBranch, LdrRtRn, WithImm19Of2, LiteralValue;
  }

  lemma TrampolineStable(m: Memory, m': Memory, orig: Memory, tr: Trampoline)
    requires Placed(tr) && TrampolineCode(m, orig, tr)
    requires forall x :: Owns(tr, x) ==> Read32(m, x) == Read32(m', x)
    ensures TrampolineCode(m', orig, tr)
  {
    hide BlockCode, GlueCode, JumpCode, InstPlaced, GluePlaced, InstWords, GlueWords, JumpWords, CanUseAdrp;
    forall i | 0 <= i < |tr.insts| ensures BlockCode(m', orig, tr.insts, tr.insts[i]) {
      BlockCodeStable(m, m', orig, tr.insts, tr.insts[i]);
    }
    forall i | 0 <= i <= |tr.insts| ensures GlueCode(m', Cursor(tr, i), tr.glue[i], Landing(tr, i)) {
      CursorPlaced(tr, i);
      forall x | x in GlueWordsAt(tr, i) ensures Read32(m, x) == Read32(m', x) {
        assert InGlue(tr, i, x);
      }
      GlueCodeStable(m, m', Cursor(tr, i), tr.glue[i], Landing(tr, i));
    }
    assert GlueCode(m', Cursor(tr, |tr.insts|), tr.glue[|tr.insts|], Landing(tr, |tr.insts|));
    JumpCodeStable(m, m', tr.exit, CanUseAdrp(tr.exit, WindowEnd(tr)), WindowEnd(tr), tr.exitLiteral);
  }
}
