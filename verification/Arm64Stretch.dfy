/** How much of a function has to be lifted: no literal that the lifted instructions load may be cut in two. */
module Arm64Stretch {
  import opened Arm64Bits
  import opened Arm64Classify
  import opened Arm64Machine
  import opened Arm64Trampoline
  import opened Arm64Targets

  /** The bytes that a literal load accesses, by its opc and V fields; the unallocated combination counts as eight. */
  function AccessWidth(w: U32): nat {
    var opc, vector := w / 0x4000_0000, w / 0x400_0000 % 2 == 1;
    if opc == 0 then 4
    else if opc == 1 then 8
    else if opc == 2 then if vector then 16 else 4
    else 8
  }

  predicate LoadsLiteral(inst: Instruction) { inst.kind in {LdrLiteral, LdrswLiteral, LdrFpLiteral} }

  /** A literal load, or an address computation, behind which eight bytes are taken for data. */
  predicate RefersToData(inst: Instruction) { inst.kind == Adr || LoadsLiteral(inst) }

  /** Where the data ends that an instruction refers to. */
  function DataEnd(inst: Instruction): int {
    inst.relatePc + if inst.kind == Adr then 8 else AccessWidth(inst.code)
  }

  predicate RefersInto(inst: Instruction, from: int, to: int) {
    RefersToData(inst) && from <= inst.relatePc < to
  }

  /** The instructions are words of the window, classified, with the addresses they refer to. */
  ghost predicate Read(mem: Memory, func: U64, insts: seq<Instruction>) {
    && |insts| <= 6 && func + 24 < 0x1_0000_0000_0000_0000
    && forall i :: 0 <= i < |insts| ==>
         Parsed(mem, func, insts, i) && insts[i].relatePc == RelatedAddress(insts[i].kind, insts[i].code, func + 4 * i)
  }

  /** The split size covers the patch and all data that starts under it, and is no larger than one of these asks for. */
  ghost predicate Stretch(func: U64, insts: seq<Instruction>, patch: nat, split: nat) {
    && patch <= split
    && (forall i :: 0 <= i < |insts| && RefersInto(insts[i], func, func + patch) ==> DataEnd(insts[i]) <= func + split)
    && (split == patch || Asks(func, insts, split))
  }

  ghost predicate Asks(func: U64, insts: seq<Instruction>, split: nat) {
    exists i :: 0 <= i < |insts| && RefersToData(insts[i]) && func <= insts[i].relatePc
      && DataEnd(insts[i]) == func + split
  }

  /** What a successful request lifts: every literal that starts under the patch as a whole (an address computation may
      have up to three of its eight bytes cut), and no instruction more than the patch or some data needs. */
  ghost predicate LiftedEnough(func: U64, patch: nat, insts: seq<Instruction>) {
    var end := func + 4 * |insts|;
    && func + patch <= end
    && (forall i :: 0 <= i < |insts| && RefersInto(insts[i], func, func + patch) ==>
                      DataEnd(insts[i]) <= if LoadsLiteral(insts[i]) then end else end + 3)
    && (end > func + patch ==>
          exists i :: 0 <= i < |insts| && RefersInto(insts[i], func, end + 3) && DataEnd(insts[i]) > end - 4)
  }

  /** Why a request is refused: some data that starts behind the entry ends beyond the 24 bytes that can be lifted. */
  ghost predicate CannotBeLifted(func: U64, insts: seq<Instruction>) {
    |insts| == 6 && exists i :: 0 <= i < 6 && RefersToData(insts[i]) && func <= insts[i].relatePc
                                && DataEnd(insts[i]) >= func + 28
  }

  lemma LiteralEndAligned(func: U64, insts: seq<Instruction>, mem: Memory, i: nat)
    requires Read(mem, func, insts) && i < |insts| && func % 4 == 0 && LoadsLiteral(insts[i])
    ensures (DataEnd(insts[i]) - func) % 4 == 0
  {
    hide RelatedAddress, Parsed;
    DivUnique(func + 4 * i, 4, func / 4 + i, 0);
    LiteralMod4(insts[i].kind, insts[i].code, func + 4 * i);
    var w := AccessWidth(insts[i].code);
    DivUnique(w, 4, w / 4, 0);
    DivUnique(DataEnd(insts[i]) - func, 4, insts[i].relatePc / 4 + w / 4 - func / 4, 0);
  }

  lemma WholeQuarters(x: int, split: nat, n: nat)
    requires x % 4 == 0 && x <= split && n >= split / 4
    ensures x <= 4 * n
  {
  }

  lemma StretchSuffices(mem: Memory, func: U64, insts: seq<Instruction>, patch: nat, split: nat)
    requires Read(mem, func, insts) && Stretch(func, insts, patch, split) && func % 4 == 0
    requires |insts| >= split / 4 && 4 * (|insts| - 1) < split && patch % 4 == 0
    ensures LiftedEnough(func, patch, insts)
  {
    hide Read, AccessWidth;
    var n := |insts|;
    WholeQuarters(patch, split, n);
    forall i | 0 <= i < n && RefersInto(insts[i], func, func + patch)
      ensures DataEnd(insts[i]) <= if LoadsLiteral(insts[i]) then func + 4 * n else func + 4 * n + 3
    {
      if LoadsLiteral(insts[i]) {
        LiteralEndAligned(func, insts, mem, i);
        WholeQuarters(DataEnd(insts[i]) - func, split, n);
      }
    }
    if 4 * n > patch {
      StretchAsks(func, insts, patch, split);
    }
  }

  lemma StretchAsks(func: U64, insts: seq<Instruction>, patch: nat, split: nat)
    requires Stretch(func, insts, patch, split) && patch % 4 == 0
    requires |insts| >= split / 4 && 4 * (|insts| - 1) < split && 4 * |insts| > patch
    ensures exists i :: 0 <= i < |insts| && RefersInto(insts[i], func, func + 4 * |insts| + 3)
                        && DataEnd(insts[i]) > func + 4 * |insts| - 4
  {
    hide RefersInto, DataEnd, RefersToData;
    WholeQuarters(patch, split, |insts|);
    assert split != patch;
    var i :| 0 <= i < |insts| && RefersToData(insts[i]) && func <= insts[i].relatePc
      && DataEnd(insts[i]) == func + split;
    DataBehind(insts[i], func, func + 4 * |insts| + 3);
  }

  lemma DataBehind(inst: Instruction, from: int, to: int)
    requires RefersToData(inst) && from <= inst.relatePc && DataEnd(inst) <= to
    ensures RefersInto(inst, from, to)
  {
  }

  lemma StretchTooLong(func: U64, insts: seq<Instruction>, patch: nat, split: nat)
    requires Stretch(func, insts, patch, split) && patch <= 24
    requires |insts| < split / 4 && (|insts| == 6 || split <= 4 * |insts|)
    ensures CannotBeLifted(func, insts)
  {
    hide DataEnd, RefersToData;
    assert split >= 28;
    var i :| 0 <= i < |insts| && RefersToData(insts[i]) && func <= insts[i].relatePc
      && DataEnd(insts[i]) == func + split;
  }
}
