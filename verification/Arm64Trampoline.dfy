/** What a finished trampoline looks like in memory. */
module Arm64Trampoline {
  import opened Arm64Bits
  import opened Arm64Classify
  import opened Arm64Encode
  import opened Arm64Machine

  datatype Relate = External | InWindow(index: nat)

  /** A lifted instruction: where it was, what it refers to, and where it and its literal went. */
  datatype Instruction = Instruction(
    pc: U64, code: U32, kind: Kind, relatePc: U64, relate: Relate, newPc: U64, dataAddr: U64)

  /** What lies between the end of one block and the start of the next: perhaps a jump to a fresh page (with the
      address its literal goes to), then perhaps one alignment NOP. */
  datatype Glue = Direct | Chain(page: U64, literal: U64)

  /** `glue[i]` leads to block i, the last one to the exit jump. */
  datatype Trampoline = Trampoline(
    func: U64, entry: U64, insts: seq<Instruction>, glue: seq<Glue>, exit: U64, exitLiteral: U64)

  function BlockLength(kind: Kind): nat {
    match kind
    case BranchUncond => 8
    case BranchLink => 8
    case BranchCond => 16
    case Cbnz => 16
    case Cbz => 16
    case Tbnz => 16
    case Tbz => 16
    case Adrp => 4
    case Adr => 4
    case LdrLiteral => 8
    case LdrswLiteral => 8
    case LdrFpLiteral => 8
    case NotPcRelated => 4
  }

  function BlockEnd(inst: Instruction): int { inst.newPc + BlockLength(inst.kind) }

  /** Where block i's predecessor ends; for the first block this is the trampoline's entry. */
  function Cursor(tr: Trampoline, i: nat): int
    requires i <= |tr.insts|
  {
    if i == 0 then tr.entry else BlockEnd(tr.insts[i - 1])
  }

  /** The address `visitPcRelatedInst` computes. Literal loads are not sign-extended. */
  function RelatedAddress(kind: Kind, code: U32, pc: U64): U64 {
    match kind
    case BranchUncond => Wrap64(SignExtended(code % 0x400_0000 * 4, 0x800_0000) + pc)
    case BranchLink => Wrap64(SignExtended(code % 0x400_0000 * 4, 0x800_0000) + pc)
    case BranchCond => Wrap64(SignExtended(Imm19(code) * 4, 0x10_0000) + pc)
    case Cbnz => Wrap64(SignExtended(Imm19(code) * 4, 0x10_0000) + pc)
    case Cbz => Wrap64(SignExtended(Imm19(code) * 4, 0x10_0000) + pc)
    case Tbnz => Wrap64(SignExtended(code / 0x20 % 0x4000 * 4, 0x8000) + pc)
    case Tbz => Wrap64(SignExtended(code / 0x20 % 0x4000 * 4, 0x8000) + pc)
    case Adrp => Wrap64(SignExtended(AdrImm(code) * 0x1000, 0x1_0000_0000) + PageStart(pc))
    case Adr => Wrap64(SignExtended(AdrImm(code), 0x10_0000) + pc)
    case LdrLiteral => Wrap64(pc + Imm19(code) * 4)
    case LdrswLiteral => Wrap64(pc + Imm19(code) * 4)
    case LdrFpLiteral => Wrap64(pc + Imm19(code) * 4)
    case NotPcRelated => 0
  }

  /** The address a relocated branch or address computation must use. */
  function Destination(insts: seq<Instruction>, inst: Instruction): U64 {
    if Lifted(insts, inst) then insts[inst.relate.index].newPc else inst.relatePc
  }

  /** The address an instruction refers to was itself lifted. */
  predicate Lifted(insts: seq<Instruction>, inst: Instruction) {
    inst.relate.InWindow? && inst.relate.index < |insts|
  }

  /** What the literal of a block holds. */
  function LiteralValue(orig: Memory, insts: seq<Instruction>, inst: Instruction): U64 {
    if IsLiteralLoad(inst.kind) then
      if Lifted(insts, inst) then Read64(orig, insts[inst.relate.index].pc) else inst.relatePc
    else Destination(insts, inst)
  }

  predicate IsCondBranch(kind: Kind) { kind in {BranchCond, Cbnz, Cbz} }

  predicate IsBranch(kind: Kind) { kind in {BranchUncond, BranchLink} }

  predicate IsLiteralLoad(kind: Kind) { kind in {LdrLiteral, LdrswLiteral, LdrFpLiteral} }

  /** A block as `transformInstList` writes it. `orig` is the memory the window was lifted from. */
  predicate BlockCode(mem: Memory, orig: Memory, insts: seq<Instruction>, inst: Instruction) {
    && inst.newPc + 16 < 0x1_0000_0000_0000_0000
    && BlockWords(mem, insts, inst)
    && (inst.kind != NotPcRelated ==> Read64(mem, inst.dataAddr) == LiteralValue(orig, insts, inst))
  }

  predicate BlockWords(mem: Memory, insts: seq<Instruction>, inst: Instruction)
    requires inst.newPc + 16 < 0x1_0000_0000_0000_0000
  {
    var p, d, rt := inst.newPc, inst.dataAddr, inst.code % 0x20;
    if inst.kind == NotPcRelated then
      Read32(mem, p) == inst.code
    else if IsBranch(inst.kind) then
      && Read32(mem, p) == LdrLiteralX(17, p, d)
      && Read32(mem, p + 4) == BranchRegister(17, inst.kind == BranchLink)
    else if IsCondBranch(inst.kind) then
      && Read32(mem, p) == WithImm19Of2(inst.code)
      && Read32(mem, p + 4) == UncondBranch(p + 4, p + 16)
      && Read32(mem, p + 8) == LdrLiteralX(17, p + 8, d)
      && Read32(mem, p + 12) == BranchRegister(17, false)
    else if inst.kind in {Adr, Adrp} then
      Read32(mem, p) == LdrLiteralX(rt, p, d)
    else if IsLiteralLoad(inst.kind) then
      && Read32(mem, p) == LdrLiteralX(rt, p, d)
      && Read32(mem, p + 4) == if Lifted(insts, inst) then NOP else LdrRtRn(rt, rt)
    else true
  }

  predicate NopUpTo(mem: Memory, from: int, to: int) {
    to == from || (to == from + 4 && Read32(mem, from) == NOP)
  }

  /** The jump from a full page to a fresh one, through x17 with its value kept below the stack pointer. */
  predicate ChainCode(mem: Memory, from: U64, page: U64, literal: U64)
    requires from + 16 < 0x1_0000_0000_0000_0000
  {
    && Read32(mem, from) == STR_X17_BELOW_SP
    && JumpCode(mem, from + 4, CanUseAdrp(from, page), page, literal)
    && Read32(mem, page) == LDR_X17_BELOW_SP
  }

  /** A three-word jump through x17: adrp/add/br, or a literal load, br and a guard branch. */
  predicate JumpCode(mem: Memory, p: U64, near: bool, target: U64, literal: U64)
    requires p + 8 < 0x1_0000_0000_0000_0000
  {
    if near then
      && Read32(mem, p) == AdrpRegister(17, p, target)
      && Read32(mem, p + 4) == AddRtRnImm(17, 17, target % 0x1000)
      && Read32(mem, p + 8) == BranchRegister(17, false)
    else
      && Read32(mem, p) == LdrLiteralX(17, p, literal)
      && Read32(mem, p + 4) == BranchRegister(17, false)
      && Read32(mem, p + 8) == UncondBranch(8, 0)
      && Read64(mem, literal) == target
  }

  predicate GlueCode(mem: Memory, from: int, glue: Glue, to: int) {
    && 0 <= from && from + 16 < 0x1_0000_0000_0000_0000
    && match glue
    case Direct => NopUpTo(mem, from, to)
    case Chain(page, literal) => ChainCode(mem, from, page, literal) && NopUpTo(mem, page + 4, to)
  }

  // ---------------------------------------------------------------- placement

  /** A literal within reach of a 64-bit literal load at p. */
  predicate Near(p: int, d: int) { p <= d < p + 0x1000 && (d - p) % 4 == 0 }

  predicate GluePlaced(from: int, glue: Glue, to: int) {
    && 0 <= from && from + 16 < 0x1_0000_0000_0000_0000 && from % 4 == 0
    && to % 4 == 0
    && (glue.Chain? ==>
          && glue.page % 0x1000 == 0 && glue.page + 0x1000 <= 0x1_0000_0000_0000_0000
          && from / 0x1000 == (from + 4) / 0x1000
          && Near(from + 4, glue.literal))
  }

  predicate InstPlaced(tr: Trampoline, i: nat)
    requires i < |tr.insts|
  {
    var inst := tr.insts[i];
    && inst.pc == tr.func + 4 * i
    && inst.newPc % 4 == 0 && inst.newPc + 16 < 0x1_0000_0000_0000_0000
    && (inst.kind != NotPcRelated ==> Near(inst.newPc, inst.dataAddr) && BlockEnd(inst) <= inst.dataAddr)
    && inst.relatePc == RelatedAddress(inst.kind, inst.code, inst.pc)
    && inst.relate == (if tr.func <= inst.relatePc < WindowEnd(tr)
                       then InWindow((inst.relatePc - tr.func) / 4) else External)
  }

  function WindowEnd(tr: Trampoline): int { tr.func + 4 * |tr.insts| }

  predicate Placed(tr: Trampoline) {
    && 0 < tr.func && tr.func % 4 == 0
    && 0 < |tr.insts| <= 6 && tr.func + 24 < 0x1_0000_0000_0000_0000
    && |tr.glue| == |tr.insts| + 1
    && tr.exit % 4 == 0 && tr.exit + 16 < 0x1_0000_0000_0000_0000
    && Near(tr.exit, tr.exitLiteral)
    && (forall i :: 0 <= i < |tr.insts| ==>
          InstPlaced(tr, i) && GluePlaced(Cursor(tr, i), tr.glue[i], tr.insts[i].newPc))
    && GluePlaced(Cursor(tr, |tr.insts|), tr.glue[|tr.insts|], tr.exit)
  }

  predicate TrampolineCode(mem: Memory, orig: Memory, tr: Trampoline) {
    && |tr.glue| == |tr.insts| + 1
    && tr.exit + 16 < 0x1_0000_0000_0000_0000 && 0 <= WindowEnd(tr) < 0x1_0000_0000_0000_0000
    && (forall i :: 0 <= i < |tr.insts| ==>
          BlockCode(mem, orig, tr.insts, tr.insts[i]) && GlueCode(mem, Cursor(tr, i), tr.glue[i], tr.insts[i].newPc))
    && GlueCode(mem, Cursor(tr, |tr.insts|), tr.glue[|tr.insts|], tr.exit)
    && JumpCode(mem, tr.exit, CanUseAdrp(tr.exit, WindowEnd(tr)), WindowEnd(tr), tr.exitLiteral)
  }

  predicate IsDataReference(kind: Kind) { kind == Adr || IsLiteralLoad(kind) }

  /** One of the first i instructions refers to the word at `pc` as data. */
  predicate LoadedAsData(insts: seq<Instruction>, i: nat, pc: int)
    requires i <= |insts|
  {
    exists j :: 0 <= j < i && IsDataReference(insts[j].kind) && insts[j].relatePc == pc
  }

  /** Instruction i carries its word of the window, and the word's class unless an earlier one loads it as data. */
  predicate Parsed(orig: Memory, func: U64, insts: seq<Instruction>, i: nat)
    requires i < |insts|
  {
    && insts[i].code == Read32(orig, func + 4 * i)
    && insts[i].kind == if LoadedAsData(insts, i, func + 4 * i) then NotPcRelated else Classify(insts[i].code)
  }

  ghost predicate CodeOf(orig: Memory, tr: Trampoline)
  {
    forall i :: 0 <= i < |tr.insts| ==> Parsed(orig, tr.func, tr.insts, i)
  }
}
