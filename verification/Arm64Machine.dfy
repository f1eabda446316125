/** An A64 machine with exact semantics for the instructions the relocator reads or emits. */
module Arm64Machine {
  import opened Arm64Bits
  import opened Arm64Classify
  import opened Arm64Encode

  // ---------------------------------------------------------------- state

  type Regs = s: seq<U64> | |s| == 31 witness [
    0, 0, 0, 0, 0, 0, 0, 0, 0, 0, 0, 0, 0, 0, 0, 0,
    0, 0, 0, 0, 0, 0, 0, 0, 0, 0, 0, 0, 0, 0, 0]

  /** Memory in 32-bit words at 4-aligned addresses; words never written read as zero. */
  type Memory = map<int, U32>

  datatype Core = Core(regs: Regs, sp: U64, flags: int, mem: Memory)

  datatype State = State(pc: U64, core: Core)

  function Read32(mem: Memory, a: int): U32 {
    if a in mem then mem[a] else 0
  }

  function Read64(mem: Memory, a: int): U64 {
    Read32(mem, a) + 0x1_0000_0000 * Read32(mem, a + 4)
  }

  function Write64(mem: Memory, a: int, v: U64): Memory {
    mem[a := v % 0x1_0000_0000][a + 4 := v / 0x1_0000_0000]
  }

  lemma ReadBack(mem: Memory, a: int, v: U64)
    ensures Read64(Write64(mem, a, v), a) == v
    ensures forall x :: x != a && x != a + 4 ==> Read32(Write64(mem, a, v), x) == Read32(mem, x)
  {
  }

  /** Register 31 is the zero register wherever the modelled instructions name a register. */
  function GetReg(c: Core, r: Reg): U64 {
    if r == 31 then 0 else c.regs[r]
  }

  function SetReg(c: Core, r: Reg, v: U64): Core {
    if r == 31 then c else c.(regs := c.regs[r := v])
  }

  /** The slot below the stack pointer that a page-to-page jump spills x17 to. */
  function SpillSlot(sp: U64): U64 { Wrap64(sp - 16) }

  // ---------------------------------------------------------------- decoding

  datatype Inst =
    | Plain                            // falls through, result independent of pc
    | Branch(offset: int)
    | BranchAndLink(offset: int)
    | CondBranch(offset: int)          // b.cond, cbz, cbnz
    | AdrPc(rd: Reg, offset: int)
    | AdrPage(rd: Reg, offset: int)
    | TestBranch(offset: int)          // tbz, tbnz
    | LoadLiteral(rt: Reg, offset: int) // 64-bit general register
    | LoadWord(rt: Reg, offset: int, signed: bool) // its 32-bit and sign-extending forms
    | BranchReg(rn: Reg)               // br, ret
    | BranchRegLink(rn: Reg)           // blr
    | Unmodelled                       // vector literal loads, prefetches, bc.cond, the other register branches

  function Signed(v: int, half: int): int {
    if v < half then v else v - 2 * half
  }

  function Imm19(w: U32): int { w / 0x20 % 0x8_0000 }

  function AdrImm(w: U32): int { 4 * (w / 0x20 % 0x8_0000) + w / 0x2000_0000 % 4 }

  predicate IsTestBranch(w: U32) { w / 0x200_0000 % 0x40 == 0x1b }

  predicate IsPrefetchLiteral(w: U32) { w / 0x100_0000 == 0xd8 }

  /** The encoding group of br, blr and ret, with the exception returns and the authenticated branches. */
  predicate IsRegisterBranch(w: U32) { w / 0x200_0000 == 0x6b }

  /** bc.cond: the encoding of b.cond with bit 4 set. */
  predicate IsConsistentBranch(w: U32) { w / 0x100_0000 == 0x54 && w / 16 % 2 == 1 }

  function Decode(w: U32): Inst {
    match Classify(w)
    case BranchUncond => Branch(4 * Signed(w % 0x400_0000, 0x200_0000))
    case BranchLink => BranchAndLink(4 * Signed(w % 0x400_0000, 0x200_0000))
    case BranchCond => CondBranch(4 * Signed(Imm19(w), 0x4_0000))
    case Cbnz => CondBranch(4 * Signed(Imm19(w), 0x4_0000))
    case Cbz => CondBranch(4 * Signed(Imm19(w), 0x4_0000))
    case Adrp => AdrPage(w % 0x20, 0x1000 * Signed(AdrImm(w), 0x10_0000))
    case Adr => AdrPc(w % 0x20, Signed(AdrImm(w), 0x10_0000))
    case LdrLiteral =>
      if w / 0x100_0000 == 0x58 then LoadLiteral(w % 0x20, 4 * Signed(Imm19(w), 0x4_0000))
      else LoadWord(w % 0x20, 4 * Signed(Imm19(w), 0x4_0000), false)
    case LdrswLiteral => LoadWord(w % 0x20, 4 * Signed(Imm19(w), 0x4_0000), true)
    case NotPcRelated =>
      if IsTestBranch(w) then TestBranch(4 * Signed(w / 0x20 % 0x4000, 0x2000))
      else if IsPrefetchLiteral(w) then Unmodelled
      else if w % 0x20 == 0 && (w / 0x400 == 0x3587C0 || w / 0x400 == 0x3597C0) then BranchReg(w / 0x20 % 0x20)
      else if w % 0x20 == 0 && w / 0x400 == 0x358FC0 then BranchRegLink(w / 0x20 % 0x20)
      else if IsRegisterBranch(w) || IsConsistentBranch(w) then Unmodelled
      else Plain
    case _ => Unmodelled
  }

  // ---------------------------------------------------------------- the rest of the instruction set

  /** The locations standing for registers x17 and x30 among the word addresses of a footprint. */
  const X17: int := -1
  const X30: int := -2

  /** The instructions the model does not interpret: an arbitrary effect on the core with a footprint over memory
      words, x17 and x30. `moves` gives the 64-bit locations that receive the value of another one unchanged, as in
      saving the link register and restoring it; a value that is only moved does not count as read. `cond` evaluates
      a condition code on the flags. */
  datatype Env = Env(
    step: (U32, Core) -> Core,
    readSet: (U32, Core) -> set<int>,
    writeSet: (U32, Core) -> set<int>,
    moves: (U32, Core) -> map<int, int>,
    cond: (int, int) -> bool)

  predicate IsAddX17(w: U32) { w % 0x400 == 17 + 0x20 * 17 && w / 0x40_0000 == 0x244 }

  predicate IsLoadSelf(w: U32) { w / 0x400 == 0x3E5000 && w % 0x20 == w / 0x20 % 0x20 }

  function Words(a: int): set<int> { {a, a + 4} }

  /** The footprint of a 64-bit location: a register, or two words of memory. */
  function Loc(l: int): set<int> { if l < 0 then {l} else Words(l) }

  function Value(c: Core, l: int): U64 {
    if l == X17 then c.regs[17] else if l == X30 then c.regs[30] else if l < 0 then 0 else Read64(c.mem, l)
  }

  function ExecPlain(env: Env, w: U32, c: Core): Core {
    if w == NOP then c
    else if w == STR_X17_BELOW_SP then c.(mem := Write64(c.mem, SpillSlot(c.sp), c.regs[17]))
    else if w == LDR_X17_BELOW_SP then SetReg(c, 17, Read64(c.mem, SpillSlot(c.sp)))
    else if IsAddX17(w) then SetReg(c, 17, Wrap64(c.regs[17] + w / 0x400 % 0x1000))
    else if IsLoadSelf(w) then SetReg(c, w % 0x20, Read64(c.mem, GetReg(c, w % 0x20)))
    else env.step(w, c)
  }

  function RegLoc(r: Reg): set<int> { if r == 17 then {X17} else if r == 30 then {X30} else {} }

  /** What a plain instruction reads and writes, among memory words, x17 and x30. */
  function PlainReads(env: Env, w: U32, c: Core): set<int> {
    if w == NOP then {}
    else if w == STR_X17_BELOW_SP then {X17}
    else if w == LDR_X17_BELOW_SP then Words(SpillSlot(c.sp))
    else if IsAddX17(w) then {X17}
    else if IsLoadSelf(w) then RegLoc(w % 0x20) + (if w % 0x20 == 31 then {} else Words(GetReg(c, w % 0x20)))
    else env.readSet(w, c)
  }

  function PlainWrites(env: Env, w: U32, c: Core): set<int> {
    if w == NOP then {}
    else if w == STR_X17_BELOW_SP then Words(SpillSlot(c.sp))
    else if w == LDR_X17_BELOW_SP then {X17}
    else if IsAddX17(w) then {X17}
    else if IsLoadSelf(w) then RegLoc(w % 0x20)
    else env.writeSet(w, c)
  }

  predicate Interpreted(w: U32) {
    w == NOP || w == STR_X17_BELOW_SP || w == LDR_X17_BELOW_SP || IsAddX17(w) || IsLoadSelf(w)
  }

  function PlainMoves(env: Env, w: U32, c: Core): map<int, int> {
    if Interpreted(w) then map[] else env.moves(w, c)
  }

  /** The locations that receive a hidden value. */
  function Carried(moves: map<int, int>, hidden: set<int>): set<int> {
    set d, x | d in moves && !(Loc(moves[d]) !! hidden) && x in Loc(d) :: x
  }

  /** Two cores that agree on everything except the hidden locations. */
  ghost predicate Similar(hidden: set<int>, a: Core, b: Core)
  {
    && a.sp == b.sp && a.flags == b.flags
    && (forall r :: 0 <= r < 31 && r != 17 && r != 30 ==> a.regs[r] == b.regs[r])
    && (X17 !in hidden ==> a.regs[17] == b.regs[17])
    && (X30 !in hidden ==> a.regs[30] == b.regs[30])
    && (forall x :: x !in hidden && x >= 0 ==> Read32(a.mem, x) == Read32(b.mem, x))
  }

  ghost predicate SameAt(x: int, a: Core, b: Core)
  {
    if x == X17 then a.regs[17] == b.regs[17]
    else if x == X30 then a.regs[30] == b.regs[30]
    else Read32(a.mem, x) == Read32(b.mem, x)
  }

  /** The uninterpreted instructions respect their footprints: the outcome depends on nothing hidden that they do
      not read, what they move arrives unchanged, and what they do not write keeps its value. */
  ghost predicate Framed(env: Env)
  {
    && (forall w, a, b, hidden ::
          Similar(hidden, a, b) && env.readSet(w, a) !! hidden
          ==> && Similar(hidden - env.writeSet(w, a) + Carried(env.moves(w, a), hidden), env.step(w, a), env.step(w, b))
              && env.writeSet(w, a) == env.writeSet(w, b) && env.moves(w, a) == env.moves(w, b))
    && (forall w, a, d :: d in env.moves(w, a) ==> Value(env.step(w, a), d) == Value(a, env.moves(w, a)[d]))
    && (forall w, a, x :: x !in env.writeSet(w, a) ==> SameAt(x, env.step(w, a), a))
  }

  predicate Taken(env: Env, w: U32, c: Core) {
    var op := w / 0x100_0000;
    if op == 0x54 then env.cond(w % 0x10, c.flags)
    else
      var value := GetReg(c, w % 0x20);
      var tested := if op / 0x80 == 1 then value else value % 0x1_0000_0000;
      if op % 0x80 == 0x34 then tested == 0 else tested != 0
  }

  /** tbz and tbnz test one bit of a register. */
  predicate BitTaken(w: U32, c: Core) {
    var bit := w / 0x8_0000 % 0x20 + 0x20 * (w / 0x8000_0000);
    GetReg(c, w % 0x20) / Pow2(bit) % 2 == w / 0x100_0000 % 2
  }

  /** A 32-bit word as a 64-bit register receives it. */
  function Widened(signed: bool, w: U32): U64 {
    if signed && w >= 0x8000_0000 then w + 0xffff_ffff_0000_0000 else w
  }

  // ---------------------------------------------------------------- execution

  function Fetch(s: State): U32 { Read32(s.core.mem, s.pc) }

  function Step(env: Env, s: State): State {
    var w, next := Fetch(s), Wrap64(s.pc + 4);
    match Decode(w)
    case Plain => State(next, ExecPlain(env, w, s.core))
    case Branch(offset) => State(Wrap64(s.pc + offset), s.core)
    case BranchAndLink(offset) => State(Wrap64(s.pc + offset), SetReg(s.core, 30, next))
    case CondBranch(offset) => State(if Taken(env, w, s.core) then Wrap64(s.pc + offset) else next, s.core)
    case TestBranch(offset) => State(if BitTaken(w, s.core) then Wrap64(s.pc + offset) else next, s.core)
    case AdrPc(rd, offset) => State(next, SetReg(s.core, rd, Wrap64(s.pc + offset)))
    case AdrPage(rd, offset) => State(next, SetReg(s.core, rd, Wrap64(PageStart(s.pc) + offset)))
    case LoadLiteral(rt, offset) => State(next, SetReg(s.core, rt, Read64(s.core.mem, Wrap64(s.pc + offset))))
    case LoadWord(rt, offset, signed) =>
      State(next, SetReg(s.core, rt, Widened(signed, Read32(s.core.mem, Wrap64(s.pc + offset)))))
    case BranchReg(rn) => State(GetReg(s.core, rn), s.core)
    case BranchRegLink(rn) => State(GetReg(s.core, rn), SetReg(s.core, 30, next))
    case Unmodelled => s
  }

  ghost function Run(env: Env, s: State, k: nat): State
    decreases k
  {
    if k == 0 then s else Run(env, Step(env, s), k - 1)
  }

  ghost predicate Reaches(env: Env, s: State, t: State)
  {
    exists k: nat :: Run(env, s, k) == t
  }

  lemma {:induction false} RunSplit(env: Env, s: State, j: nat, k: nat)
    ensures Run(env, s, j + k) == Run(env, Run(env, s, j), k)
    decreases j
  {
    hide Step;
    if j > 0 {
      RunSplit(env, Step(env, s), j - 1, k);
    }
  }

  lemma ReachesTransitive(env: Env, s: State, t: State, u: State)
    requires Reaches(env, s, t) && Reaches(env, t, u)
    ensures Reaches(env, s, u)
  {
    var j: nat :| Run(env, s, j) == t;
    var k: nat :| Run(env, t, k) == u;
    RunSplit(env, s, j, k);
  }

  lemma ReachesStep(env: Env, s: State)
    ensures Reaches(env, s, Step(env, s))
    ensures Reaches(env, s, s)
  {
    assert Run(env, s, 0) == s;
    assert Run(env, s, 1) == Run(env, Step(env, s), 0);
  }
}
