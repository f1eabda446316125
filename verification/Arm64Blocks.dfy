/** What each emitted instruction sequence does when the machine runs it. */
module Arm64Blocks {
  import opened Arm64Bits
  import opened Arm64Classify
  import opened Arm64Encode
  import opened Arm64Machine
  import opened Arm64EncodeProofs
  import opened Arm64Trampoline

  lemma WrapSame(x: int)
    requires 0 <= x < 0x1_0000_0000_0000_0000
    ensures Wrap64(x) == x
  {
  }

  lemma PageSplit(x: U64)
    ensures PageStart(x) + x % 0x1000 == x && x % 0x1000 % 0x1000 == x % 0x1000
  {
  }

  // ---------------------------------------------------------------- single emitted words

  lemma RunLdrLiteral(env: Env, t: State, rt: Reg, d: U64)
    requires Near(t.pc, d) && t.pc + 4 < 0x1_0000_0000_0000_0000
    requires Fetch(t) == LdrLiteralX(rt, t.pc, d)
    ensures Step(env, t) == State(t.pc + 4, SetReg(t.core, rt, Read64(t.core.mem, d)))
  {
    hide Classify, LdrLiteralX, Decode, ExecPlain, Taken, Read64;
    DecodeLdrLiteral(rt, t.pc, d);
    WrapSame(t.pc + 4);
    WrapSame(t.pc + (d - t.pc));
  }

  lemma RunBranchRegister(env: Env, t: State, rt: Reg, link: bool)
    requires t.pc + 4 < 0x1_0000_0000_0000_0000
    requires Fetch(t) == BranchRegister(rt, link)
    ensures Step(env, t) == State(GetReg(t.core, rt), if link then SetReg(t.core, 30, t.pc + 4) else t.core)
  {
    hide Decode, BranchRegister;
    DecodeBranchRegister(rt, link);
  }

  lemma RunNop(env: Env, t: State)
    requires t.pc + 4 < 0x1_0000_0000_0000_0000 && Fetch(t) == NOP
    ensures Step(env, t) == State(t.pc + 4, t.core)
  {
    hide Decode;
    FixedWords();
  }

  lemma RunSpill(env: Env, t: State)
    requires t.pc + 4 < 0x1_0000_0000_0000_0000 && Fetch(t) == STR_X17_BELOW_SP
    ensures Step(env, t)
         == State(t.pc + 4, t.core.(mem := Write64(t.core.mem, SpillSlot(t.core.sp), t.core.regs[17])))
  {
    hide Decode;
    FixedWords();
  }

  lemma RunReload(env: Env, t: State)
    requires t.pc + 4 < 0x1_0000_0000_0000_0000 && Fetch(t) == LDR_X17_BELOW_SP
    ensures Step(env, t) == State(t.pc + 4, SetReg(t.core, 17, Read64(t.core.mem, SpillSlot(t.core.sp))))
  {
    hide Decode;
    FixedWords();
  }

  lemma RunAdrp(env: Env, t: State, target: U64)
    requires t.pc + 4 < 0x1_0000_0000_0000_0000 && CanUseAdrp(t.pc, target)
    requires Fetch(t) == AdrpRegister(17, t.pc, target)
    ensures Step(env, t) == State(t.pc + 4, SetReg(t.core, 17, PageStart(target)))
  {
    hide Decode, AdrpRegister, CanUseAdrp, PageStart, ExecPlain, Taken, Read64, Wrap64;
    DecodeAdrp(17, t.pc, target);
    WrapSame(PageStart(t.pc) + (PageStart(target) - PageStart(t.pc)));
    WrapSame(t.pc + 4);
  }

  lemma RunAddX17(env: Env, t: State, target: U64)
    requires t.pc + 4 < 0x1_0000_0000_0000_0000 && t.core.regs[17] == PageStart(target)
    requires Fetch(t) == AddRtRnImm(17, 17, target % 0x1000)
    ensures Step(env, t) == State(t.pc + 4, SetReg(t.core, 17, target))
  {
    hide Decode, AddRtRnImm, IsAddX17, Wrap64, Taken, Read64, PageStart;
    var low := target % 0x1000;
    DecodeAddX17(low);
    PageSplit(target);
    WrapSame(t.pc + 4);
    WrapSame(PageStart(target) + low);
  }

  lemma RunLdrSelf(env: Env, t: State, rt: Reg)
    requires t.pc + 4 < 0x1_0000_0000_0000_0000
    requires Fetch(t) == LdrRtRn(rt, rt)
    ensures Step(env, t) == State(t.pc + 4, SetReg(t.core, rt, Read64(t.core.mem, GetReg(t.core, rt))))
  {
    hide Decode, LdrRtRn, IsLoadSelf, IsAddX17;
    DecodeLdrRtRn(rt);
  }

  // ---------------------------------------------------------------- sequences

  lemma Two(env: Env, s: State)
    ensures Reaches(env, s, Step(env, Step(env, s)))
  {
    ReachesStep(env, s);
    ReachesStep(env, Step(env, s));
    ReachesTransitive(env, s, Step(env, s), Step(env, Step(env, s)));
  }

  function Link(c: Core, link: bool, pc: U64): Core {
    if link then SetReg(c, 30, pc) else c
  }

  /** `ldr x17, =literal; br/blr x17`. */
  lemma RunLiteralJump(env: Env, t: State, d: U64, link: bool)
    requires Near(t.pc, d) && t.pc + 8 < 0x1_0000_0000_0000_0000
    requires Fetch(t) == LdrLiteralX(17, t.pc, d)
    requires Read32(t.core.mem, t.pc + 4) == BranchRegister(17, link)
    ensures var v := Read64(t.core.mem, d);
            Reaches(env, t, State(v, Link(SetReg(t.core, 17, v), link, t.pc + 8)))
  {
    hide LdrLiteralX, BranchRegister, Decode;
    RunLdrLiteral(env, t, 17, d);
    RunBranchRegister(env, Step(env, t), 17, link);
    Two(env, t);
  }

  /** `adrp; add` leaves exactly the target in x17, and `br` goes there. */
  lemma RunPageJump(env: Env, t: State, target: U64)
    requires t.pc + 12 < 0x1_0000_0000_0000_0000 && CanUseAdrp(t.pc, target)
    requires Fetch(t) == AdrpRegister(17, t.pc, target)
    requires Read32(t.core.mem, t.pc + 4) == AddRtRnImm(17, 17, target % 0x1000)
    requires Read32(t.core.mem, t.pc + 8) == BranchRegister(17, false)
    ensures Reaches(env, t, State(target, SetReg(t.core, 17, target)))
  {
    hide Decode, AdrpRegister, AddRtRnImm, BranchRegister, CanUseAdrp, Step;
    RunAdrp(env, t, target);
    var t1 := Step(env, t);
    RunAddX17(env, t1, target);
    var t2 := Step(env, t1);
    RunBranchRegister(env, t2, 17, false);
    Two(env, t);
    ReachesStep(env, t2);
    ReachesTransitive(env, t, t2, Step(env, t2));
    assert SetReg(SetReg(t.core, 17, PageStart(target)), 17, target) == SetReg(t.core, 17, target);
  }

  lemma RunJump(env: Env, t: State, near: bool, target: U64, d: U64)
    requires t.pc + 12 < 0x1_0000_0000_0000_0000
    requires near ==> CanUseAdrp(t.pc, target)
    requires Near(t.pc, d) && JumpCode(t.core.mem, t.pc, near, target, d)
    ensures Reaches(env, t, State(target, SetReg(t.core, 17, target)))
  {
    hide Decode, AdrpRegister, AddRtRnImm, BranchRegister, CanUseAdrp, LdrLiteralX;
    if near {
      RunPageJump(env, t, target);
    } else {
      RunLiteralJump(env, t, d, false);
    }
  }
}
