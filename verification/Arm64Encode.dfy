/** The instruction encoders of the hook library: each bit-field of `union_code` by its place value. */
module Arm64Encode {
  import opened Arm64Bits

  const NOP: U32 := 0xd503201f
  const STR_X17_BELOW_SP: U32 := 0xf81f03f1 // stur x17, [sp, #-16]
  const LDR_X17_BELOW_SP: U32 := 0xf85f03f1 // ldur x17, [sp, #-16]

  /** Registers as the encoders take them: a 5-bit field. */
  type Reg = r: int | 0 <= r < 32

  function PageStart(x: U64): (p: U64) { x - x % 0x1000 }

  predicate CanUseAdrp(pc: U64, target: U64) {
    var offset := if target < pc then Wrap64(PageStart(pc) - PageStart(target))
                  else Wrap64(PageStart(target) - PageStart(pc));
    offset < 0x1_0000_0000
  }

  /** rt:5, immhi:19, op2:5 = 0x10, immlo:2, op:1 = 1. */
  function AdrpRegister(rt: Reg, pc: U64, target: U64): U32 {
    var imm := Wrap64(PageStart(target) - PageStart(pc)) / 0x1000 % 0x1_0000_0000;
    rt + 0x20 * (imm / 4 % 0x8_0000) + 0x1000_0000 + 0x2000_0000 * (imm % 4) + 0x8000_0000
  }

  /** rt:5, imm19:19, op:8 = 0x58. */
  function LdrLiteralX(rt: Reg, pc: U64, target: U64): U32 {
    rt + 0x20 * (Wrap64(target - pc) / 4 % 0x8_0000) + 0x5800_0000
  }

  /** rt:5, rn:5, op:22 = 0x3E5000. */
  function LdrRtRn(rt: Reg, rn: Reg): U32 {
    rt + 0x20 * rn + 0x400 * 0x3E5000
  }

  /** rd:5, rn:5, imm12:12, sh:1 = 0, op:8 = 0x22, sf:1 = 1. */
  function AddRtRnImm(rd: Reg, rn: Reg, imm: nat): U32 {
    rd + 0x20 * rn + 0x400 * (imm % 0x1000) + 0x1100_0000 + 0x8000_0000
  }

  /** rm:5 = 0, rt:5, op:22. */
  function BranchRegister(rt: Reg, link: bool): U32 {
    0x20 * rt + 0x400 * (if link then 0x358FC0 else 0x3587C0)
  }

  /** imm26:26, op:5 = 5, link:1 = 0. */
  function UncondBranch(pc: U64, target: U64): U32 {
    Wrap64(target - pc) / 4 % 0x400_0000 + 0x1400_0000
  }

  /** A conditional branch or compare-and-branch with its imm19 replaced by 2, i.e. a branch to pc + 8. */
  function WithImm19Of2(code: U32): U32 {
    code % 0x20 + 0x20 * 2 + 0x100_0000 * (code / 0x100_0000)
  }
}
