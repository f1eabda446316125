/** Every word the relocator emits decodes to the instruction it stands for. */
module Arm64EncodeProofs {
  import opened Arm64Bits
  import opened Arm64Classify
  import opened Arm64Encode
  import opened Arm64Machine

  lemma FixedWords()
    ensures Decode(NOP) == Plain && Decode(STR_X17_BELOW_SP) == Plain && Decode(LDR_X17_BELOW_SP) == Plain
  {
  }

  /** The fixed words by their fields: hint 0, and the unscaled store and load of x17 sixteen bytes below sp. */
  lemma FixedFields()
    ensures NOP == 0xd503_2000 + 0x1f
    ensures STR_X17_BELOW_SP == 0xf800_0000 + 0x1000 * (0x200 - 16) + 0x20 * 31 + 17
    ensures LDR_X17_BELOW_SP == 0xf840_0000 + 0x1000 * (0x200 - 16) + 0x20 * 31 + 17
  {
  }

  /** `can_use_adrp` holds exactly for pages less than 2^20 apart. */
  lemma UsableAdrp(pc: U64, target: U64)
    ensures CanUseAdrp(pc, target) <==> -0x10_0000 < target / 0x1000 - pc / 0x1000 < 0x10_0000
  {
    PageDistance(pc, target);
    PageDistance(target, pc);
    if target >= pc {
      PageOrder(pc, target);
    } else {
      PageOrder(target, pc);
    }
  }

  lemma PageDistance(a: U64, b: U64)
    ensures PageStart(b) - PageStart(a) == 0x1000 * (b / 0x1000 - a / 0x1000)
  {
  }

  lemma PageOrder(a: U64, b: U64)
    requires a <= b
    ensures 0 <= b / 0x1000 - a / 0x1000 < 0x10_0000_0000_0000
    ensures Wrap64(0x1000 * (b / 0x1000 - a / 0x1000)) == 0x1000 * (b / 0x1000 - a / 0x1000)
  {
    var d := b / 0x1000 - a / 0x1000;
    DivUnique(0x1000 * d, 0x1_0000_0000_0000_0000, 0, 0x1000 * d);
  }

  /** The fields of a word assembled from a 5-bit, a 19-bit and an 8-bit field. */
  lemma LiteralFields(rt: Reg, imm: int, op: int)
    requires 0 <= imm < 0x8_0000 && 0 <= op < 0x100
    ensures var w := rt + 0x20 * imm + 0x100_0000 * op;
            0 <= w < 0x1_0000_0000 && w % 0x20 == rt && w / 0x20 % 0x8_0000 == imm && w / 0x100_0000 == op
  {
    var w := rt + 0x20 * imm + 0x100_0000 * op;
    DivUnique(w, 0x20, imm + 0x8_0000 * op, rt);
    DivUnique(imm + 0x8_0000 * op, 0x8_0000, op, imm);
    DivUnique(w, 0x100_0000, op, rt + 0x20 * imm);
  }

  lemma DecodeLdrLiteral(rt: Reg, pc: U64, target: U64)
    requires pc <= target < pc + 0x1000 && (target - pc) % 4 == 0
    ensures Decode(LdrLiteralX(rt, pc, target)) == LoadLiteral(rt, target - pc)
  {
    LdrLiteralWord(rt, pc, target);
    hide LdrLiteralX;
    LiteralFields(rt, (target - pc) / 4, 0x58);
  }

  lemma LdrLiteralWord(rt: Reg, pc: U64, target: U64)
    requires pc <= target < pc + 0x1000 && (target - pc) % 4 == 0
    ensures LdrLiteralX(rt, pc, target) == rt + 0x20 * ((target - pc) / 4) + 0x100_0000 * 0x58
  {
  }

  lemma BranchRegisterFields(rt: Reg, link: bool)
    ensures var w := BranchRegister(rt, link);
            && w / 0x400 == (if link then 0x358FC0 else 0x3587C0) && w % 0x20 == 0 && w / 0x20 % 0x20 == rt
            && w / 0x100_0000 == 0xd6 && w / 0x200_0000 % 0x40 == 0x2b
  {
  }

  lemma DecodeBranchRegister(rt: Reg, link: bool)
    ensures Decode(BranchRegister(rt, link)) == if link then BranchRegLink(rt) else BranchReg(rt)
  {
    hide BranchRegister;
    BranchRegisterFields(rt, link);
  }

  lemma ReloadFields(rt: Reg)
    ensures var w := LdrRtRn(rt, rt);
            && w / 0x400 == 0x3E5000 && w % 0x20 == rt && w / 0x20 % 0x20 == rt
            && w / 0x100_0000 == 0xf9 && w / 0x200_0000 == 0x7c
  {
  }

  lemma DecodeLdrRtRn(rt: Reg)
    ensures var w := LdrRtRn(rt, rt);
            Decode(w) == Plain && IsLoadSelf(w) && w % 0x20 == rt && w != NOP && !IsAddX17(w)
            && w != STR_X17_BELOW_SP && w != LDR_X17_BELOW_SP
  {
    hide LdrRtRn;
    ReloadFields(rt);
  }

  lemma DecodeAddX17(imm: nat)
    ensures var w := AddRtRnImm(17, 17, imm);
            Decode(w) == Plain && IsAddX17(w) && w / 0x400 % 0x1000 == imm % 0x1000
            && w != NOP && w != STR_X17_BELOW_SP && w != LDR_X17_BELOW_SP
  {
    var i := imm % 0x1000;
    var w := AddRtRnImm(17, 17, imm);
    assert w / 0x400 == i + 0x24_4000;
    assert w / 0x100_0000 == 0x91;
  }

  /** `b` round trip: the word emitted for a branch in range decodes to exactly that displacement. */
  lemma DecodeUncondBranch(pc: U64, target: U64)
    requires -0x800_0000 <= target - pc < 0x800_0000 && (target - pc) % 4 == 0
    ensures Decode(UncondBranch(pc, target)) == Branch(target - pc)
  {
    var w := UncondBranch(pc, target);
    var imm := BranchField(target - pc);
    DivUnique(w, 0x400_0000, 5, imm);
    DivUnique(w, 0x100_0000, 0x14 + imm / 0x100_0000, imm % 0x100_0000);
    hide UncondBranch;
  }

  /** The 26-bit field of a branch offset, in two's complement. */
  lemma BranchField(d: int) returns (imm: int)
    requires -0x800_0000 <= d < 0x800_0000 && d % 4 == 0
    ensures imm == Wrap64(d) / 4 % 0x400_0000 && 0 <= imm < 0x400_0000
    ensures 4 * Signed(imm, 0x200_0000) == d
  {
    var q := d / 4;
    if d >= 0 {
      DivUnique(d, 0x1_0000_0000_0000_0000, 0, d);
      DivUnique(q, 0x400_0000, 0, q);
      imm := q;
    } else {
      DivUnique(d, 0x1_0000_0000_0000_0000, -1, d + 0x1_0000_0000_0000_0000);
      DivUnique(d + 0x1_0000_0000_0000_0000, 4, q + 0x4000_0000_0000_0000, 0);
      DivUnique(q + 0x4000_0000_0000_0000, 0x400_0000, 0x10_0000_0000 - 1, q + 0x400_0000);
      imm := q + 0x400_0000;
    }
  }

  lemma AdrFields(rt: Reg, imm: int)
    requires 0 <= imm < 0x20_0000
    ensures var w := rt + 0x20 * (imm / 4) + 0x1000_0000 + 0x2000_0000 * (imm % 4) + 0x8000_0000;
            0 <= w < 0x1_0000_0000 && w % 0x20 == rt && AdrImm(w) == imm && Classify(w) == Adrp
  {
    var w := rt + 0x20 * (imm / 4) + 0x1000_0000 + 0x2000_0000 * (imm % 4) + 0x8000_0000;
    assert w / 0x20 == imm / 4 + 0x8_0000 * (16 + 32 * (imm % 4) + 128);
    assert w / 0x100_0000 == 16 + 32 * (imm % 4) + 128;
    assert w / 0x2000_0000 == imm % 4 + 4;
  }

  /** The 21-bit immediate of an `adrp`, as the encoder computes it from the 64-bit difference. */
  function PageImm(pc: U64, target: U64): int
  {
    Wrap64(PageStart(target) - PageStart(pc)) / 0x1000 % 0x1_0000_0000 % 0x20_0000
  }

  lemma PageImmValue(pc: U64, target: U64)
    requires CanUseAdrp(pc, target)
    ensures 0 <= PageImm(pc, target) < 0x20_0000
    ensures 0x1000 * Signed(PageImm(pc, target), 0x10_0000) == PageStart(target) - PageStart(pc)
  {
    var a, b := PageStart(pc) / 0x1000, PageStart(target) / 0x1000;
    assert PageStart(pc) == 0x1000 * a && PageStart(target) == 0x1000 * b;
    PagesApart(a, b);
  }

  lemma PagesApart(a: int, b: int)
    requires -0x10_0000 < b - a < 0x10_0000
    ensures Wrap64(0x1000 * b - 0x1000 * a) / 0x1000 % 0x1_0000_0000 % 0x20_0000
         == if b >= a then b - a else b - a + 0x20_0000
  {
    var d := b - a;
    if d >= 0 {
      DivUnique(0x1000 * d, 0x1_0000_0000_0000_0000, 0, 0x1000 * d);
      DivUnique(0x1000 * d, 0x1000, d, 0);
      DivUnique(d, 0x1_0000_0000, 0, d);
      DivUnique(d, 0x20_0000, 0, d);
    } else {
      var e := d + 0x10_0000_0000_0000;
      DivUnique(0x1000 * d, 0x1_0000_0000_0000_0000, -1, 0x1000 * e);
      DivUnique(0x1000 * e, 0x1000, e, 0);
      DivUnique(e, 0x1_0000_0000, 0x10_0000 - 1, d + 0x1_0000_0000);
      DivUnique(d + 0x1_0000_0000, 0x20_0000, 0x800 - 1, d + 0x20_0000);
    }
  }

  lemma AdrpWord(rt: Reg, pc: U64, target: U64)
    ensures var imm := PageImm(pc, target);
            0 <= imm < 0x20_0000
            && AdrpRegister(rt, pc, target)
               == rt + 0x20 * (imm / 4) + 0x1000_0000 + 0x2000_0000 * (imm % 4) + 0x8000_0000
  {
    var i := Wrap64(PageStart(target) - PageStart(pc)) / 0x1000 % 0x1_0000_0000;
    FieldsOf21(i);
    hide Wrap64, PageStart;
  }

  /** The low 21 bits as an upper part of 19 and a lower of 2. */
  lemma FieldsOf21(i: nat)
    ensures i / 4 % 0x8_0000 == i % 0x20_0000 / 4 && i % 4 == i % 0x20_0000 % 4
  {
    var k, imm := i / 0x20_0000, i % 0x20_0000;
    DivUnique(i, 4, 0x8_0000 * k + imm / 4, imm % 4);
    DivUnique(i / 4, 0x8_0000, k, imm / 4);
  }

  /** The page displacement `adrp` encodes, in either direction, is exact whenever `can_use_adrp` says so. */
  lemma DecodeAdrp(rt: Reg, pc: U64, target: U64)
    requires CanUseAdrp(pc, target)
    ensures Decode(AdrpRegister(rt, pc, target)) == AdrPage(rt, PageStart(target) - PageStart(pc))
  {
    AdrpWord(rt, pc, target);
    PageImmValue(pc, target);
    AdrFields(rt, PageImm(pc, target));
    hide Classify, AdrpRegister, PageImm, AdrImm, CanUseAdrp;
  }

  lemma BitFour(w: U32, w': U32)
    requires w % 0x20 == w' % 0x20
    ensures w / 16 % 2 == w' / 16 % 2 && w % 0x10 == w' % 0x10
  {
    LowFive(w);
    LowFive(w');
  }

  lemma LowFive(w: U32)
    ensures w / 16 % 2 == w % 0x20 / 16 && w % 0x10 == w % 0x20 % 0x10
  {
    var q, r := w / 0x20, w % 0x20;
    DivUnique(w, 16, 2 * q + r / 16, r % 16);
    DivUnique(2 * q + r / 16, 2, q, r / 16);
  }

  /** A compare-and-branch or b.cond keeps its condition and gets displacement 8. */
  lemma DecodeWithImm19Of2(w: U32)
    requires Classify(w) in {BranchCond, Cbnz, Cbz}
    ensures var w' := WithImm19Of2(w);
            Decode(w') == CondBranch(8)
            && w' % 0x20 == w % 0x20 && w' % 0x10 == w % 0x10 && w' / 0x100_0000 == w / 0x100_0000
  {
    var w' := WithImm19Of2(w);
    LiteralFields(w % 0x20, 2, w / 0x100_0000);
    assert Imm19(w') == 2;
    BitFour(w, w');
    SameClass(w, w');
    hide Classify, WithImm19Of2, Imm19;
  }

  lemma SameClass(w: U32, w': U32)
    requires w / 0x100_0000 == w' / 0x100_0000 && w / 16 % 2 == w' / 16 % 2
    ensures Classify(w) == Classify(w')
  {
  }

  lemma TakenWithImm19Of2(env: Env, w: U32, c: Core)
    requires Classify(w) in {BranchCond, Cbnz, Cbz}
    ensures Taken(env, WithImm19Of2(w), c) == Taken(env, w, c)
  {
    DecodeWithImm19Of2(w);
    hide Classify, WithImm19Of2;
  }
}
