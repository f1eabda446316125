/** The addresses the relocator computes are the architecture's. */
module Arm64Targets {
  import opened Arm64Bits
  import opened Arm64Classify
  import opened Arm64Encode
  import opened Arm64Machine
  import opened Arm64Trampoline

  lemma WrapSum(x: int, pc: U64)
    ensures Wrap64(Wrap64(x) + pc) == Wrap64(pc + x)
  {
  }

  lemma SignExtended28(data: U64)
    requires data < 0x1000_0000
    ensures SignExtended(data, 0x800_0000) == Wrap64(Signed(data, 0x800_0000))
  {
  }

  lemma SignExtended21(data: U64)
    requires data < 0x20_0000
    ensures SignExtended(data, 0x10_0000) == Wrap64(Signed(data, 0x10_0000))
  {
  }

  lemma SignExtended33(data: U64)
    requires data < 0x2_0000_0000
    ensures SignExtended(data, 0x1_0000_0000) == Wrap64(Signed(data, 0x1_0000_0000))
  {
  }

  lemma BranchAddress(w: U32, pc: U64)
    requires IsBranch(Classify(w))
    ensures Decode(w).Branch? || Decode(w).BranchAndLink?
    ensures RelatedAddress(Classify(w), w, pc) == Wrap64(pc + Decode(w).offset)
  {
    hide Classify, SignExtended, Wrap64;
    var imm := w % 0x400_0000;
    SignExtended28(imm * 4);
    WrapSum(Signed(imm * 4, 0x800_0000), pc);
    assert Signed(imm * 4, 0x800_0000) == 4 * Signed(imm, 0x200_0000);
  }

  lemma CondBranchAddress(w: U32, pc: U64)
    requires IsCondBranch(Classify(w))
    ensures Decode(w).CondBranch?
    ensures RelatedAddress(Classify(w), w, pc) == Wrap64(pc + Decode(w).offset)
  {
    hide Classify, SignExtended, Wrap64;
    var imm := Imm19(w);
    SignExtended21(imm * 4);
    WrapSum(Signed(imm * 4, 0x10_0000), pc);
    assert Signed(imm * 4, 0x10_0000) == 4 * Signed(imm, 0x4_0000);
  }

  lemma AdrImmRange(w: U32)
    ensures 0 <= AdrImm(w) < 0x20_0000
  {
  }

  lemma AdrAddress(w: U32, pc: U64)
    requires Classify(w) == Adr
    ensures Decode(w).AdrPc? && Decode(w).rd == w % 0x20
    ensures RelatedAddress(Adr, w, pc) == Wrap64(pc + Decode(w).offset)
  {
    hide Classify, SignExtended, Wrap64, AdrImm;
    AdrImmRange(w);
    SignExtended21(AdrImm(w));
    WrapSum(Signed(AdrImm(w), 0x10_0000), pc);
  }

  lemma AdrpAddress(w: U32, pc: U64)
    requires Classify(w) == Adrp
    ensures Decode(w).AdrPage? && Decode(w).rd == w % 0x20
    ensures RelatedAddress(Adrp, w, pc) == Wrap64(PageStart(pc) + Decode(w).offset)
  {
    hide Classify, SignExtended, Wrap64, AdrImm, PageStart;
    AdrImmRange(w);
    var imm := AdrImm(w);
    SignExtended33(imm * 0x1000);
    WrapSum(Signed(imm * 0x1000, 0x1_0000_0000), PageStart(pc));
    assert Signed(imm * 0x1000, 0x1_0000_0000) == 0x1000 * Signed(imm, 0x10_0000);
  }

  /** The architecture's offset of a literal load, of any width, sign and register file. */
  function LiteralOffset(w: U32): int { 4 * Signed(Imm19(w), 0x4_0000) }

  /** The offset of a literal load is not sign-extended: the address is right exactly for non-negative offsets. */
  lemma LiteralAddress(w: U32, pc: U64)
    requires IsLiteralLoad(Classify(w))
    ensures RelatedAddress(Classify(w), w, pc) == Wrap64(pc + LiteralOffset(w)) <==> LiteralOffset(w) >= 0
  {
    hide Classify;
    var imm := Imm19(w);
    assert 0 <= imm < 0x8_0000;
  }

  lemma LiteralDecodes(w: U32)
    ensures Decode(w).LoadLiteral? <==> Classify(w) == LdrLiteral && w / 0x100_0000 == 0x58
    ensures Decode(w).LoadLiteral? ==> Decode(w).rt == w % 0x20 && Decode(w).offset == LiteralOffset(w)
    ensures Decode(w).LoadWord?
            <==> (Classify(w) == LdrLiteral && w / 0x100_0000 == 0x18) || Classify(w) == LdrswLiteral
    ensures Decode(w).LoadWord? ==>
              && Decode(w).rt == w % 0x20 && Decode(w).offset == LiteralOffset(w)
              && Decode(w).signed == (Classify(w) == LdrswLiteral)
  {
  }

  lemma WrapAligned(pc: U64, k: int)
    requires pc % 4 == 0
    ensures Wrap64(pc + 4 * k) % 4 == 0
  {
    var q := (pc + 4 * k) / 0x1_0000_0000_0000_0000;
    DivUnique(Wrap64(pc + 4 * k), 4, pc / 4 + k - 0x4000_0000_0000_0000 * q, 0);
  }

  lemma LiteralMod4(kind: Kind, code: U32, pc: U64)
    requires IsLiteralLoad(kind) && pc % 4 == 0
    ensures RelatedAddress(kind, code, pc) % 4 == 0
  {
    WrapAligned(pc, Imm19(code));
  }
}
