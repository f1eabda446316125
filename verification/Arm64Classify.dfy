/** The mask/code table that recognises position-dependent A64 instructions. */
module Arm64Classify {
  import opened Arm64Bits

  datatype Kind =
    | BranchUncond | BranchLink | BranchCond | Cbnz | Cbz | Tbnz | Tbz
    | Adrp | Adr | LdrLiteral | LdrswLiteral | LdrFpLiteral
    | NotPcRelated

  datatype MaskValue = MaskValue(kind: Kind, code: U32, mask: U32)

  const PC_RELATE_INST_NUM: nat := 12

  const MASK_VALUES: seq<MaskValue> := [
    MaskValue(BranchUncond, 0x14000000, 0xfc000000),
    MaskValue(BranchLink, 0x94000000, 0xfc000000),
    MaskValue(BranchCond, 0x54000000, 0xff000010),
    MaskValue(Cbnz, 0x35000000, 0x7f000000),
    MaskValue(Cbz, 0x34000000, 0x7f000000),
    MaskValue(Tbnz, 0x37000000, 0xfc000000),
    MaskValue(Tbz, 0x36000000, 0xfc000000),
    MaskValue(Adrp, 0x90000000, 0x9f000000),
    MaskValue(Adr, 0x10000000, 0x9f000000),
    MaskValue(LdrLiteral, 0x18000000, 0xbf000000),
    MaskValue(LdrswLiteral, 0x98000000, 0xff000000),
    MaskValue(LdrFpLiteral, 0x1c000000, 0x3f000000)
  ]

  predicate Matches(opcode: U32, row: MaskValue) {
    And(opcode, row.mask) == row.code
  }

  /** The architecture's own reading of an instruction word, by opcode field. */
  function Classify(w: U32): Kind {
    var op := w / 0x100_0000;
    if op / 4 == 0x05 then BranchUncond
    else if op / 4 == 0x25 then BranchLink
    else if op == 0x54 && w / 16 % 2 == 0 then BranchCond
    else if op % 0x80 == 0x35 then Cbnz
    else if op % 0x80 == 0x34 then Cbz
    else if op / 0x80 == 1 && op % 0x20 == 0x10 then Adrp
    else if op / 0x80 == 0 && op % 0x20 == 0x10 then Adr
    else if op == 0x18 || op == 0x58 then LdrLiteral
    else if op == 0x98 then LdrswLiteral
    else if op % 0x40 == 0x1c then LdrFpLiteral
    else NotPcRelated
  }

  // ---------------------------------------------------------------- what each mask keeps of the top byte

  lemma LowNibbleMasks(x: nat)
    requires x < 16
    ensures And(x, 15) == x
    ensures And(x, 3) == x % 4
  {
    hide And;
    AndFifteen(x);
    AndThree(x);
  }

  lemma Nibble7(x: nat)
    requires x < 16
    ensures And(x, 7) == x % 8
  {
    hide And;
    AndSplit4(x, 1, 3);
    AndOne(x / 4);
    AndThree(x % 4);
  }

  lemma NibbleHighBit(x: nat)
    requires x < 16
    ensures And(x / 4, 2) == x / 8 * 2
  {
    hide And;
    AndStep(x / 4, 2);
    AndOne(x / 4 / 2);
  }

  lemma Nibble9And11(x: nat)
    requires x < 16
    ensures And(x, 9) == x / 8 * 8 + x % 2
    ensures And(x, 11) == x / 8 * 8 + x % 4
  {
    hide And;
    NibbleHighBit(x);
    AndSplit4(x, 2, 1);
    AndOne(x % 4);
    AndSplit4(x, 2, 3);
    AndThree(x % 4);
  }

  lemma ByteMaskFC(op: nat)
    requires op < 256
    ensures And(op, 0xfc) == op / 4 * 4
  {
    hide And;
    AndSplit4(op, 63, 0);
    AndZero(op % 4);
    AndSplit16(op / 4, 3, 15);
    LowNibbleMasks(op / 4 / 16);
    LowNibbleMasks(op / 4 % 16);
  }

  lemma ByteMask(high: nat, low: nat, mask: nat)
    requires high < 16 && low < 16 && mask < 16
    ensures And(16 * high + low, 16 * mask + 15) == 16 * And(high, mask) + low
  {
    hide And;
    AndSplit16(16 * high + low, mask, 15);
    LowNibbleMasks(low);
  }

  lemma ByteMaskFF(op: nat)
    requires op < 256
    ensures And(op, 0xff) == op
  {
    hide And;
    var h, l := op / 16, op % 16;
    LowNibbleMasks(h);
    ByteMask(h, l, 15);
  }

  lemma ByteMask7F(op: nat)
    requires op < 256
    ensures And(op, 0x7f) == op % 0x80
  {
    hide And;
    var h, l := op / 16, op % 16;
    Nibble7(h);
    ByteFields(op);
    ByteMask(h, l, 7);
  }

  lemma ByteMask3F(op: nat)
    requires op < 256
    ensures And(op, 0x3f) == op % 0x40
  {
    hide And;
    var h, l := op / 16, op % 16;
    LowNibbleMasks(h);
    ByteFields(op);
    ByteMask(h, l, 3);
  }

  /** The fields of a byte by its two halves. */
  lemma ByteFields(op: nat)
    ensures op / 0x80 == op / 16 / 8 && op % 0x20 == 16 * (op / 16 % 2) + op % 16
    ensures op % 0x40 == 16 * (op / 16 % 4) + op % 16 && op % 0x80 == 16 * (op / 16 % 8) + op % 16
  {
    var h, l := op / 16, op % 16;
    DivUnique(op, 0x80, h / 8, 16 * (h % 8) + l);
    DivUnique(op, 0x20, h / 2, 16 * (h % 2) + l);
    DivUnique(op, 0x40, h / 4, 16 * (h % 4) + l);
  }

  lemma ByteMask9F(op: nat)
    requires op < 256
    ensures And(op, 0x9f) == op / 0x80 * 0x80 + op % 0x20
  {
    hide And;
    var h, l := op / 16, op % 16;
    Nibble9And11(h);
    ByteFields(op);
    ByteMask(h, l, 9);
  }

  lemma ByteMaskBF(op: nat)
    requires op < 256
    ensures And(op, 0xbf) == op / 0x80 * 0x80 + op % 0x40
  {
    hide And;
    var h, l := op / 16, op % 16;
    Nibble9And11(h);
    ByteFields(op);
    ByteMask(h, l, 11);
  }

  lemma BitFour(b: nat)
    requires b < 256
    ensures And(b, 0x10) == 16 * (b / 16 % 2)
  {
    hide And;
    AndSplit16(b, 1, 0);
    AndOne(b / 16);
    AndZero(b % 16);
  }

  lemma BitFourOfLowByte(w: nat)
    ensures w % 256 / 16 % 2 == w / 16 % 2
  {
    var q, b := w / 256, w % 256;
    DivUnique(w, 16, 16 * q + b / 16, b % 16);
    DivUnique(16 * q + b / 16, 2, 8 * q + b / 32, b / 16 % 2);
  }

  lemma ConditionalBranchMask(w: U32)
    ensures And(w, 0xff000010) == 0x100_0000 * (w / 0x100_0000) + 16 * (w / 16 % 2)
  {
    hide And;
    AndOuterBytes(w, 0xff, 0x10);
    ByteMaskFF(w / 0x100_0000);
    BitFour(w % 256);
    BitFourOfLowByte(w);
  }

  lemma TopByteMask(w: U32, mask: nat)
    ensures And(w, 0x100_0000 * mask) == 0x100_0000 * And(w / 0x100_0000, mask)
  {
    hide And;
    AndOuterBytes(w, mask, 0);
    AndZero(w % 256);
  }

  lemma TopByteRows(w: U32)
    ensures var op := w / 0x100_0000;
            && And(w, 0xfc000000) == 0x100_0000 * (op / 4 * 4)
            && And(w, 0x7f000000) == 0x100_0000 * (op % 0x80)
            && And(w, 0x9f000000) == 0x100_0000 * (op / 0x80 * 0x80 + op % 0x20)
            && And(w, 0xbf000000) == 0x100_0000 * (op / 0x80 * 0x80 + op % 0x40)
            && And(w, 0xff000000) == 0x100_0000 * op
            && And(w, 0x3f000000) == 0x100_0000 * (op % 0x40)
  {
    hide And;
    TopByteMask(w, 0xfc);
    TopByteMask(w, 0x7f);
    TopByteMask(w, 0x9f);
    TopByteMask(w, 0xbf);
    TopByteMask(w, 0xff);
    TopByteMask(w, 0x3f);
    ByteMaskFC(w / 0x100_0000);
    ByteMaskFF(w / 0x100_0000);
    ByteMask7F(w / 0x100_0000);
    ByteMask3F(w / 0x100_0000);
    ByteMask9F(w / 0x100_0000);
    ByteMaskBF(w / 0x100_0000);
  }

  /** The TBNZ and TBZ rows can never match: their code has a bit outside their mask. */
  lemma TestBranchRowsNeverMatch(w: U32)
    ensures !Matches(w, MASK_VALUES[5]) && !Matches(w, MASK_VALUES[6])
  {
    hide And;
    TopByteRows(w);
  }

  /** The first matching row of the table. */
  ghost predicate FirstMatch(w: U32, i: nat)
  {
    && i < PC_RELATE_INST_NUM
    && Matches(w, MASK_VALUES[i])
    && forall j :: 0 <= j < i ==> !Matches(w, MASK_VALUES[j])
  }

  /** What each row that can match asks of the word's top byte. */
  lemma Rows(w: U32)
    ensures var op := w / 0x100_0000;
            && (Matches(w, MASK_VALUES[0]) <==> op / 4 == 0x05)
            && (Matches(w, MASK_VALUES[1]) <==> op / 4 == 0x25)
            && (Matches(w, MASK_VALUES[2]) <==> op == 0x54 && w / 16 % 2 == 0)
            && (Matches(w, MASK_VALUES[3]) <==> op % 0x80 == 0x35)
            && (Matches(w, MASK_VALUES[4]) <==> op % 0x80 == 0x34)
  {
    hide And;
    TopByteRows(w);
    ConditionalBranchMask(w);
  }

  lemma AddressRows(w: U32)
    ensures var op := w / 0x100_0000;
            && (Matches(w, MASK_VALUES[7]) <==> op / 0x80 == 1 && op % 0x20 == 0x10)
            && (Matches(w, MASK_VALUES[8]) <==> op / 0x80 == 0 && op % 0x20 == 0x10)
  {
    hide And;
    TopByteRows(w);
  }

  lemma LiteralRows(w: U32)
    ensures var op := w / 0x100_0000;
            && (Matches(w, MASK_VALUES[9]) <==> op == 0x18 || op == 0x58)
            && (Matches(w, MASK_VALUES[10]) <==> op == 0x98)
            && (Matches(w, MASK_VALUES[11]) <==> op % 0x40 == 0x1c)
  {
    hide And;
    TopByteRows(w);
  }

  lemma ClassifyIsFirstMatch(w: U32, i: nat)
    requires FirstMatch(w, i)
    ensures Classify(w) == MASK_VALUES[i].kind
  {
    hide And, Matches;
    Rows(w);
    AddressRows(w);
    LiteralRows(w);
    TestBranchRowsNeverMatch(w);
  }

  lemma ClassifyWithoutMatch(w: U32)
    requires forall j :: 0 <= j < PC_RELATE_INST_NUM ==> !Matches(w, MASK_VALUES[j])
    ensures Classify(w) == NotPcRelated
  {
    hide And, Matches;
    Rows(w);
    AddressRows(w);
    LiteralRows(w);
  }

  /** `Arm64Instruction::parse`: scan the table for the first matching row. */
  method Parse(opcode: U32) returns (kind: Kind)
    ensures kind == Classify(opcode)
  {
    kind := NotPcRelated;
    var i := 0;
    while i < PC_RELATE_INST_NUM
      invariant 0 <= i <= PC_RELATE_INST_NUM && kind == NotPcRelated
      invariant forall j :: 0 <= j < i ==> !Matches(opcode, MASK_VALUES[j])
    {
      if Matches(opcode, MASK_VALUES[i]) {
        kind := MASK_VALUES[i].kind;
        ClassifyIsFirstMatch(opcode, i);
        return;
      }
      i := i + 1;
    }
    ClassifyWithoutMatch(opcode);
  }
}
