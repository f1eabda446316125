/** The hook manager: it lifts the head of a function into a trampoline and redirects the function. */
module Arm64InlineHook {
  import opened Arm64Bits
  import opened Arm64Classify
  import opened Arm64Encode
  import opened Arm64Machine
  import opened Arm64Trampoline
  import opened Arm64Simulation
  import opened Arm64Layout
  import opened Arm64Stretch
  import opened Options

  const SPLIT_BY_LDR_SIZE: int := 20
  const SPLIT_BY_ADRP_SIZE: int := 12
  const NATIVE_JMP_CODE_SIZE: int := 24
  const WINDOW_SIZE: int := 24
  /** Six instructions and the exit jump. */
  const ROUNDS: nat := 7
  /** The most that a trampoline takes of a page. */
  const WINDOW_ROOM: int := 220

  // ---------------------------------------------------------------- scanning, as a function of the window's words

  /** `get_ldr_data_size`, in bits. */
  function LdrDataSize(code: U32): int {
    var op := code / 0x100_0000;
    if op in {0x1c, 0x98, 0x18} then 32
    else if op in {0x58, 0x5c} then 64
    else if op == 0x9c then 128
    else 64
  }

  /** How one visit moves the split size: a literal inside the window must be lifted whole. */
  function SplitAfter(kind: Kind, code: U32, target: U64, start: U64, split: nat): nat {
    if target != 0 && start <= target < start + split && IsDataReference(kind) then
      var needed := target - start + LdrDataSize(code) / 8;
      if split > needed then split else needed
    else split
  }

  function LiteralsAfter(kind: Kind, target: U64, literals: seq<U64>): seq<U64> {
    if IsDataReference(kind) then literals + [target] else literals
  }

  function KindAt(mem: Memory, pc: U64, literals: seq<U64>): Kind {
    if pc in literals then NotPcRelated else Classify(Read32(mem, pc))
  }

  /** How many instructions `process` lifts, and the split size it ends with. */
  function Scan(mem: Memory, func: U64, k: nat, split: nat, literals: seq<U64>): (nat, nat)
    requires k <= 6 && func + WINDOW_SIZE < 0x1_0000_0000_0000_0000
    decreases 6 - k
  {
    if k == 6 || 4 * k >= split then (k, split)
    else
      var pc: U64 := func + 4 * k;
      var kind := KindAt(mem, pc, literals);
      var code := Read32(mem, pc);
      var target := RelatedAddress(kind, code, pc);
      if kind == NotPcRelated then Scan(mem, func, k + 1, split, literals)
      else Scan(mem, func, k + 1, SplitAfter(kind, code, target, func, split), LiteralsAfter(kind, target, literals))
  }

  lemma ImmRanges(code: U32)
    ensures 0 <= Imm19(code) < 0x8_0000 && 0 <= AdrImm(code) < 0x20_0000
  {
  }

  /** Word k of a page. */
  function WordAt(mem: Memory, page: U64, k: nat): U32 { Read32(mem, page + 4 * k) }

  lemma ClearNext(before: Memory, after: Memory, page: U64, i: nat)
    requires after == before[page + 4 * i := 0] && forall k: nat :: k < i ==> WordAt(before, page, k) == 0
    ensures forall k: nat :: k < i + 1 ==> WordAt(after, page, k) == 0
  {
    forall k: nat | k < i ensures WordAt(after, page, k) == WordAt(before, page, k) {
    }
  }

  class InlineHook {
    /** The pages that the kernel has for this manager, in the order it hands them out. */
    const mmap: seq<U64>

    var mem: Memory
    var allocAddress: seq<U64>
    var currentPcStart: U64
    var currentDataEnd: U64
    var origPcStart: U64
    var origDataEnd: U64
    var ldrAddressList: seq<U64>
    var processInstList: seq<Instruction>
    var defaultSplitSize: nat
    var processStart: U64
    var processLen: nat

    /** Words that must keep their contents: those of live trampolines and of the one being built. */
    ghost var busy: set<int>
    /** The glue of the trampoline being built. */
    ghost var glue: seq<Glue>
    ghost var hooks: seq<Hook>

    // -------------------------------------------------------------- the allocator

    ghost predicate Arena(room: nat)
      reads this`allocAddress, this`currentPcStart, this`currentDataEnd, this`busy
    {
      && GoodMmap(mmap) && PagesFrom(mmap, allocAddress)
      && CursorsOk(allocAddress, currentPcStart, currentDataEnd, room)
      && BusyOk(allocAddress, currentPcStart, currentDataEnd, busy)
    }

    /** The next n rounds need no page beyond the first `limit`. */
    ghost predicate Room(limit: nat, n: int)
      reads this`allocAddress, this`currentPcStart, this`currentDataEnd
    {
      Supply(mmap, limit, allocAddress, currentPcStart, currentDataEnd, n)
    }

    /** `MemManager::allocNewSpace`: map a page, zero it, and put the cursors at its two ends. */
    method AllocNewSpace()
      requires GoodMmap(mmap) && PagesFrom(mmap, allocAddress) && |allocAddress| < |mmap|
      modifies this`mem, this`allocAddress, this`currentPcStart, this`currentDataEnd
      ensures allocAddress == old(allocAddress) + [mmap[|old(allocAddress)|]]
      ensures PagesFrom(mmap, allocAddress)
      ensures currentPcStart == mmap[|old(allocAddress)|] && currentDataEnd == currentPcStart + PAGE
      ensures forall k: nat :: k < PAGE / 4 ==> WordAt(mem, currentPcStart, k) == 0
      ensures forall x :: !InPage(currentPcStart, x) ==> Read32(mem, x) == old(Read32(mem, x))
    {
      var addr := mmap[|allocAddress|];
      var i := 0;
      while i < PAGE / 4
        modifies this`mem
        invariant 0 <= i <= PAGE / 4
        invariant forall k: nat :: k < i ==> WordAt(mem, addr, k) == 0
        invariant forall x :: !InPage(addr, x) ==> Read32(mem, x) == old(Read32(mem, x))
      {
        ClearNext(mem, mem[addr + 4 * i := 0], addr, i);
        mem := mem[addr + 4 * i := 0];
        i := i + 1;
      }
      allocAddress := allocAddress + [addr];
      currentPcStart := addr;
      currentDataEnd := addr + PAGE;
    }

    /** Write one instruction word. */
    method Emit(a: int, word: U32)
      modifies this`mem
      ensures mem == old(mem)[a := word]
    {
      mem := mem[a := word];
    }

    /** `SET8` on a little-endian word memory. */
    method Set8(a: int, v: U64)
      modifies this`mem
      ensures mem == Write64(old(mem), a, v)
    {
      mem := Write64(mem, a, v);
    }

    /** The three-word jump through x17 that both `ensureEnoughSpace` and `finishProcess` plant. */
    method EmitJump(p: U64, near: bool, target: U64, literal: U64)
      requires p + 12 <= literal
      modifies this`mem
      ensures p + 8 < 0x1_0000_0000_0000_0000 && JumpCode(mem, p, near, target, literal)
      ensures forall x :: x !in JumpWords(p, near, literal) ==> Read32(mem, x) == old(Read32(mem, x))
    {
      hide AdrpRegister, AddRtRnImm, BranchRegister, LdrLiteralX, UncondBranch;
      if near {
        Emit(p, AdrpRegister(17, p, target));
        Emit(p + 4, AddRtRnImm(17, 17, target % 0x1000));
        Emit(p + 8, BranchRegister(17, false));
      } else {
        Emit(p, LdrLiteralX(17, p, literal));
        Emit(p + 4, BranchRegister(17, false));
        Emit(p + 8, UncondBranch(8, 0));
        Set8(literal, target);
      }
    }

    /** The jump from a full page to a fresh one: spill x17, jump, reload. */
    method EmitChain(from: U64, page: U64, literal: U64)
      requires from + 16 <= literal && !(from <= page < literal + 8)
      modifies this`mem
      ensures from + 16 < 0x1_0000_0000_0000_0000 && ChainCode(mem, from, page, literal)
      ensures forall x :: x !in GlueWords(from, Chain(page, literal), page + 4) ==>
                            Read32(mem, x) == old(Read32(mem, x))
    {
      hide AdrpRegister, AddRtRnImm, BranchRegister, LdrLiteralX, UncondBranch, CanUseAdrp, JumpCode;
      Emit(from, STR_X17_BELOW_SP);
      EmitJump(from + 4, CanUseAdrp(from, page), page, literal);
      label jump:
      Emit(page, LDR_X17_BELOW_SP);
      JumpCodeStable(old@jump(mem), mem, from + 4, CanUseAdrp(from, page), page, literal);
    }

    /** `ensureEnoughSpace`: when fewer than 52 bytes remain, jump to a fresh page. The abort cannot be reached while
        24 bytes remain, and a fresh page is needed only once in a window. */
    method EnsureEnoughSpace(ghost limit: nat, ghost n: nat) returns (ghost g: Glue)
      requires Arena(24) && 1 <= n <= ROUNDS && Room(limit, n)
      modifies this`mem, this`allocAddress, this`currentPcStart, this`currentDataEnd, this`busy
      ensures Arena(52) && Room(limit, n)
      ensures old(allocAddress) <= allocAddress
      ensures currentPcStart == if g.Chain? then g.page + 4 else old(currentPcStart)
      ensures GluePlaced(old(currentPcStart), g, currentPcStart)
      ensures GlueCode(mem, old(currentPcStart), g, currentPcStart)
      ensures busy == old(busy) + GlueWords(old(currentPcStart), g, currentPcStart)
      ensures GlueWords(old(currentPcStart), g, currentPcStart) !! old(busy)
      ensures SameOn(old(busy), old(mem), mem) && SameOutside(mmap, old(mem), mem)
    {
      hide ChainCode, GlueWords, GluePlaced, BusyOk, CursorsOk, CanUseAdrp, GoodMmap, PagesFrom;
      CursorRoom(allocAddress, currentPcStart, currentDataEnd, 24);
      CursorBound(mmap, allocAddress, currentPcStart, currentDataEnd, 24);
      DirectGlue(mem, currentPcStart);
      g := Direct;
      if currentDataEnd - currentPcStart < NATIVE_JMP_CODE_SIZE {
        assert false; // abort
      } else if currentDataEnd - currentPcStart < 24 + 4 + NATIVE_JMP_CODE_SIZE {
        ChainBooks(mmap, allocAddress, currentPcStart, currentDataEnd, busy);
        var oldPc, oldData := currentPcStart, currentDataEnd - 8;
        AllocNewSpace();
        EmitChain(oldPc, currentPcStart, oldData);
        g := Chain(currentPcStart, oldData);
        currentPcStart := currentPcStart + 4;
        busy := busy + GlueWords(oldPc, g, g.page + 4);
        ChainGlue(mem, oldPc, g);
      }
    }

    // -------------------------------------------------------------- visiting one instruction

    /** Keep the 8-byte alignment of the original address, with a NOP if need be. */
    method AlignWith(pc: U64)
      requires currentPcStart + 4 < 0x1_0000_0000_0000_0000 && currentPcStart % 4 == 0 && pc % 4 == 0
      modifies this`mem, this`currentPcStart
      ensures currentPcStart % 8 == pc % 8 && currentPcStart % 4 == 0
      ensures currentPcStart
           == if old(currentPcStart) % 8 != pc % 8 then old(currentPcStart) + 4 else old(currentPcStart)
      ensures NopUpTo(mem, old(currentPcStart), currentPcStart)
      ensures forall x :: x !in NopWords(old(currentPcStart), currentPcStart) ==> Read32(mem, x) == old(Read32(mem, x))
    {
      HalfAligned(currentPcStart);
      HalfAligned(pc);
      if currentPcStart % 8 != pc % 8 {
        Emit(currentPcStart, NOP);
        currentPcStart := currentPcStart + 4;
      }
    }

    /** The address an instruction refers to, by sign-extending its immediate. */
    method TargetAddress(kind: Kind, code: U32, pc: U64) returns (target: U64)
      ensures target == RelatedAddress(kind, code, pc)
    {
      hide Pow2, SignExtended, HasBit, Wrap64, AdrImm, Imm19;
      Pow2Values();
      ImmRanges(code);
      var offset: U64;
      match kind {
        case BranchUncond | BranchLink =>
          offset := SignExtend64(code % 0x400_0000 * 4, 0x800_0000, 27);
          target := Wrap64(offset + pc);
        case BranchCond | Cbnz | Cbz =>
          offset := SignExtend64(Imm19(code) * 4, 0x10_0000, 20);
          target := Wrap64(offset + pc);
        case Tbnz | Tbz =>
          offset := SignExtend64(code / 0x20 % 0x4000 * 4, 0x8000, 15);
          target := Wrap64(offset + pc);
        case Adrp =>
          offset := SignExtend64(AdrImm(code) * 0x1000, 0x1_0000_0000, 32);
          target := Wrap64(offset + PageStart(pc));
        case Adr =>
          offset := SignExtend64(AdrImm(code), 0x10_0000, 20);
          target := Wrap64(offset + pc);
        case LdrLiteral | LdrswLiteral | LdrFpLiteral =>
          target := Wrap64(pc + Imm19(code) * 4);
        case NotPcRelated =>
          target := 0;
      }
    }

    /** One block takes at most 28 bytes. */
    predicate Consumed(pc: U64, dataEnd: U64)
      reads this`currentPcStart, this`currentDataEnd
    {
      currentPcStart <= pc + 20 && dataEnd - 8 <= currentDataEnd
    }

    /** Take the words of a block, and of its literal if it has one, from the free stretch. */
    method Place(inst: Instruction) returns (r: Instruction)
      requires Arena(52) && inst.pc % 4 == 0
      modifies this`mem, this`currentPcStart, this`currentDataEnd, this`busy
      ensures Arena(24) && Consumed(old(currentPcStart), old(currentDataEnd))
      ensures r == inst.(newPc := r.newPc, dataAddr := r.dataAddr)
      ensures r.newPc % 8 == inst.pc % 8 && r.newPc % 4 == 0 && r.newPc + 16 < 0x1_0000_0000_0000_0000
      ensures currentPcStart == BlockEnd(r)
      ensures inst.kind == NotPcRelated ==> r.dataAddr == inst.dataAddr && currentDataEnd == old(currentDataEnd)
      ensures inst.kind != NotPcRelated ==>
                && currentDataEnd == r.dataAddr == old(currentDataEnd) - 8
                && Near(r.newPc, r.dataAddr) && BlockEnd(r) <= r.dataAddr
      ensures NopUpTo(mem, old(currentPcStart), r.newPc)
      ensures busy == old(busy) + InstWords(r) + NopWords(old(currentPcStart), r.newPc)
      ensures InstWords(r) !! old(busy) && NopWords(old(currentPcStart), r.newPc) !! old(busy)
      ensures InstWords(r) !! NopWords(old(currentPcStart), r.newPc)
      ensures SameOn(old(busy), old(mem), mem) && SameOutside(mmap, old(mem), mem)
    {
      hide InstWords, CursorsOk, GoodMmap, BusyOk, BlockLength, SameOutside, InPages, PagesFrom, Near;
      CursorRoom(allocAddress, currentPcStart, currentDataEnd, 52);
      CursorBound(mmap, allocAddress, currentPcStart, currentDataEnd, 52);
      BlockLengthRange(inst.kind);
      var dataEnd := currentDataEnd - (if inst.kind == NotPcRelated then 0 else 8);
      AlignWith(inst.pc);
      r := inst.(newPc := currentPcStart, dataAddr := if inst.kind == NotPcRelated then inst.dataAddr else dataEnd);
      PlaceBooks(allocAddress, old(currentPcStart), currentDataEnd, busy, r);
      PlacedNear(allocAddress, old(currentPcStart), currentDataEnd, r);
      SameOutsidePages(mmap, allocAddress, NopWords(old(currentPcStart), r.newPc), old(mem), mem);
      currentPcStart := currentPcStart + BlockLength(inst.kind);
      currentDataEnd := dataEnd;
      busy := busy + InstWords(r) + NopWords(old(currentPcStart), r.newPc);
    }

    /** Reserve code and literal space for a position-dependent instruction and note what it refers to. */
    method VisitPcRelatedInst(inst: Instruction) returns (r: Instruction)
      requires Arena(52) && inst.kind != NotPcRelated && inst.pc % 4 == 0
      modifies this`mem, this`currentPcStart, this`currentDataEnd, this`busy, this`ldrAddressList, this`defaultSplitSize
      ensures Arena(24) && Consumed(old(currentPcStart), old(currentDataEnd))
      ensures r == inst.(relatePc := RelatedAddress(inst.kind, inst.code, inst.pc), newPc := r.newPc,
                        dataAddr := r.dataAddr)
      ensures r.newPc % 8 == inst.pc % 8 && r.newPc % 4 == 0 && r.newPc + 16 < 0x1_0000_0000_0000_0000
      ensures Near(r.newPc, r.dataAddr) && BlockEnd(r) <= r.dataAddr
      ensures currentPcStart == BlockEnd(r) && currentDataEnd == r.dataAddr == old(currentDataEnd) - 8
      ensures NopUpTo(mem, old(currentPcStart), r.newPc)
      ensures busy == old(busy) + InstWords(r) + NopWords(old(currentPcStart), r.newPc)
      ensures InstWords(r) !! old(busy) && NopWords(old(currentPcStart), r.newPc) !! old(busy)
      ensures InstWords(r) !! NopWords(old(currentPcStart), r.newPc)
      ensures SameOn(old(busy), old(mem), mem) && SameOutside(mmap, old(mem), mem)
      ensures ldrAddressList == LiteralsAfter(inst.kind, r.relatePc, old(ldrAddressList))
      ensures defaultSplitSize == SplitAfter(inst.kind, inst.code, r.relatePc, processStart, old(defaultSplitSize))
    {
      hide RelatedAddress, InstWords, CursorsOk, GoodMmap, BusyOk, BlockLength, SameOutside, SameOn, NopUpTo, PagesFrom;
      var target := TargetAddress(inst.kind, inst.code, inst.pc);
      r := Place(inst.(relatePc := target));
      ldrAddressList := LiteralsAfter(inst.kind, target, ldrAddressList);
      defaultSplitSize := SplitAfter(inst.kind, inst.code, target, processStart, defaultSplitSize);
    }

    /** Reserve space for an instruction that is copied verbatim. */
    method VisitPcNoRelatedInst(inst: Instruction) returns (r: Instruction)
      requires Arena(52) && inst.kind == NotPcRelated && inst.pc % 4 == 0
      modifies this`mem, this`currentPcStart, this`currentDataEnd, this`busy
      ensures Arena(24) && Consumed(old(currentPcStart), old(currentDataEnd))
      ensures r == inst.(newPc := r.newPc)
      ensures r.newPc % 8 == inst.pc % 8 && r.newPc % 4 == 0 && r.newPc + 16 < 0x1_0000_0000_0000_0000
      ensures currentPcStart == BlockEnd(r) && currentDataEnd == old(currentDataEnd)
      ensures NopUpTo(mem, old(currentPcStart), r.newPc)
      ensures busy == old(busy) + InstWords(r) + NopWords(old(currentPcStart), r.newPc)
      ensures InstWords(r) !! old(busy) && NopWords(old(currentPcStart), r.newPc) !! old(busy)
      ensures InstWords(r) !! NopWords(old(currentPcStart), r.newPc)
      ensures SameOn(old(busy), old(mem), mem) && SameOutside(mmap, old(mem), mem)
    {
      hide InstWords, CursorsOk, GoodMmap, BusyOk, BlockLength, SameOutside, SameOn, NopUpTo, PagesFrom;
      r := Place(inst);
    }

    /** `Visitor::visit`: dispatch on position dependence. */
    method Visit(inst: Instruction) returns (r: Instruction)
      requires Arena(52) && inst.pc % 4 == 0 && inst.relatePc == 0
      modifies this`mem, this`currentPcStart, this`currentDataEnd, this`busy, this`ldrAddressList, this`defaultSplitSize
      ensures Arena(24) && Consumed(old(currentPcStart), old(currentDataEnd))
      ensures r == inst.(relatePc := RelatedAddress(inst.kind, inst.code, inst.pc), newPc := r.newPc,
                        dataAddr := r.dataAddr)
      ensures r.newPc % 8 == inst.pc % 8 && r.newPc % 4 == 0 && r.newPc + 16 < 0x1_0000_0000_0000_0000
      ensures inst.kind != NotPcRelated ==> Near(r.newPc, r.dataAddr) && BlockEnd(r) <= r.dataAddr
      ensures currentPcStart == BlockEnd(r)
      ensures NopUpTo(mem, old(currentPcStart), r.newPc)
      ensures busy == old(busy) + InstWords(r) + NopWords(old(currentPcStart), r.newPc)
      ensures InstWords(r) !! old(busy) && NopWords(old(currentPcStart), r.newPc) !! old(busy)
      ensures InstWords(r) !! NopWords(old(currentPcStart), r.newPc)
      ensures SameOn(old(busy), old(mem), mem) && SameOutside(mmap, old(mem), mem)
      ensures ldrAddressList == LiteralsAfter(inst.kind, r.relatePc, old(ldrAddressList))
      ensures defaultSplitSize == SplitAfter(inst.kind, inst.code, r.relatePc, processStart, old(defaultSplitSize))
    {
      hide RelatedAddress, InstWords, CursorsOk, GoodMmap, BusyOk, BlockLength, SameOutside, SameOn, NopUpTo, PagesFrom,
        Near;
      if inst.kind != NotPcRelated {
        r := VisitPcRelatedInst(inst);
      } else {
        NoRelatedAddress(inst.code, inst.pc);
        r := VisitPcNoRelatedInst(inst);
      }
    }

    // -------------------------------------------------------------- lifting the window

    /** The trampoline under construction. */
    ghost function DraftNow(): Trampoline
      reads this`processStart, this`origPcStart, this`processInstList, this`glue
    {
      Trampoline(processStart, origPcStart, processInstList, glue, 0, 0)
    }

    ghost predicate Drafting(base: set<int>)
      reads this
    {
      && Arena(24) && Draft(DraftNow(), mem, busy, base)
      && Cursor(DraftNow(), |processInstList|) == currentPcStart
    }

    method Reset()
      modifies this`origPcStart, this`origDataEnd, this`processLen, this`processStart, this`ldrAddressList,
               this`processInstList, this`glue
      ensures origPcStart == currentPcStart && origDataEnd == currentDataEnd
      ensures processLen == 0 && processStart == 0 && ldrAddressList == [] && processInstList == [] && glue == []
    {
      origPcStart := currentPcStart;
      origDataEnd := currentDataEnd;
      processLen := 0;
      processStart := 0;
      ldrAddressList := [];
      processInstList := [];
      glue := [];
    }

    predicate CanSplit()
      reads this`processLen, this`defaultSplitSize
    {
      processLen >= defaultSplitSize
    }

    /** One round of the loop in `process`: make room, place the instruction, append it. */
    method LiftNext(inst: Instruction, ghost base: set<int>, ghost limit: nat, ghost n: nat)
      requires Drafting(base) && 1 <= n <= ROUNDS && Room(limit, n)
      requires inst.pc == processStart + 4 * |processInstList| && inst.pc % 4 == 0
      requires inst.relate == External && inst.relatePc == 0
      modifies this`mem, this`allocAddress, this`currentPcStart, this`currentDataEnd, this`busy, this`ldrAddressList,
               this`defaultSplitSize, this`processInstList, this`glue, this`processLen
      ensures Drafting(base) && Room(limit, n - 1)
      ensures |processInstList| == |old(processInstList)| + 1
              && old(processInstList) == processInstList[..|old(processInstList)|]
      ensures var r := processInstList[|old(processInstList)|];
              && r == inst.(relatePc := RelatedAddress(inst.kind, inst.code, inst.pc), newPc := r.newPc,
                           dataAddr := r.dataAddr)
              && r.newPc % 8 == inst.pc % 8
              && ldrAddressList == LiteralsAfter(inst.kind, r.relatePc, old(ldrAddressList))
              && defaultSplitSize == SplitAfter(inst.kind, inst.code, r.relatePc, processStart, old(defaultSplitSize))
      ensures processLen == old(processLen) + 4
      ensures old(allocAddress) <= allocAddress && old(busy) <= busy
      ensures SameOn(old(busy), old(mem), mem) && SameOutside(mmap, old(mem), mem)
    {
      hide Draft, RelatedAddress, InstWords, GlueWords, CursorsOk, GoodMmap, BusyOk, SameOutside, SameOn, NopUpTo,
        PagesFrom, GluePlaced, GlueCode, Near, LiteralsAfter, SplitAfter, Cursor, BlockLength, NopWords, Supply, Read32,
        Arena;
      ghost var tr, m0, busy0 := DraftNow(), mem, busy;
      ghost var g := EnsureEnoughSpace(limit, n);
      ghost var m1, mid := mem, currentPcStart;
      ghost var dataEnd := currentDataEnd;
      var r := Visit(inst);
      SupplyUsed(mmap, limit, allocAddress, mid, dataEnd, n, currentPcStart, currentDataEnd);
      DraftAppend(tr, m0, m1, mem, busy0, base, g, mid, r);
      SameOutsideTrans(mmap, m0, m1, mem);
      SameOnShrink(busy0, busy0 + GlueWords(Cursor(tr, |tr.insts|), g, mid), m1, mem);
      SameOnTrans(busy0, m0, m1, mem);
      CursorExtended(tr, r, g);
      processLen := processLen + 4;
      processInstList := processInstList + [r];
      glue := glue + [g];
    }

    /** The next instruction of the window, unless it is exhausted or enough has been lifted. Words that an earlier
        instruction loads as data are not parsed. */
    method DecodeInst(left: int, pc: U64) returns (r: Option<Instruction>)
      ensures r.None? <==> left < 4 || processLen >= defaultSplitSize
      ensures r.Some? ==>
                r.value == Instruction(pc, Read32(mem, pc), KindAt(mem, pc, ldrAddressList), 0, External, pc, 0)
    {
      if left < 4 {
        return None;
      }
      if CanSplit() {
        return None;
      }
      var code := Read32(mem, pc);
      var kind := NotPcRelated;
      if pc !in ldrAddressList {
        kind := Parse(code);
      }
      r := Some(Instruction(pc, code, kind, 0, External, pc, 0));
    }

    /** The loop of `process`. */
    method LiftWindow(func: U64, ghost base: set<int>, ghost limit: nat)
      requires Drafting(base) && base == busy && processStart == func && processInstList == []
      requires 0 < func && func % 4 == 0 && func + WINDOW_SIZE < 0x1_0000_0000_0000_0000
      requires forall x :: func <= x < func + WINDOW_SIZE ==> OutsidePages(mmap, x)
      requires processLen == 0 && ldrAddressList == [] && Room(limit, ROUNDS)
      modifies this`mem, this`allocAddress, this`currentPcStart, this`currentDataEnd, this`busy, this`ldrAddressList,
               this`defaultSplitSize, this`processInstList, this`glue, this`processLen
      ensures Drafting(base) && LiftedFrom(old(mem), func, processInstList) && processLen == 4 * |processInstList|
      ensures (|processInstList|, defaultSplitSize) == Scan(old(mem), func, 0, old(defaultSplitSize), [])
      ensures |processInstList| <= 6 && Room(limit, 1)
      ensures ScanEnded(func, processInstList, old(defaultSplitSize), defaultSplitSize)
      ensures old(allocAddress) <= allocAddress && base <= busy
      ensures SameOn(base, old(mem), mem) && SameOutside(mmap, old(mem), mem)
    {
      hide Draft, Arena, GoodMmap, SameOn, SameOutside, Cursor, OutsidePages, RelatedAddress, Classify, Scan,
        DataListed, LiteralsAfter, SplitAfter, LiftedFrom, Stretch, KindAt, LoadedAsData;
      SameOnRefl(base, mem);
      SameOutsideRefl(mmap, mem);
      NothingListed();
      NothingLifted(old(mem), func);
      NothingStretched(func, defaultSplitSize);
      var left := WINDOW_SIZE;
      var currentPc := func;
      while left > 0
        invariant left == WINDOW_SIZE - processLen && processLen == 4 * |processInstList| && |processInstList| <= 6
        invariant currentPc == func + processLen
        invariant Drafting(base) && LiftedFrom(old(mem), func, processInstList)
        invariant DataListed(ldrAddressList, processInstList)
        invariant Stretch(func, processInstList, old(defaultSplitSize), defaultSplitSize)
        invariant |processInstList| > 0 ==> 4 * (|processInstList| - 1) < defaultSplitSize
        invariant Room(limit, ROUNDS - |processInstList|)
        invariant Scan(old(mem), func, |processInstList|, defaultSplitSize, ldrAddressList)
               == Scan(old(mem), func, 0, old(defaultSplitSize), [])
        invariant old(allocAddress) <= allocAddress && base <= busy
        invariant SameOn(base, old(mem), mem) && SameOutside(mmap, old(mem), mem)
        decreases left
      {
        ScanStep(old(mem), func, |processInstList|, defaultSplitSize, ldrAddressList);
        var inst := DecodeInst(left, currentPc);
        if inst.None? {
          break;
        }
        UnchangedWord(mmap, old(mem), mem, currentPc);
        SameKind(old(mem), mem, currentPc, ldrAddressList);
        label step:
        LiftNext(inst.value, base, limit, ROUNDS - |processInstList|);
        SameOnShrink(base, old@step(busy), old@step(mem), mem);
        SameOnTrans(base, old(mem), old@step(mem), mem);
        SameOutsideTrans(mmap, old(mem), old@step(mem), mem);
        RoundDone(old(mem), func, old@step(processInstList), processInstList, old@step(ldrAddressList),
                  old(defaultSplitSize), old@step(defaultSplitSize));
        left := left - 4;
        currentPc := currentPc + 4;
      }
      ScanStep(old(mem), func, |processInstList|, defaultSplitSize, ldrAddressList);
    }

    /** `analysisRelatePC`: point instructions that refer into the window at the instruction they refer to. */
    method AnalysisRelatePC()
      requires processLen == 4 * |processInstList|
      modifies this`processInstList
      ensures Resolved(processStart, old(processInstList), processInstList)
    {
      hide RelateOf;
      var i := 0;
      while i < |processInstList|
        invariant 0 <= i <= |processInstList| == |old(processInstList)|
        invariant forall j :: i <= j < |processInstList| ==> processInstList[j] == old(processInstList)[j]
        invariant forall j :: 0 <= j < i ==>
                    processInstList[j] == old(processInstList)[j].(
                      relate := RelateOf(processStart, processLen, old(processInstList)[j].relatePc))
      {
        var inst := processInstList[i];
        processInstList := processInstList[i := inst.(relate := RelateOf(processStart, processLen, inst.relatePc))];
        i := i + 1;
      }
    }

    /** `ldr x17, =addr; br/blr x17`. */
    method WriteBranchBlock(inst: Instruction)
      requires IsBranch(inst.kind)
      requires inst.newPc + 16 < 0x1_0000_0000_0000_0000 && BlockEnd(inst) <= inst.dataAddr
      modifies this`mem
      ensures BlockCode(mem, old(mem), processInstList, inst)
      ensures forall x :: x !in InstWords(inst) ==> Read32(mem, x) == old(Read32(mem, x))
    {
      hide LdrLiteralX, BranchRegister, Destination;
      var p, d := inst.newPc, inst.dataAddr;
      Emit(p, LdrLiteralX(17, p, d));
      Emit(p + 4, BranchRegister(17, inst.kind == BranchLink));
      Set8(d, Destination(processInstList, inst));
    }

    /** The condition skips over a branch to the end of the block, into `ldr x17, =addr; br x17`. */
    method WriteCondBlock(inst: Instruction)
      requires IsCondBranch(inst.kind) || inst.kind in {Tbnz, Tbz}
      requires inst.newPc + 16 < 0x1_0000_0000_0000_0000 && BlockEnd(inst) <= inst.dataAddr
      modifies this`mem
      ensures BlockCode(mem, old(mem), processInstList, inst)
      ensures forall x :: x !in InstWords(inst) ==> Read32(mem, x) == old(Read32(mem, x))
    {
      hide LdrLiteralX, BranchRegister, WithImm19Of2, UncondBranch, Destination, Write64, Read64;
      var p, d := inst.newPc, inst.dataAddr;
      // a test-and-branch has a 14-bit offset field, the others a 19-bit one
      var head := if IsCondBranch(inst.kind) then WithImm19Of2(inst.code)
                  else inst.code % 0x20 + 0x20 * 2 + 0x8_0000 * (inst.code / 0x8_0000);
      var dest := Destination(processInstList, inst);
      EmitFour(p, head, UncondBranch(p + 4, p + 16), LdrLiteralX(17, p + 8, d), BranchRegister(17, false));
      ReadBack(mem, d, dest);
      Set8(d, dest);
    }

    method EmitFour(p: int, w0: U32, w1: U32, w2: U32, w3: U32)
      modifies this`mem
      ensures Read32(mem, p) == w0 && Read32(mem, p + 4) == w1 && Read32(mem, p + 8) == w2 && Read32(mem, p + 12) == w3
      ensures forall x :: x !in CodeWords(p, 16) ==> Read32(mem, x) == old(Read32(mem, x))
    {
      Emit(p, w0);
      Emit(p + 4, w1);
      Emit(p + 8, w2);
      Emit(p + 12, w3);
    }

    /** `ldr rd, =addr`. */
    method WriteAddressBlock(inst: Instruction)
      requires inst.kind in {Adr, Adrp}
      requires inst.newPc + 16 < 0x1_0000_0000_0000_0000 && BlockEnd(inst) <= inst.dataAddr
      modifies this`mem
      ensures BlockCode(mem, old(mem), processInstList, inst)
      ensures forall x :: x !in InstWords(inst) ==> Read32(mem, x) == old(Read32(mem, x))
    {
      hide LdrLiteralX, Destination;
      Emit(inst.newPc, LdrLiteralX(inst.code % 0x20, inst.newPc, inst.dataAddr));
      Set8(inst.dataAddr, Destination(processInstList, inst));
    }

    /** `ldr rt, =addr; ldr rt, [rt]`, or a copy of a literal that was lifted with the window. */
    method WriteLiteralBlock(inst: Instruction)
      requires IsLiteralLoad(inst.kind)
      requires inst.newPc + 16 < 0x1_0000_0000_0000_0000 && BlockEnd(inst) <= inst.dataAddr
      modifies this`mem
      ensures BlockCode(mem, old(mem), processInstList, inst)
      ensures forall x :: x !in InstWords(inst) ==> Read32(mem, x) == old(Read32(mem, x))
    {
      hide LdrLiteralX, LdrRtRn, Lifted, LiteralValue;
      var p, d, rt := inst.newPc, inst.dataAddr, inst.code % 0x20;
      var literal := LiteralValue(mem, processInstList, inst);
      Emit(p, LdrLiteralX(rt, p, d));
      Emit(p + 4, if Lifted(processInstList, inst) then NOP else LdrRtRn(rt, rt));
      Set8(d, literal);
    }

    method WriteVerbatim(inst: Instruction)
      requires inst.newPc + 16 < 0x1_0000_0000_0000_0000 && inst.kind == NotPcRelated
      modifies this`mem
      ensures BlockCode(mem, old(mem), processInstList, inst)
      ensures forall x :: x !in InstWords(inst) ==> Read32(mem, x) == old(Read32(mem, x))
    {
      Emit(inst.newPc, inst.code);
    }

    /** The body of the loop in `transformInstList`: write one block and its literal. */
    method WriteBlock(inst: Instruction)
      requires inst.newPc + 16 < 0x1_0000_0000_0000_0000
      requires inst.kind != NotPcRelated ==> BlockEnd(inst) <= inst.dataAddr
      modifies this`mem
      ensures BlockCode(mem, old(mem), processInstList, inst)
      ensures forall x :: x !in InstWords(inst) ==> Read32(mem, x) == old(Read32(mem, x))
    {
      hide BlockCode, InstWords, BlockLength;
      match inst.kind {
        case NotPcRelated => WriteVerbatim(inst);
        case BranchUncond | BranchLink => WriteBranchBlock(inst);
        case BranchCond | Cbnz | Cbz | Tbnz | Tbz => WriteCondBlock(inst);
        case Adrp | Adr => WriteAddressBlock(inst);
        case LdrLiteral | LdrswLiteral | LdrFpLiteral => WriteLiteralBlock(inst);
      }
    }

    /** `transformInstList`: write every block. The realignment of the data cursor never applies. */
    method TransformInstList(ghost base: set<int>, ghost orig: Memory)
      requires Drafting(base) && OutsideWindow(mmap, processStart) && SameOutside(mmap, orig, mem)
      requires Ordered(processStart, processInstList)
      modifies this`mem, this`currentDataEnd
      ensures Drafting(base) && BlocksDone(mem, orig, DraftNow(), |processInstList|)
      ensures currentDataEnd == old(currentDataEnd)
      ensures SameOn(base, old(mem), mem) && SameOutside(mmap, orig, mem)
    {
      hide Draft, CursorsOk, GoodMmap, BusyOk, SameOn, PagesFrom, Cursor, OutsidePages, BlockCode, SameOutside,
        OutsideWindow, InstWords, Ordered;
      SameOnRefl(base, mem);
      var i := 0;
      while i < |processInstList|
        invariant 0 <= i <= |processInstList|
        invariant Drafting(base) && BlocksDone(mem, orig, DraftNow(), i)
        invariant currentDataEnd == old(currentDataEnd)
        invariant SameOn(base, old(mem), mem) && SameOutside(mmap, orig, mem)
      {
        var inst := processInstList[i];
        CursorRoom(allocAddress, currentPcStart, currentDataEnd, 24);
        if currentDataEnd % 8 != 0 {
          assert false; // the cursor would step down by 4
        }
        label write:
        DraftInst(DraftNow(), mem, busy, base, i);
        WriteBlock(inst);
        BlockFromOriginal(mmap, orig, old@write(mem), mem, processStart, processInstList, i);
        TransformStep(DraftNow(), old@write(mem), mem, orig, busy, base, i);
        SameOnTrans(base, old(mem), old@write(mem), mem);
        ClaimInside(mmap, allocAddress, currentPcStart, currentDataEnd, busy, InstWords(inst), old@write(mem), mem);
        SameOutsideTrans(mmap, orig, old@write(mem), mem);
        i := i + 1;
      }
    }

    // -------------------------------------------------------------- hooking

    /** The functions that can be hooked: real code, apart from every trampoline page. */
    ghost predicate Hookable(func: U64)
    {
      && 0 < func && func % 4 == 0 && func + PAGE < 0x1_0000_0000_0000_0000
      && OutsideWindow(mmap, func)
    }

    method Process(func: U64, ghost limit: nat) returns (r: bool)
      requires Arena(24) && Hookable(func) && Room(limit, ROUNDS)
      modifies this`mem, this`allocAddress, this`currentPcStart, this`currentDataEnd, this`busy, this`ldrAddressList,
               this`defaultSplitSize, this`processInstList, this`glue, this`processLen, this`processStart,
               this`origPcStart, this`origDataEnd
      ensures r && processStart == func && Room(limit, 1)
      ensures origPcStart == old(currentPcStart) && origDataEnd == old(currentDataEnd)
      ensures Drafting(old(busy)) && BlocksDone(mem, old(mem), DraftNow(), |processInstList|)
      ensures ResolvedFrom(old(mem), func, processInstList)
      ensures (|processInstList|, defaultSplitSize) == Scan(old(mem), func, 0, old(defaultSplitSize), [])
      ensures |processInstList| <= 6 && defaultSplitSize >= old(defaultSplitSize)
      ensures ScanEnded(func, processInstList, old(defaultSplitSize), defaultSplitSize)
      ensures old(allocAddress) <= allocAddress && old(busy) <= busy
      ensures SameOn(old(busy), old(mem), mem) && SameOutside(mmap, old(mem), mem)
    {
      hide Draft, CursorsOk, GoodMmap, BusyOk, SameOn, PagesFrom, OutsidePages, SameOutside, BlocksDone, Scan, Resolved,
        ResolvedFrom, LiftedFrom, Ordered, ScanEnded;
      Reset();
      processStart := func;
      EmptyDraft(DraftNow(), mem, busy);
      LiftWindow(func, busy, limit);
      label lifted:
      AnalysisRelatePC();
      DraftResolved(old@lifted(DraftNow()), processInstList, mem, busy, old(busy));
      LiftedThenResolved(old(mem), func, old@lifted(processInstList), processInstList);
      ResolvedLength(func, old@lifted(processInstList), processInstList);
      StretchResolved(func, old@lifted(processInstList), processInstList, old(defaultSplitSize), defaultSplitSize);
      DraftOrdered(DraftNow(), mem, busy, old(busy));
      TransformInstList(old(busy), old(mem));
      SameOnTrans(old(busy), old(mem), old@lifted(mem), mem);
      ScanGrows(old(mem), func, 0, old(defaultSplitSize), []);
      r := true;
    }

    /** Plant the jump back behind the window; or, if a literal was not lifted whole, give everything back. */
    method FinishProcess(func: U64, ghost base: set<int>, ghost orig: Memory, ghost limit: nat)
      returns (ok: bool, ghost tr: Trampoline)
      requires Drafting(base) && Hookable(func) && processStart == func && Room(limit, 1)
      requires BlocksDone(mem, orig, DraftNow(), |processInstList|) && ResolvedFrom(orig, func, processInstList)
      requires |processInstList| <= 6 && defaultSplitSize >= 12
      modifies this`mem, this`allocAddress, this`currentPcStart, this`currentDataEnd, this`busy
      ensures ok == (|processInstList| >= defaultSplitSize / 4)
      ensures old(allocAddress) <= allocAddress && base <= busy
      ensures GoodMmap(mmap) && PagesFrom(mmap, allocAddress) && |allocAddress| <= limit
      ensures tr.func == func && tr.insts == processInstList && Read(orig, func, tr.insts)
      ensures ok ==>
                && Arena(24) && tr.entry == origPcStart
                && HookOk(Hook(tr, orig), mem, busy) && forall x :: Owns(tr, x) ==> x !in base
      ensures !ok ==> currentPcStart == origPcStart && currentDataEnd == origDataEnd && mem == old(mem)
      ensures SameOn(base, old(mem), mem) && SameOutside(mmap, old(mem), mem)
    {
      hide Draft, CursorsOk, GoodMmap, BusyOk, SameOn, PagesFrom, OutsidePages, SameOutside, BlocksDone, Cursor,
        ResolvedFrom, OutsideWindow, GluePlaced, GlueCode, GlueWords, JumpCode, JumpWords, CanUseAdrp, InPages, Near,
        HookOk, Owns, Read;
      tr := DraftNow();
      DraftLengths(tr, mem, busy, base);
      DraftRead(tr, mem, busy, base, orig);
      SameOnRefl(base, mem);
      SameOutsideRefl(mmap, mem);
      if |processInstList| >= defaultSplitSize / 4 && |processInstList| <= WINDOW_SIZE / 4 {
        ghost var m0, busy0 := mem, busy;
        ghost var g := EnsureEnoughSpace(limit, 1);
        ghost var m1, busy1 := mem, busy;
        var p, d := currentPcStart, currentDataEnd;
        var ret := func + 4 * |processInstList|;
        var near := CanUseAdrp(p, ret);
        ExitBooks(mmap, allocAddress, p, d, busy, near);
        EmitJump(p, near, ret, d - 8);
        currentPcStart := p + 12;
        if !near {
          currentDataEnd := d - 8;
        }
        busy := busy + JumpWords(p, near, d - 8);
        SameOnApart(busy1, JumpWords(p, near, d - 8), m1, mem);
        SameOutsidePages(mmap, allocAddress, JumpWords(p, near, d - 8), m1, mem);
        SameOutsideTrans(mmap, m0, m1, mem);
        SameOnShrink(base, busy0, m0, m1);
        SameOnShrink(base, busy1, m1, mem);
        SameOnTrans(base, m0, m1, mem);
        tr := Finished(tr, old(currentPcStart), ret, g, p, d - 8, m0, m1, mem, orig, busy0, base);
        ok := true;
      } else {
        currentPcStart := origPcStart;
        currentDataEnd := origDataEnd;
        ok := false;
      }
    }

    /** The invariant between calls: 24 bytes of room, every live trampoline intact and on words of its own. */
    ghost predicate Valid()
      reads this
    {
      Arena(24) && HooksOk(hooks, mem, busy)
    }

    /** `MemManager()` and `Arm64InlineHook()`: map the first page. */
    constructor (mmap: seq<U64>, mem: Memory)
      requires GoodMmap(mmap) && mmap != []
      ensures this.mmap == mmap && Valid() && hooks == [] && allocAddress == [mmap[0]]
      ensures forall x :: OutsidePages(mmap, x) ==> Read32(this.mem, x) == Read32(mem, x)
    {
      hide GoodMmap, PagesFrom, CursorsOk, BusyOk, OutsidePages, InPage, HooksOk, Read32;
      NoAllocation(mmap);
      this.mmap := mmap;
      this.mem := mem;
      allocAddress := [];
      currentPcStart, currentDataEnd, origPcStart, origDataEnd := 0, 0, 0, 0;
      ldrAddressList, processInstList := [], [];
      defaultSplitSize, processStart, processLen := 0, 0, 0;
      busy, glue, hooks := {}, [], [];
      new;
      AllocNewSpace();
      FirstPage(mmap, allocAddress);
      NoPages(mmap, mem, this.mem);
      NoHooks(this.mem);
      Reset();
    }

    /** Patch the head of the function with a jump to the hook. */
    method PatchFunction(func: U64, hookFunc: U64)
      requires Valid() && Hookable(func)
      modifies this`mem
      ensures Valid()
      ensures Redirected(mem, func, hookFunc)
      ensures forall x :: !(func <= x < func + (if CanUseAdrp(func, hookFunc) then 12 else 20)) ==>
                            Read32(mem, x) == old(Read32(mem, x))
    {
      hide CursorsOk, GoodMmap, BusyOk, PagesFrom, OutsidePages, HooksOk, JumpCode, CanUseAdrp;
      ghost var near := CanUseAdrp(func, hookFunc);
      EmitJump(func, CanUseAdrp(func, hookFunc), hookFunc, func + 12);
      PatchApart(mmap, allocAddress, currentPcStart, currentDataEnd, busy, func, near, old(mem), mem);
      HooksKept(hooks, old(mem), mem, busy, busy);
    }

    /** Hooking one function takes no more than one page. */
    predicate HasSupply()
      reads this
    {
      |allocAddress| < |mmap| || currentDataEnd - currentPcStart >= WINDOW_ROOM
    }

    /** Redirect `func` to `hookFunc`; the original remains callable at `origFunc`, the entry of the trampoline `tr`. */
    method HookFunction(func: U64, hookFunc: U64) returns (ok: bool, origFunc: U64, ghost tr: Trampoline)
      requires Valid() && (func != 0 ==> Hookable(func) && HasSupply())
      modifies this
      ensures Valid()
      ensures ok <==> func != 0 && Liftable(old(mem), func, hookFunc)
      ensures ok ==>
                && hooks == old(hooks) + [Hook(tr, old(mem))]
                && tr.func == func && tr.entry == origFunc == old(currentPcStart)
                && |tr.insts| == Scan(old(mem), func, 0, PatchSize(func, hookFunc), []).0
                && PatchSize(func, hookFunc) <= 4 * |tr.insts|
                && Redirected(mem, func, hookFunc)
      ensures ok ==> LiftedEnough(func, if CanUseAdrp(func, hookFunc) then 12 else 20, tr.insts)
      ensures func != 0 ==> tr.func == func && Read(old(mem), func, tr.insts)
      ensures !ok && func != 0 ==> CannotBeLifted(func, tr.insts)
      ensures !ok ==>
                && hooks == old(hooks)
                && currentPcStart == old(currentPcStart) && currentDataEnd == old(currentDataEnd)
      ensures old(allocAddress) <= allocAddress
      ensures |allocAddress|
           <= |old(allocAddress)| + if old(currentDataEnd) - old(currentPcStart) >= WINDOW_ROOM then 0 else 1
      ensures forall x :: OutsidePages(mmap, x) && (ok ==> !(func <= x < func + PatchSize(func, hookFunc))) ==>
                            Read32(mem, x) == old(Read32(mem, x))
    {
      hide CursorsOk, GoodMmap, BusyOk, SameOn, PagesFrom, OutsidePages, BlocksDone, HooksOk, ResolvedFrom, JumpCode,
        CanUseAdrp, Draft, Cursor, HookOk, Owns, OutsideWindow, Scan, Redirected,
        LiftedEnough, CannotBeLifted, Read, ScanEnded;
      origFunc := 0;
      if CanUseAdrp(func, hookFunc) {
        defaultSplitSize := SPLIT_BY_ADRP_SIZE;
      } else {
        defaultSplitSize := SPLIT_BY_LDR_SIZE;
      }
      if func == 0 {
        return false, 0, DraftNow();
      }
      ghost var base := busy;
      PagesLeft(mmap, allocAddress);
      ghost var limit := |allocAddress| + if currentDataEnd - currentPcStart >= WINDOW_ROOM then 0 else 1;
      var processed := Process(func, limit);
      ghost var m1 := mem;
      ok, tr := FinishProcess(func, base, old(mem), limit);
      StretchDecides(old(mem), func, tr.insts, PatchSize(func, hookFunc), defaultSplitSize);
      SameOnTrans(base, old(mem), m1, mem);
      if ok {
        HooksAppend(hooks, old(mem), base, mem, busy, Hook(tr, old(mem)));
        hooks := hooks + [Hook(tr, old(mem))];
        PatchFunction(func, hookFunc);
        origFunc := origPcStart;
      } else {
        busy := base;
        HooksKept(hooks, old(mem), mem, base, base);
        BusyShrinkBack(old(allocAddress), allocAddress, currentPcStart, currentDataEnd, base);
      }
    }
  }

  /** A word address is a multiple of eight, or four more. */
  lemma HalfAligned(a: nat)
    requires a % 4 == 0
    ensures a % 8 == 0 || a % 8 == 4
    ensures (a + 4) % 8 == 4 - a % 8 && (a + 4) % 4 == 0
  {
    var q, r := a / 8, a % 8;
    DivUnique(a, 4, 2 * q + r / 4, r % 4);
    DivUnique(a + 4, 8, if r == 0 then q else q + 1, 4 - r);
    DivUnique(a + 4, 4, a / 4 + 1, 0);
  }

  /** What the loop of `process` leaves behind: enough has been lifted for the split size, or all that there is. */
  ghost predicate ScanEnded(func: U64, insts: seq<Instruction>, patch: nat, split: nat) {
    && Stretch(func, insts, patch, split)
    && (|insts| == 6 || split <= 4 * |insts|) && (|insts| > 0 ==> 4 * (|insts| - 1) < split)
  }

  /** `get_ldr_data_size` knows the architectural width of every literal load. */
  lemma WidthIsArchitectural(kind: Kind, code: U32)
    requires IsDataReference(kind) && kind == Classify(code)
    ensures LdrDataSize(code) / 8 == if kind == Adr then 8 else AccessWidth(code)
  {
    FieldsOfTopByte(code);
  }

  lemma FieldsOfTopByte(w: U32)
    ensures w / 0x4000_0000 == w / 0x100_0000 / 0x40 && w / 0x400_0000 % 2 == w / 0x100_0000 / 4 % 2
  {
    var op, low := w / 0x100_0000, w % 0x100_0000;
    DivUnique(w, 0x4000_0000, op / 0x40, op % 0x40 * 0x100_0000 + low);
    DivUnique(w, 0x400_0000, op / 4, op % 4 * 0x100_0000 + low);
  }

  lemma NothingStretched(func: U64, patch: nat)
    ensures Stretch(func, [], patch, patch)
  {
  }

  /** Visiting one more instruction moves the split size as far as its data asks for, if it starts under it. */
  lemma StretchNext(func: U64, insts: seq<Instruction>, insts': seq<Instruction>, patch: nat, split: nat)
    requires Stretch(func, insts, patch, split) && func > 0
    requires |insts'| == |insts| + 1 && insts == insts'[..|insts|]
    requires var r := insts'[|insts|]; IsDataReference(r.kind) ==> r.kind == Classify(r.code)
    ensures var r := insts'[|insts|];
            Stretch(func, insts', patch, SplitAfter(r.kind, r.code, r.relatePc, func, split))
  {
    hide Classify, LdrDataSize, AccessWidth;
    var n, r := |insts|, insts'[|insts|];
    var split' := SplitAfter(r.kind, r.code, r.relatePc, func, split);
    if IsDataReference(r.kind) {
      WidthIsArchitectural(r.kind, r.code);
    }
    assert forall i :: 0 <= i < n ==> insts'[i] == insts[i];
    assert split' == split || (RefersToData(r) && func <= r.relatePc && DataEnd(r) == func + split');
    if split' == split && split != patch {
      var i :| 0 <= i < n && RefersToData(insts[i]) && func <= insts[i].relatePc && DataEnd(insts[i]) == func + split;
      assert insts'[i] == insts[i];
    }
  }

  /** What an instruction refers to decides the stretch, not what it is linked to. */
  lemma StretchResolved(func: U64, insts: seq<Instruction>, insts': seq<Instruction>, patch: nat, split: nat)
    requires ScanEnded(func, insts, patch, split) && Resolved(func, insts, insts')
    ensures ScanEnded(func, insts', patch, split)
  {
    hide RelateOf, AccessWidth;
    forall i | 0 <= i < |insts|
      ensures DataEnd(insts'[i]) == DataEnd(insts[i]) && insts'[i].relatePc == insts[i].relatePc
      ensures RefersToData(insts'[i]) == RefersToData(insts[i])
    {
    }
  }

  lemma DraftRead(tr: Trampoline, mem: Memory, busy: set<int>, base: set<int>, orig: Memory)
    requires Draft(tr, mem, busy, base) && ResolvedFrom(orig, tr.func, tr.insts) && |tr.insts| <= 6
    requires tr.func + 24 < 0x1_0000_0000_0000_0000
    ensures Read(orig, tr.func, tr.insts)
  {
    hide RelatedAddress, InstWords, GlueClaim, GlueDone, Parsed;
    forall i | 0 <= i < |tr.insts|
      ensures tr.insts[i].relatePc == RelatedAddress(tr.insts[i].kind, tr.insts[i].code, tr.func + 4 * i)
    {
      assert Visited(tr.func, i, tr.insts[i]);
    }
  }

  /** The comparison in `finishProcess` succeeds when enough is lifted, and fails when no window is long enough. */
  lemma StretchDecides(mem: Memory, func: U64, insts: seq<Instruction>, patch: nat, split: nat)
    requires Read(mem, func, insts) && ScanEnded(func, insts, patch, split) && func % 4 == 0 && patch in {12, 20}
    ensures |insts| >= split / 4 ==> LiftedEnough(func, patch, insts)
    ensures |insts| < split / 4 ==> CannotBeLifted(func, insts)
  {
    hide Read, Stretch, LiftedEnough, CannotBeLifted;
    if |insts| >= split / 4 {
      StretchPatch(func, insts, patch, split);
      StretchSuffices(mem, func, insts, patch, split);
    } else {
      StretchTooLong(func, insts, patch, split);
    }
  }

  lemma StretchPatch(func: U64, insts: seq<Instruction>, patch: nat, split: nat)
    requires Stretch(func, insts, patch, split)
    ensures patch <= split
  {
  }

  function PatchSize(func: U64, hookFunc: U64): nat {
    if CanUseAdrp(func, hookFunc) then SPLIT_BY_ADRP_SIZE else SPLIT_BY_LDR_SIZE
  }

  /** The window can be lifted: no literal in it reaches beyond the last instruction that gets lifted. */
  predicate Liftable(mem: Memory, func: U64, hookFunc: U64) {
    && func + WINDOW_SIZE < 0x1_0000_0000_0000_0000
    && var (n, split) := Scan(mem, func, 0, PatchSize(func, hookFunc), []);
    n >= split / 4
  }

  /** The head of the function jumps to the hook. */
  predicate Redirected(mem: Memory, func: U64, hookFunc: U64) {
    func + 32 < 0x1_0000_0000_0000_0000 && JumpCode(mem, func, CanUseAdrp(func, hookFunc), hookFunc, func + 12)
  }

  /** No literal load or address computation in the first `length` bytes refers to those bytes. */
  ghost predicate NoLiteralInside(mem: Memory, func: U64, length: nat)
    requires length <= WINDOW_SIZE && func + WINDOW_SIZE < 0x1_0000_0000_0000_0000
  {
    forall i :: 0 <= i && 4 * i < length ==>
                  var code := Read32(mem, func + 4 * i);
                  IsDataReference(Classify(code)) ==>
                    !(func <= RelatedAddress(Classify(code), code, func + 4 * i) < func + length)
  }

  /** With no literal inside, exactly the instructions under the patch are lifted, so hooking succeeds. */
  lemma {:induction false} ScanWithoutLiterals(mem: Memory, func: U64, k: nat, split: nat, literals: seq<U64>)
    requires func + WINDOW_SIZE < 0x1_0000_0000_0000_0000 && 4 * k <= split <= WINDOW_SIZE && split % 4 == 0
    requires NoLiteralInside(mem, func, split)
    requires forall l :: l in literals ==> !(func <= l < func + split)
    ensures Scan(mem, func, k, split, literals) == (split / 4, split)
    decreases split - 4 * k
  {
    hide Scan, Classify, RelatedAddress, Read32;
    ScanStep(mem, func, k, split, literals);
    if 4 * k < split {
      var pc: U64 := func + 4 * k;
      var kind := KindAt(mem, pc, literals);
      var target := RelatedAddress(kind, Read32(mem, pc), pc);
      ScanWithoutLiterals(mem, func, k + 1, split, LiteralsAfter(kind, target, literals));
    }
  }

  lemma LiftableWithoutLiterals(mem: Memory, func: U64, hookFunc: U64)
    requires func + WINDOW_SIZE < 0x1_0000_0000_0000_0000
    requires NoLiteralInside(mem, func, PatchSize(func, hookFunc))
    ensures Liftable(mem, func, hookFunc)
  {
    hide Scan, NoLiteralInside, CanUseAdrp;
    ScanWithoutLiterals(mem, func, 0, PatchSize(func, hookFunc), []);
  }

  lemma ScanStep(mem: Memory, func: U64, k: nat, split: nat, literals: seq<U64>)
    requires k <= 6 && func + WINDOW_SIZE < 0x1_0000_0000_0000_0000
    ensures k == 6 || 4 * k >= split ==> Scan(mem, func, k, split, literals) == (k, split)
    ensures k < 6 && 4 * k < split ==>
              var pc: U64 := func + 4 * k;
              var kind := KindAt(mem, pc, literals);
              var code := Read32(mem, pc);
              var target := RelatedAddress(kind, code, pc);
              Scan(mem, func, k, split, literals)
              == Scan(mem, func, k + 1, SplitAfter(kind, code, target, func, split),
                      LiteralsAfter(kind, target, literals))
  {
    hide Classify, Read32;
    if k < 6 {
      NoRelatedAddress(Read32(mem, func + 4 * k), func + 4 * k);
    }
  }

  lemma LiftedAppend(orig: Memory, func: U64, insts: seq<Instruction>, insts': seq<Instruction>)
    requires LiftedFrom(orig, func, insts) && |insts'| == |insts| + 1 && insts == insts'[..|insts|]
    requires var r := insts'[|insts|];
             && r.code == Read32(orig, func + 4 * |insts|) && r.relate == External
             && r.kind == if LoadedAsData(insts, |insts|, func + 4 * |insts|) then NotPcRelated else Classify(r.code)
    ensures LiftedFrom(orig, func, insts')
  {
    hide Read32, Classify, LoadedAsData;
    forall i | 0 <= i < |insts'|
      ensures Parsed(orig, func, insts', i) && insts'[i].relate == External
    {
      SameData(insts, insts', i, func + 4 * i);
      if i < |insts| {
        assert insts'[i] == insts[i] && Parsed(orig, func, insts, i);
      }
    }
  }

  /** The list of literal addresses holds exactly the addresses that the lifted instructions refer to as data. */
  ghost predicate DataListed(literals: seq<U64>, insts: seq<Instruction>)
  {
    forall a: U64 :: a in literals <==> LoadedAsData(insts, |insts|, a)
  }

  lemma NothingLifted(orig: Memory, func: U64)
    ensures LiftedFrom(orig, func, [])
  {
  }

  /** One round of the loop in `process`: what is known of the list, of the literals and of the split size. */
  lemma RoundDone(orig: Memory, func: U64, insts: seq<Instruction>, insts': seq<Instruction>, literals: seq<U64>,
                  patch: nat, split: nat)
    requires LiftedFrom(orig, func, insts) && DataListed(literals, insts) && Stretch(func, insts, patch, split)
             && func > 0
    requires |insts'| == |insts| + 1 && insts == insts'[..|insts|] && 0 <= func + 4 * |insts| < 0x1_0000_0000_0000_0000
    requires var r := insts'[|insts|];
             && r.code == Read32(orig, func + 4 * |insts|) && r.relate == External
             && r.kind == KindAt(orig, func + 4 * |insts|, literals)
    ensures var r := insts'[|insts|];
            && LiftedFrom(orig, func, insts') && DataListed(LiteralsAfter(r.kind, r.relatePc, literals), insts')
            && SplitAfter(r.kind, r.code, r.relatePc, func, split) >= split
            && Stretch(func, insts', patch, SplitAfter(r.kind, r.code, r.relatePc, func, split))
  {
    hide LiftedFrom, DataListed, Stretch, LiteralsAfter, LdrDataSize, LoadedAsData, Read32, Classify;
    KindListed(orig, func + 4 * |insts|, literals, insts);
    LiftedAppend(orig, func, insts, insts');
    DataAppend(literals, insts, insts');
    StretchNext(func, insts, insts', patch, split);
  }

  lemma NothingListed()
    ensures DataListed([], [])
  {
  }

  lemma KindListed(mem: Memory, pc: U64, literals: seq<U64>, insts: seq<Instruction>)
    requires DataListed(literals, insts)
    ensures KindAt(mem, pc, literals)
         == if LoadedAsData(insts, |insts|, pc) then NotPcRelated else Classify(Read32(mem, pc))
  {
    hide LoadedAsData, Classify, Read32;
  }

  lemma SameKind(m: Memory, m': Memory, pc: U64, literals: seq<U64>)
    requires Read32(m', pc) == Read32(m, pc)
    ensures KindAt(m', pc, literals) == KindAt(m, pc, literals)
  {
    hide Read32, Classify;
  }

  lemma UnchangedWord(mmap: seq<U64>, m: Memory, m': Memory, x: int)
    requires SameOutside(mmap, m, m') && OutsidePages(mmap, x)
    ensures Read32(m', x) == Read32(m, x)
  {
    hide OutsidePages, Read32;
  }

  lemma DataAppend(literals: seq<U64>, insts: seq<Instruction>, insts': seq<Instruction>)
    requires DataListed(literals, insts) && |insts'| == |insts| + 1 && insts == insts'[..|insts|]
    ensures var r := insts'[|insts|]; DataListed(LiteralsAfter(r.kind, r.relatePc, literals), insts')
  {
    var r := insts'[|insts|];
    forall a: U64
      ensures a in LiteralsAfter(r.kind, r.relatePc, literals) <==> LoadedAsData(insts', |insts'|, a)
    {
      SameData(insts, insts', |insts|, a);
      assert LoadedAsData(insts', |insts'|, a)
        <==> LoadedAsData(insts', |insts|, a) || (IsDataReference(r.kind) && r.relatePc == a);
    }
  }

  lemma NoRelatedAddress(code: U32, pc: U64)
    ensures RelatedAddress(NotPcRelated, code, pc) == 0
  {
  }

  lemma EmptyDraft(tr: Trampoline, mem: Memory, busy: set<int>)
    requires tr.insts == [] && tr.glue == []
    ensures Draft(tr, mem, busy, busy)
  {
  }

  lemma ResolvedLength(func: U64, insts: seq<Instruction>, insts': seq<Instruction>)
    requires Resolved(func, insts, insts')
    ensures |insts'| == |insts|
  {
  }

  lemma {:induction false} ScanGrows(mem: Memory, func: U64, k: nat, split: nat, literals: seq<U64>)
    requires k <= 6 && func + WINDOW_SIZE < 0x1_0000_0000_0000_0000
    ensures Scan(mem, func, k, split, literals).1 >= split && Scan(mem, func, k, split, literals).0 <= 6
    decreases 6 - k
  {
    hide Scan, Classify, RelatedAddress;
    ScanStep(mem, func, k, split, literals);
    if k < 6 && 4 * k < split {
      var pc: U64 := func + 4 * k;
      var kind := KindAt(mem, pc, literals);
      var target := RelatedAddress(kind, Read32(mem, pc), pc);
      ScanGrows(mem, func, k + 1, SplitAfter(kind, Read32(mem, pc), target, func, split),
                LiteralsAfter(kind, target, literals));
    }
  }

  /** Assemble the finished trampoline from the draft, the last piece of glue and the exit jump. */
  lemma Finished(draft: Trampoline, from: U64, ret: U64, g: Glue, p: U64, literal: U64,
                 m0: Memory, m1: Memory, m2: Memory, orig: Memory, busy0: set<int>, base: set<int>)
    returns (tr: Trampoline)
    requires Draft(draft, m0, busy0, base) && BlocksDone(m0, orig, draft, |draft.insts|)
    requires ResolvedFrom(orig, draft.func, draft.insts) && 0 < |draft.insts| <= 6
    requires 0 < draft.func && draft.func % 4 == 0 && draft.func + 24 < 0x1_0000_0000_0000_0000
    requires from == Cursor(draft, |draft.insts|) && ret == draft.func + 4 * |draft.insts|
    requires p % 4 == 0 && p + 16 < 0x1_0000_0000_0000_0000 && Near(p, literal)
    requires GluePlaced(from, g, p) && GlueCode(m1, from, g, p) && GlueWords(from, g, p) !! busy0
    requires SameOn(busy0, m0, m1) && SameOn(busy0 + GlueWords(from, g, p), m1, m2)
    requires JumpWords(p, CanUseAdrp(p, ret), literal) !! busy0 + GlueWords(from, g, p)
    requires JumpCode(m2, p, CanUseAdrp(p, ret), ret, literal)
    ensures tr == draft.(glue := draft.glue + [g], exit := p, exitLiteral := literal)
    ensures HookOk(Hook(tr, orig), m2, busy0 + GlueWords(from, g, p) + JumpWords(p, CanUseAdrp(p, ret), literal))
    ensures forall x :: Owns(tr, x) ==> x !in base
  {
    hide Draft, BlocksDone, Cursor, GluePlaced, GlueCode, GlueWords, JumpCode, JumpWords, CanUseAdrp, Near, SameOn,
      RelateOf, RelatedAddress, Classify, Read32, TrampolineCode, Placed, Owns, Apart, GlueClaim;
    var more := GlueWords(from, g, p) + JumpWords(p, CanUseAdrp(p, ret), literal);
    tr := draft.(glue := draft.glue + [g], exit := p, exitLiteral := literal);
    DraftLengths(draft, m0, busy0, base);
    SameOnShrink(busy0, busy0 + GlueWords(from, g, p), m1, m2);
    SameOnTrans(busy0, m0, m1, m2);
    SameOnShrink(GlueWords(from, g, p), busy0 + GlueWords(from, g, p), m1, m2);
    GlueKept(m1, m2, from, g, p);
    TrampolineFinished(draft, m0, m2, orig, busy0, base, g, p, literal);
    LastClaim(draft, tr, from);
    TrampolineApart(draft, m0, busy0, base, g, p, literal);
    assert more !! base;
    SameCursor(draft, tr);
    forall x | Owns(tr, x)
      ensures x in busy0 + more && x !in base
    {
      TrampolineClaims(draft, m0, busy0, base, g, p, literal, more, x);
    }
    assert busy0 + more == busy0 + GlueWords(from, g, p) + JumpWords(p, CanUseAdrp(p, ret), literal);
  }

  lemma LastClaim(draft: Trampoline, tr: Trampoline, from: U64)
    requires tr.insts == draft.insts && tr.entry == draft.entry && |tr.glue| == |tr.insts| + 1
    requires from == Cursor(draft, |draft.insts|)
    ensures GlueClaim(tr, |tr.insts|) == GlueWords(from, tr.glue[|tr.insts|], tr.exit)
  {
    hide GlueWords;
  }

  lemma SameCursor(a: Trampoline, b: Trampoline)
    requires a.insts == b.insts && a.entry == b.entry
    ensures Cursor(a, |a.insts|) == Cursor(b, |b.insts|)
  {
  }

  lemma GlueKept(m: Memory, m': Memory, from: U64, g: Glue, to: int)
    requires GlueCode(m, from, g, to) && SameOn(GlueWords(from, g, to), m, m')
    ensures GlueCode(m', from, g, to)
  {
    hide GlueCode, GlueWords;
    GlueCodeStable(m, m', from, g, to);
  }

  lemma PagesLeft(mmap: seq<U64>, pages: seq<U64>)
    requires PagesFrom(mmap, pages)
    ensures |pages| <= |mmap|
  {
  }

  lemma NoAllocation(mmap: seq<U64>)
    ensures PagesFrom(mmap, [])
  {
  }

  lemma NoHooks(mem: Memory)
    ensures HooksOk([], mem, {})
  {
    hide HookOk, Disjoint;
  }

  lemma NoPages(mmap: seq<U64>, before: Memory, after: Memory)
    requires mmap != [] && forall x :: !InPage(mmap[0], x) ==> Read32(after, x) == Read32(before, x)
    ensures forall x :: OutsidePages(mmap, x) ==> Read32(after, x) == Read32(before, x)
  {
    hide InPage, Read32;
    forall x | OutsidePages(mmap, x) ensures Read32(after, x) == Read32(before, x) {
      assert !InPage(mmap[0], x);
    }
  }

  lemma FirstPage(mmap: seq<U64>, pages: seq<U64>)
    requires GoodMmap(mmap) && mmap != [] && pages == [mmap[0]]
    ensures PagesFrom(mmap, pages) && CursorsOk(pages, mmap[0], mmap[0] + PAGE, 24)
    ensures BusyOk(pages, mmap[0], mmap[0] + PAGE, {})
  {
    assert pages[0] == mmap[0];
    PageMultiple(mmap[0]);
  }

  lemma PatchWords(func: U64, near: bool, x: int)
    requires x in JumpWords(func, near, func + 12)
    ensures func <= x < func + (if near then 12 else 20)
  {
  }

  /** The patched words belong to the function, not to any trampoline. */
  lemma PatchApart(mmap: seq<U64>, pages: seq<U64>, pc: U64, dataEnd: U64, busy: set<int>, func: U64, near: bool,
                   m: Memory, m': Memory)
    requires PagesFrom(mmap, pages) && BusyOk(pages, pc, dataEnd, busy) && OutsideWindow(mmap, func)
    requires forall x :: x !in JumpWords(func, near, func + 12) ==> Read32(m, x) == Read32(m', x)
    ensures SameOn(busy, m, m')
    ensures forall x :: !(func <= x < func + (if near then 12 else 20)) ==> Read32(m', x) == Read32(m, x)
  {
    hide JumpWords, OutsidePages, BusyOk, Read32;
    forall x | x in JumpWords(func, near, func + 12)
      ensures x !in busy && func <= x < func + (if near then 12 else 20)
    {
      PatchWords(func, near, x);
      BusyInside(mmap, pages, pc, dataEnd, busy, x);
    }
  }
}
