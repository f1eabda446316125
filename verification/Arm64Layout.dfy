/** Who owns which word of the trampoline pages: the two-ended allocation of code and literals. */
module Arm64Layout {
  import opened Arm64Bits
  import opened Arm64Classify
  import opened Arm64Encode
  import opened Arm64Machine
  import opened Arm64Trampoline
  import opened Arm64Simulation

  const PAGE: int := 0x1000

  /** The kernel's side of `mmap`: the pages that successive calls return, after which it has no more. Pages are
      aligned, inside the address space and never handed out twice. */
  predicate GoodMmap(mmap: seq<U64>)
  {
    && (forall k :: 0 <= k < |mmap| ==>
          mmap[k] % 0x1000 == 0 && 0 < mmap[k] && mmap[k] + 2 * PAGE < 0x1_0000_0000_0000_0000)
    && (forall j, k :: 0 <= j < k < |mmap| ==> mmap[j] != mmap[k])
  }

  predicate InPage(page: int, x: int) { page <= x < page + PAGE }

  /** x is in no page the allocator will ever be given. */
  predicate OutsidePages(mmap: seq<U64>, x: int)
  {
    forall k :: 0 <= k < |mmap| ==> !InPage(mmap[k], x)
  }

  predicate InPages(pages: seq<U64>, x: int)
  {
    exists k :: 0 <= k < |pages| && InPage(pages[k], x)
  }

  predicate PagesFrom(mmap: seq<U64>, pages: seq<U64>)
  {
    |pages| <= |mmap| && forall k :: 0 <= k < |pages| ==> pages[k] == mmap[k]
  }

  /** Room for n more rounds of glue and block with at most `limit` pages: one is still to be had, or the current one
      will do. */
  predicate Supply(mmap: seq<U64>, limit: nat, pages: seq<U64>, pc: int, dataEnd: int, n: int)
  {
    && |pages| <= limit <= |mmap|
    && (|pages| < limit || pc + 24 + 28 * n <= dataEnd)
  }

  lemma SupplyUsed(mmap: seq<U64>, limit: nat, pages: seq<U64>, pc: int, dataEnd: int, n: int, pc': int, dataEnd': int)
    requires Supply(mmap, limit, pages, pc, dataEnd, n) && pc' <= pc + 20 && dataEnd - 8 <= dataEnd'
    ensures Supply(mmap, limit, pages, pc', dataEnd', n - 1)
  {
  }

  /** The code cursor and the data cursor lie in one allocated page, aligned, with `room` bytes between them. */
  predicate CursorsOk(pages: seq<U64>, pc: U64, dataEnd: U64, room: nat)
  {
    && pc % 4 == 0 && dataEnd % 8 == 0 && pc + room <= dataEnd
    && exists k :: 0 <= k < |pages| && pages[k] <= pc && dataEnd <= pages[k] + PAGE
  }

  /** Every busy word lies in an allocated page, outside the free stretch between the cursors. */
  ghost predicate BusyOk(pages: seq<U64>, pc: U64, dataEnd: U64, busy: set<int>)
  {
    forall x :: x in busy ==> InPages(pages, x) && !(pc <= x < dataEnd)
  }

  predicate SameOn(words: set<int>, m: Memory, m': Memory)
  {
    forall x :: x in words ==> Read32(m, x) == Read32(m', x)
  }

  ghost predicate SameOutside(mmap: seq<U64>, m: Memory, m': Memory)
  {
    forall x :: OutsidePages(mmap, x) ==> Read32(m, x) == Read32(m', x)
  }

  // ---------------------------------------------------------------- a page is never shared

  lemma PagesApart(a: U64, b: U64, x: int)
    requires a % 0x1000 == 0 && b % 0x1000 == 0 && InPage(a, x) && InPage(b, x)
    ensures a == b
  {
  }

  /** A fresh page overlaps no page handed out before. */
  lemma FreshPage(mmap: seq<U64>, pages: seq<U64>, x: int)
    requires GoodMmap(mmap) && PagesFrom(mmap, pages) && |pages| < |mmap| && InPages(pages, x)
    ensures !InPage(mmap[|pages|], x)
  {
    var k :| 0 <= k < |pages| && InPage(pages[k], x);
    if InPage(mmap[|pages|], x) {
      PagesApart(mmap[|pages|], pages[k], x);
    }
  }

  lemma PagesGrow(pages: seq<U64>, page: U64, x: int)
    requires InPages(pages, x) || InPage(page, x)
    ensures InPages(pages + [page], x)
  {
    var all := pages + [page];
    if InPages(pages, x) {
      var k :| 0 <= k < |pages| && InPage(pages[k], x);
      assert all[k] == pages[k];
    } else {
      assert all[|pages|] == page;
    }
  }

  lemma AllocatedNotOutside(mmap: seq<U64>, pages: seq<U64>, x: int)
    requires PagesFrom(mmap, pages) && InPages(pages, x)
    ensures !OutsidePages(mmap, x)
  {
    var k :| 0 <= k < |pages| && InPage(pages[k], x);
    assert InPage(mmap[k], x);
  }

  /** The stretch between the cursors is allocated. */
  lemma FreeIsAllocated(pages: seq<U64>, pc: U64, dataEnd: U64, room: nat, x: int)
    requires CursorsOk(pages, pc, dataEnd, room) && pc <= x < dataEnd
    ensures InPages(pages, x)
  {
    var k :| 0 <= k < |pages| && pages[k] <= pc && dataEnd <= pages[k] + PAGE;
    assert InPage(pages[k], x);
  }

  /** Shrinking the free stretch by words that become busy keeps the books straight. */
  lemma BusyGrow(pages: seq<U64>, pc: U64, dataEnd: U64, room: nat, busy: set<int>, more: set<int>, pc': U64,
                 dataEnd': U64)
    requires CursorsOk(pages, pc, dataEnd, room) && BusyOk(pages, pc, dataEnd, busy)
    requires pc <= pc' && dataEnd' <= dataEnd
    requires forall x :: x in more ==> pc <= x < dataEnd && !(pc' <= x < dataEnd')
    ensures BusyOk(pages, pc', dataEnd', busy + more)
  {
    forall x | x in more ensures InPages(pages, x) {
      FreeIsAllocated(pages, pc, dataEnd, room, x);
    }
  }

  /** The words of a page-to-page jump: 16 bytes at the code cursor, 8 below the data cursor, one in the new page. */
  lemma ChainWords(pc: U64, dataEnd: U64, page: U64, x: int)
    requires pc + 24 <= dataEnd && x in GlueWords(pc, Chain(page, dataEnd - 8), page + 4)
    ensures pc <= x < dataEnd || x == page
  {
    hide CanUseAdrp;
  }

  lemma ChainPlaced(pages: seq<U64>, pc: U64, dataEnd: U64, page: U64)
    requires CursorsOk(pages, pc, dataEnd, 24) && forall k :: 0 <= k < |pages| ==> pages[k] % 0x1000 == 0
    requires page % 0x1000 == 0 && page + PAGE < 0x1_0000_0000_0000_0000
    ensures GluePlaced(pc, Chain(page, dataEnd - 8), page + 4) && pc + 16 < 0x1_0000_0000_0000_0000
  {
    hide GoodMmap;
    var k :| 0 <= k < |pages| && pages[k] <= pc && dataEnd <= pages[k] + PAGE;
    PageOf(pages[k], pc);
    PageOf(pages[k], pc + 4);
    PageMultiple(page);
    WordGap(pc, dataEnd);
  }

  lemma PageOf(page: int, x: int)
    requires page % 0x1000 == 0 && InPage(page, x)
    ensures x / 0x1000 == page / 0x1000
  {
    DivUnique(x, 0x1000, page / 0x1000, x - page);
  }

  lemma PageMultiple(page: int)
    requires page % 0x1000 == 0
    ensures page % 4 == 0 && (page + 4) % 4 == 0 && (page + PAGE) % 8 == 0
  {
    var q := page / 0x1000;
    DivUnique(page, 4, 0x400 * q, 0);
    DivUnique(page + 4, 4, 0x400 * q + 1, 0);
    DivUnique(page + PAGE, 8, 0x200 * q + 0x200, 0);
  }

  lemma WordGap(pc: int, dataEnd: int)
    requires pc % 4 == 0 && dataEnd % 8 == 0
    ensures (dataEnd - 8 - (pc + 4)) % 4 == 0
  {
    DivUnique(dataEnd - 8 - (pc + 4), 4, 2 * (dataEnd / 8) - pc / 4 - 3, 0);
  }

  lemma FreshCursors(mmap: seq<U64>, pages: seq<U64>)
    requires GoodMmap(mmap) && PagesFrom(mmap, pages) && |pages| < |mmap|
    ensures var page := mmap[|pages|];
            PagesFrom(mmap, pages + [page]) && CursorsOk(pages + [page], page + 4, page + PAGE, 52)
  {
    var page := mmap[|pages|];
    assert (pages + [page])[|pages|] == page;
    PageMultiple(page);
  }

  lemma FreshPageNotFree(mmap: seq<U64>, pages: seq<U64>, pc: U64, dataEnd: U64, x: int)
    requires GoodMmap(mmap) && PagesFrom(mmap, pages) && |pages| < |mmap| && CursorsOk(pages, pc, dataEnd, 24)
             && pc <= x < dataEnd
    ensures InPages(pages, x) && !InPage(mmap[|pages|], x)
  {
    FreeIsAllocated(pages, pc, dataEnd, 24, x);
    FreshPage(mmap, pages, x);
  }

  /** The words of a chain jump were free, and are allocated. */
  lemma ChainClaim(mmap: seq<U64>, pages: seq<U64>, pc: U64, dataEnd: U64, busy: set<int>, x: int)
    requires GoodMmap(mmap) && PagesFrom(mmap, pages) && |pages| < |mmap|
    requires CursorsOk(pages, pc, dataEnd, 24) && BusyOk(pages, pc, dataEnd, busy)
    requires var page := mmap[|pages|]; x in GlueWords(pc, Chain(page, dataEnd - 8), page + 4)
    ensures var page := mmap[|pages|];
            InPages(pages + [page], x) && x !in busy && !OutsidePages(mmap, x) && !(page + 4 <= x < page + PAGE)
  {
    hide GlueWords, InPages, CursorsOk;
    var page := mmap[|pages|];
    CursorRoom(pages, pc, dataEnd, 24);
    ChainWords(pc, dataEnd, page, x);
    if x == page {
      assert InPage(page, x);
      if x in busy { FreshPage(mmap, pages, x); }
    } else {
      FreshPageNotFree(mmap, pages, pc, dataEnd, x);
    }
    PagesGrow(pages, page, x);
    FreshCursors(mmap, pages);
    AllocatedNotOutside(mmap, pages + [page], x);
  }

  lemma CursorRoom(pages: seq<U64>, pc: U64, dataEnd: U64, room: nat)
    requires CursorsOk(pages, pc, dataEnd, room)
    ensures pc + room <= dataEnd && pc % 4 == 0 && dataEnd % 8 == 0
    ensures forall more: nat :: pc + more <= dataEnd ==> CursorsOk(pages, pc, dataEnd, more)
  {
  }

  /** Chaining to a fresh page keeps the books straight: the jump's words were free, the new page was unused. */
  lemma ChainBooks(mmap: seq<U64>, pages: seq<U64>, pc: U64, dataEnd: U64, busy: set<int>)
    requires GoodMmap(mmap) && PagesFrom(mmap, pages) && |pages| < |mmap|
    requires CursorsOk(pages, pc, dataEnd, 24) && BusyOk(pages, pc, dataEnd, busy)
    ensures var page := mmap[|pages|];
            && PagesFrom(mmap, pages + [page])
            && CursorsOk(pages + [page], page + 4, page + PAGE, 52)
            && GluePlaced(pc, Chain(page, dataEnd - 8), page + 4) && pc + 16 < 0x1_0000_0000_0000_0000
            && !(pc <= page < dataEnd)
            && (forall x :: x in busy ==> !InPage(page, x))
    ensures var page := mmap[|pages|];
            var words := GlueWords(pc, Chain(page, dataEnd - 8), page + 4);
            && BusyOk(pages + [page], page + 4, page + PAGE, busy + words)
            && words !! busy
            && (forall x :: x in words ==> !OutsidePages(mmap, x))
  {
    hide GlueWords, GluePlaced, InPages, CursorsOk, OutsidePages;
    CursorRoom(pages, pc, dataEnd, 24);
    var page := mmap[|pages|];
    var words := GlueWords(pc, Chain(page, dataEnd - 8), page + 4);
    PageFacts(mmap, pages);
    ChainPlaced(pages, pc, dataEnd, page);
    FreshCursors(mmap, pages);
    if pc <= page < dataEnd {
      FreshPageNotFree(mmap, pages, pc, dataEnd, page);
    }
    forall x | x in busy ensures !InPage(page, x) && InPages(pages + [page], x) {
      FreshPage(mmap, pages, x);
      PagesGrow(pages, page, x);
    }
    forall x | x in words
      ensures InPages(pages + [page], x) && x !in busy && !OutsidePages(mmap, x) && !(page + 4 <= x < page + PAGE)
    {
      ChainClaim(mmap, pages, pc, dataEnd, busy, x);
    }
    forall x | x in words ensures x !in busy {
      ChainClaim(mmap, pages, pc, dataEnd, busy, x);
    }
  }

  lemma PageFacts(mmap: seq<U64>, pages: seq<U64>)
    requires GoodMmap(mmap) && PagesFrom(mmap, pages) && |pages| < |mmap|
    ensures forall k :: 0 <= k < |pages| ==> pages[k] % 0x1000 == 0
    ensures mmap[|pages|] % 0x1000 == 0 && mmap[|pages|] + 2 * PAGE < 0x1_0000_0000_0000_0000
  {
  }

  // ---------------------------------------------------------------- glue, piece by piece

  lemma DirectGlue(mem: Memory, from: U64)
    requires from % 4 == 0 && from + 16 < 0x1_0000_0000_0000_0000
    ensures GluePlaced(from, Direct, from) && GlueCode(mem, from, Direct, from) && GlueWords(from, Direct, from) == {}
  {
  }

  lemma ChainGlue(mem: Memory, from: U64, glue: Glue)
    requires glue.Chain? && from + 16 < 0x1_0000_0000_0000_0000 && ChainCode(mem, from, glue.page, glue.literal)
    ensures GlueCode(mem, from, glue, glue.page + 4)
  {
    hide ChainCode;
  }

  /** A NOP appended to a finished jump (or to nothing) is glue again. */
  lemma GlueThenNop(m: Memory, m': Memory, from: U64, glue: Glue, mid: U64, to: U64)
    requires mid == if glue.Chain? then glue.page + 4 else from
    requires GluePlaced(from, glue, mid) && GlueCode(m, from, glue, mid)
    requires SameOn(GlueWords(from, glue, mid), m, m') && NopUpTo(m', mid, to) && to % 4 == 0
    ensures GluePlaced(from, glue, to) && GlueCode(m', from, glue, to)
    ensures GlueWords(from, glue, to) == GlueWords(from, glue, mid) + NopWords(mid, to)
  {
    hide ChainCode, CanUseAdrp, JumpWords;
    GlueCodeStable(m, m', from, glue, mid);
  }

  // ---------------------------------------------------------------- placing one instruction

  function NopWords(from: int, to: int): set<int> { if to == from then {} else {from} }

  /** The data cursor after placing an instruction. */
  function DataEndAfter(dataEnd: U64, kind: Kind): int { if kind == NotPcRelated then dataEnd else dataEnd - 8 }

  lemma InstWordsRange(inst: Instruction, x: int)
    requires x in InstWords(inst)
    ensures inst.newPc <= x < BlockEnd(inst) || (inst.kind != NotPcRelated && inst.dataAddr <= x < inst.dataAddr + 8)
  {
  }

  lemma BlockLengthRange(kind: Kind)
    ensures 4 <= BlockLength(kind) <= 16 && BlockLength(kind) % 4 == 0
  {
  }

  /** Cursors that have moved towards each other are still in order. */
  lemma CursorsMove(pages: seq<U64>, pc: U64, dataEnd: U64, room: nat, pc': U64, dataEnd': U64, room': nat)
    requires CursorsOk(pages, pc, dataEnd, room) && pc <= pc' && dataEnd' <= dataEnd
    requires pc' % 4 == 0 && dataEnd' % 8 == 0 && pc' + room' <= dataEnd'
    ensures CursorsOk(pages, pc', dataEnd', room') && dataEnd - pc <= PAGE
  {
  }

  lemma NearWithinPage(p: int, d: int)
    requires p % 4 == 0 && d % 8 == 0 && p <= d - 8 && d - p <= PAGE
    ensures Near(p, d - 8)
  {
  }

  lemma StillAligned(pc: int, length: int, dataEnd: int)
    requires pc % 4 == 0 && length % 4 == 0 && dataEnd % 8 == 0
    ensures (pc + 4) % 4 == 0 && (pc + length) % 4 == 0 && (pc + 4 + length) % 4 == 0 && (dataEnd - 8) % 8 == 0
  {
    DivUnique(pc + 4, 4, pc / 4 + 1, 0);
    DivUnique(pc + length, 4, pc / 4 + length / 4, 0);
    DivUnique(pc + 4 + length, 4, pc / 4 + 1 + length / 4, 0);
    DivUnique(dataEnd - 8, 8, dataEnd / 8 - 1, 0);
  }

  lemma PlacedNear(pages: seq<U64>, pc: U64, dataEnd: U64, inst: Instruction)
    requires CursorsOk(pages, pc, dataEnd, 52) && dataEnd + PAGE < 0x1_0000_0000_0000_0000
    requires inst.newPc == pc || inst.newPc == pc + 4
    requires inst.kind != NotPcRelated ==> inst.dataAddr == dataEnd - 8
    ensures inst.newPc % 4 == 0 && inst.newPc + 16 < 0x1_0000_0000_0000_0000
    ensures inst.kind != NotPcRelated ==> Near(inst.newPc, inst.dataAddr) && BlockEnd(inst) <= inst.dataAddr
    ensures CursorsOk(pages, BlockEnd(inst), DataEndAfter(dataEnd, inst.kind), 24)
  {
    hide BlockLength, CursorsOk, Near;
    CursorRoom(pages, pc, dataEnd, 52);
    BlockLengthRange(inst.kind);
    StillAligned(pc, BlockLength(inst.kind), dataEnd);
    CursorsMove(pages, pc, dataEnd, 52, BlockEnd(inst), DataEndAfter(dataEnd, inst.kind), 24);
    NearWithinPage(inst.newPc, dataEnd);
  }

  /** Placing an instruction, its literal and perhaps a NOP keeps the books straight, with 24 bytes to spare. */
  lemma PlaceBooks(pages: seq<U64>, pc: U64, dataEnd: U64, busy: set<int>, inst: Instruction)
    requires CursorsOk(pages, pc, dataEnd, 52) && BusyOk(pages, pc, dataEnd, busy)
    requires dataEnd + PAGE < 0x1_0000_0000_0000_0000
    requires inst.newPc == pc || inst.newPc == pc + 4
    requires inst.kind != NotPcRelated ==> inst.dataAddr == dataEnd - 8
    ensures CursorsOk(pages, BlockEnd(inst), DataEndAfter(dataEnd, inst.kind), 24)
    ensures BusyOk(pages, BlockEnd(inst), DataEndAfter(dataEnd, inst.kind),
                   busy + InstWords(inst) + NopWords(pc, inst.newPc))
    ensures InstWords(inst) !! busy && NopWords(pc, inst.newPc) !! busy && InstWords(inst) !! NopWords(pc, inst.newPc)
    ensures forall x :: x in NopWords(pc, inst.newPc) ==> InPages(pages, x)
  {
    hide BlockLength, InstWords, InPages;
    CursorRoom(pages, pc, dataEnd, 52);
    PlacedNear(pages, pc, dataEnd, inst);
    BlockLengthRange(inst.kind);
    var nop := NopWords(pc, inst.newPc);
    var more := InstWords(inst) + nop;
    var dataEnd' := DataEndAfter(dataEnd, inst.kind);
    forall x | x in InstWords(inst)
      ensures pc <= x < dataEnd && !(BlockEnd(inst) <= x < dataEnd') && x !in nop && x !in busy
    {
      InstWordsRange(inst, x);
    }
    forall x | x in nop
      ensures pc <= x < dataEnd && x !in busy && InPages(pages, x)
    {
      FreeIsAllocated(pages, pc, dataEnd, 52, x);
    }
    BusyGrow(pages, pc, dataEnd, 52, busy, more, BlockEnd(inst), dataEnd');
    assert busy + more == busy + InstWords(inst) + nop;
  }

  lemma PagesBound(mmap: seq<U64>, pages: seq<U64>)
    requires GoodMmap(mmap) && PagesFrom(mmap, pages)
    ensures forall k :: 0 <= k < |pages| ==> pages[k] % 0x1000 == 0 && pages[k] + 2 * PAGE < 0x1_0000_0000_0000_0000
  {
  }

  lemma CursorBound(mmap: seq<U64>, pages: seq<U64>, pc: U64, dataEnd: U64, room: nat)
    requires GoodMmap(mmap) && PagesFrom(mmap, pages) && CursorsOk(pages, pc, dataEnd, room)
    ensures dataEnd + PAGE < 0x1_0000_0000_0000_0000
  {
    PagesBound(mmap, pages);
  }

  lemma SameOutsidePages(mmap: seq<U64>, pages: seq<U64>, words: set<int>, m: Memory, m': Memory)
    requires PagesFrom(mmap, pages) && forall x :: x in words ==> InPages(pages, x)
    requires forall x :: x !in words ==> Read32(m, x) == Read32(m', x)
    ensures SameOutside(mmap, m, m')
  {
    hide InPages;
    forall x | OutsidePages(mmap, x) ensures Read32(m, x) == Read32(m', x) {
      if x in words { AllocatedNotOutside(mmap, pages, x); }
    }
  }

  // ---------------------------------------------------------------- the window under construction

  /** A lifted instruction as it stands after its visit. */
  predicate Visited(func: U64, i: nat, inst: Instruction)
  {
    && inst.pc == func + 4 * i
    && inst.newPc % 4 == 0 && inst.newPc + 16 < 0x1_0000_0000_0000_0000
    && (inst.kind != NotPcRelated ==> Near(inst.newPc, inst.dataAddr) && BlockEnd(inst) <= inst.dataAddr)
    && inst.relatePc == RelatedAddress(inst.kind, inst.code, inst.pc)
  }

  /** Glue i of a window under construction, as written. */
  predicate GlueDone(mem: Memory, tr: Trampoline, i: nat)
    requires i < |tr.insts| && i < |tr.glue|
  {
    && GluePlaced(Cursor(tr, i), tr.glue[i], tr.insts[i].newPc)
    && GlueCode(mem, Cursor(tr, i), tr.glue[i], tr.insts[i].newPc)
  }

  function GlueClaim(tr: Trampoline, i: nat): set<int>
    requires i <= |tr.insts| && i < |tr.glue|
  {
    var from := Cursor(tr, i);
    if 0 <= from < 0x1_0000_0000_0000_0000 then GlueWords(from, tr.glue[i], Landing(tr, i)) else {}
  }

  /** The window under construction: all visited instructions have their own words, apart from each other, from the
      glue and from everything that was busy before (`base`). */
  ghost predicate Draft(tr: Trampoline, mem: Memory, busy: set<int>, base: set<int>)
  {
    && |tr.glue| == |tr.insts|
    && base <= busy
    && (forall i :: 0 <= i < |tr.insts| ==> Visited(tr.func, i, tr.insts[i]) && GlueDone(mem, tr, i))
    && (forall i :: 0 <= i < |tr.insts| ==> InstWords(tr.insts[i]) <= busy && InstWords(tr.insts[i]) !! base)
    && (forall i :: 0 <= i < |tr.insts| ==> GlueClaim(tr, i) <= busy && GlueClaim(tr, i) !! base)
    && (forall i, j :: 0 <= i < j < |tr.insts| ==> InstWords(tr.insts[i]) !! InstWords(tr.insts[j]))
    && (forall i, j :: 0 <= i < |tr.insts| && 0 <= j < |tr.insts| ==> InstWords(tr.insts[i]) !! GlueClaim(tr, j))
    && (forall i, j :: 0 <= i < j < |tr.insts| ==> GlueClaim(tr, i) !! GlueClaim(tr, j))
  }

  /** No two pieces of a trampoline, be they blocks with their literals, glue or the exit jump, share a word. */
  ghost predicate Apart(tr: Trampoline)
    requires Placed(tr)
  {
    && (forall i, j :: 0 <= i < j < |tr.insts| ==> InstWords(tr.insts[i]) !! InstWords(tr.insts[j]))
    && (forall i, j :: 0 <= i < |tr.insts| && 0 <= j <= |tr.insts| ==> InstWords(tr.insts[i]) !! GlueClaim(tr, j))
    && (forall i, j :: 0 <= i < j <= |tr.insts| ==> GlueClaim(tr, i) !! GlueClaim(tr, j))
    && (forall i :: 0 <= i < |tr.insts| ==> InstWords(tr.insts[i]) !! ExitWords(tr))
    && (forall i :: 0 <= i <= |tr.insts| ==> GlueClaim(tr, i) !! ExitWords(tr))
  }

  function Extended(tr: Trampoline, inst: Instruction, glue: Glue): Trampoline {
    tr.(insts := tr.insts + [inst], glue := tr.glue + [glue])
  }

  lemma GlueClaimPrefix(tr: Trampoline, inst: Instruction, glue: Glue, i: nat)
    requires i < |tr.insts| == |tr.glue|
    ensures GlueClaim(Extended(tr, inst, glue), i) == GlueClaim(tr, i)
    ensures Cursor(Extended(tr, inst, glue), i) == Cursor(tr, i)
  {
  }

  lemma GlueDonePrefix(mem: Memory, mem': Memory, tr: Trampoline, inst: Instruction, glue: Glue, i: nat)
    requires i < |tr.insts| == |tr.glue| && GlueDone(mem, tr, i) && SameOn(GlueClaim(tr, i), mem, mem')
    ensures GlueDone(mem', Extended(tr, inst, glue), i)
  {
    hide GlueCode, GluePlaced, GlueWords;
    assert 0 <= Cursor(tr, i) < 0x1_0000_0000_0000_0000 by { GlueStart(Cursor(tr, i), tr.glue[i], tr.insts[i].newPc); }
    GlueCodeStable(mem, mem', Cursor(tr, i), tr.glue[i], tr.insts[i].newPc);
  }

  lemma GlueStart(from: int, glue: Glue, to: int)
    requires GluePlaced(from, glue, to)
    ensures 0 <= from && from + 16 < 0x1_0000_0000_0000_0000
  {
  }

  /** One more instruction, whose words were free: the draft stays a draft. */
  lemma DraftExtend(tr: Trampoline, mem: Memory, mem': Memory, busy: set<int>, busy': set<int>, base: set<int>,
                    inst: Instruction, glue: Glue)
    requires Draft(tr, mem, busy, base) && SameOn(busy, mem, mem')
    requires busy <= busy' && Visited(tr.func, |tr.insts|, inst)
    requires GlueDone(mem', Extended(tr, inst, glue), |tr.insts|)
    requires InstWords(inst) <= busy' && InstWords(inst) !! busy
    requires GlueClaim(Extended(tr, inst, glue), |tr.insts|) <= busy'
    requires GlueClaim(Extended(tr, inst, glue), |tr.insts|) !! busy
    requires GlueClaim(Extended(tr, inst, glue), |tr.insts|) !! InstWords(inst)
    ensures Draft(Extended(tr, inst, glue), mem', busy', base)
  {
    hide GlueDone, Visited, InstWords, GlueClaim;
    var tr' := Extended(tr, inst, glue);
    var n := |tr.insts|;
    forall i | 0 <= i < n
      ensures GlueDone(mem', tr', i) && GlueClaim(tr', i) == GlueClaim(tr, i) && tr'.insts[i] == tr.insts[i]
    {
      GlueClaimPrefix(tr, inst, glue, i);
      GlueDonePrefix(mem, mem', tr, inst, glue, i);
    }
    forall i, j | 0 <= i < |tr'.insts| && 0 <= j < |tr'.insts|
      ensures InstWords(tr'.insts[i]) !! GlueClaim(tr', j)
    {
      if i < n && j < n { assert InstWords(tr.insts[i]) !! GlueClaim(tr, j); }
    }
  }

  /** A visited instruction joins the draft. */
  lemma DraftAppend(tr: Trampoline, m0: Memory, m1: Memory, m2: Memory, busy0: set<int>, base: set<int>,
                    glue: Glue, mid: U64, inst: Instruction)
    requires Draft(tr, m0, busy0, base) && 0 <= Cursor(tr, |tr.insts|) < 0x1_0000_0000_0000_0000
    requires var from: U64 := Cursor(tr, |tr.insts|);
             var busy1 := busy0 + GlueWords(from, glue, mid);
             && mid == (if glue.Chain? then glue.page + 4 else from)
             && GluePlaced(from, glue, mid) && GlueCode(m1, from, glue, mid)
             && GlueWords(from, glue, mid) !! busy0 && SameOn(busy0, m0, m1)
             && NopUpTo(m2, mid, inst.newPc) && SameOn(busy1, m1, m2)
             && InstWords(inst) !! busy1 && NopWords(mid, inst.newPc) !! busy1
             && InstWords(inst) !! NopWords(mid, inst.newPc)
    requires Visited(tr.func, |tr.insts|, inst)
    ensures var from: U64 := Cursor(tr, |tr.insts|);
            Draft(Extended(tr, inst, glue), m2,
                  busy0 + GlueWords(from, glue, mid) + InstWords(inst) + NopWords(mid, inst.newPc), base)
  {
    hide Draft, GluePlaced, GlueCode, InstWords, NopUpTo, Cursor, Visited, Read32;
    var from: U64 := Cursor(tr, |tr.insts|);
    var busy2 := busy0 + GlueWords(from, glue, mid) + InstWords(inst) + NopWords(mid, inst.newPc);
    var tr' := Extended(tr, inst, glue);
    DraftLengths(tr, m0, busy0, base);
    assert inst.newPc % 4 == 0 by { VisitedAligned(tr.func, |tr.insts|, inst); }
    GlueThenNop(m1, m2, from, glue, mid, inst.newPc);
    CursorExtended(tr, inst, glue);
    assert GlueClaim(tr', |tr.insts|) == GlueWords(from, glue, inst.newPc);
    SameOnTrans(busy0, m0, m1, m2);
    assert GlueDone(m2, tr', |tr.insts|);
    DraftExtend(tr, m0, m2, busy0, busy2, base, inst, glue);
  }

  lemma DraftLengths(tr: Trampoline, mem: Memory, busy: set<int>, base: set<int>)
    requires Draft(tr, mem, busy, base)
    ensures |tr.glue| == |tr.insts| && base <= busy
  {
  }

  lemma VisitedAligned(func: U64, i: nat, inst: Instruction)
    requires Visited(func, i, inst)
    ensures inst.newPc % 4 == 0
  {
  }

  lemma CursorExtended(tr: Trampoline, inst: Instruction, glue: Glue)
    ensures Cursor(Extended(tr, inst, glue), |tr.insts|) == Cursor(tr, |tr.insts|)
    ensures Cursor(Extended(tr, inst, glue), |tr.insts| + 1) == BlockEnd(inst)
    ensures Landing(Extended(tr, inst, glue), |tr.insts|) == inst.newPc
  {
  }

  lemma SameOnRefl(words: set<int>, m: Memory)
    ensures SameOn(words, m, m)
  {
  }

  lemma SameOnTrans(words: set<int>, a: Memory, b: Memory, c: Memory)
    requires SameOn(words, a, b) && SameOn(words, b, c)
    ensures SameOn(words, a, c)
  {
  }

  lemma SameOutsideRefl(mmap: seq<U64>, m: Memory)
    ensures SameOutside(mmap, m, m)
  {
  }

  lemma SameOutsideTrans(mmap: seq<U64>, a: Memory, b: Memory, c: Memory)
    requires SameOutside(mmap, a, b) && SameOutside(mmap, b, c)
    ensures SameOutside(mmap, a, c)
  {
    hide OutsidePages;
  }

  /** The lifted instructions carry the words of the window, classified, with nothing related yet. */
  ghost predicate LiftedFrom(orig: Memory, func: U64, insts: seq<Instruction>)
  {
    forall i :: 0 <= i < |insts| ==> Parsed(orig, func, insts, i) && insts[i].relate == External
  }

  // ---------------------------------------------------------------- from draft to trampoline

  function RelateOf(start: U64, length: nat, target: U64): Relate {
    if start <= target < start + length then InWindow((target - start) / 4) else External
  }

  /** The same instructions, with what they refer to resolved. */
  ghost predicate Resolved(start: U64, insts: seq<Instruction>, insts': seq<Instruction>)
  {
    && |insts'| == |insts|
    && forall i :: 0 <= i < |insts| ==>
                     insts'[i] == insts[i].(relate := RelateOf(start, 4 * |insts|, insts[i].relatePc))
  }

  lemma ResolvedClaims(tr: Trampoline, insts': seq<Instruction>, i: nat)
    requires Resolved(tr.func, tr.insts, insts') && i < |tr.insts| == |tr.glue|
    ensures InstWords(insts'[i]) == InstWords(tr.insts[i])
    ensures Cursor(tr.(insts := insts'), i) == Cursor(tr, i)
    ensures GlueClaim(tr.(insts := insts'), i) == GlueClaim(tr, i)
  {
    hide GlueWords, InstWords, RelateOf;
    InstWordsOf(tr.insts[i], insts'[i]);
  }

  lemma InstWordsOf(a: Instruction, b: Instruction)
    requires a.newPc == b.newPc && a.kind == b.kind && a.dataAddr == b.dataAddr
    ensures InstWords(a) == InstWords(b)
  {
  }

  lemma DraftResolved(tr: Trampoline, insts': seq<Instruction>, mem: Memory, busy: set<int>, base: set<int>)
    requires Draft(tr, mem, busy, base) && Resolved(tr.func, tr.insts, insts')
    ensures Draft(tr.(insts := insts'), mem, busy, base)
    ensures Cursor(tr.(insts := insts'), |insts'|) == Cursor(tr, |tr.insts|)
  {
    hide GlueWords, InstWords, RelateOf, GlueCode, GluePlaced, GlueClaim, RelatedAddress;
    var tr' := tr.(insts := insts');
    forall i | 0 <= i < |tr.insts|
      ensures InstWords(tr'.insts[i]) == InstWords(tr.insts[i]) && GlueClaim(tr', i) == GlueClaim(tr, i)
      ensures Visited(tr.func, i, tr'.insts[i]) && GlueDone(mem, tr', i)
    {
      ResolvedClaims(tr, insts', i);
    }
  }

  lemma SameOnApart(words: set<int>, changed: set<int>, m: Memory, m': Memory)
    requires words !! changed && forall x :: x !in changed ==> Read32(m, x) == Read32(m', x)
    ensures SameOn(words, m, m')
  {
  }

  lemma GlueDoneStable(mem: Memory, mem': Memory, tr: Trampoline, i: nat)
    requires i < |tr.insts| == |tr.glue| && GlueDone(mem, tr, i) && SameOn(GlueClaim(tr, i), mem, mem')
    ensures GlueDone(mem', tr, i)
  {
    hide GlueCode, GluePlaced, GlueWords;
    GlueStart(Cursor(tr, i), tr.glue[i], tr.insts[i].newPc);
    GlueCodeStable(mem, mem', Cursor(tr, i), tr.glue[i], tr.insts[i].newPc);
  }

  ghost predicate BlocksDone(mem: Memory, orig: Memory, tr: Trampoline, k: nat)
  {
    forall i :: 0 <= i < k && i < |tr.insts| ==> BlockCode(mem, orig, tr.insts, tr.insts[i])
  }

  /** Writing block k disturbs neither the glue nor the blocks before it nor anything that was busy before. */
  lemma TransformStep(tr: Trampoline, m: Memory, m': Memory, orig: Memory, busy: set<int>, base: set<int>, k: nat)
    requires Draft(tr, m, busy, base) && k < |tr.insts| && BlocksDone(m, orig, tr, k)
    requires forall x :: x !in InstWords(tr.insts[k]) ==> Read32(m, x) == Read32(m', x)
    requires BlockCode(m', orig, tr.insts, tr.insts[k])
    ensures Draft(tr, m', busy, base) && BlocksDone(m', orig, tr, k + 1) && SameOn(base, m, m')
  {
    hide BlockCode, InstWords, GlueClaim, GlueDone, Visited, SameOn, Read32;
    var changed := InstWords(tr.insts[k]);
    SameOnApart(base, changed, m, m');
    forall i | 0 <= i < |tr.insts| ensures GlueDone(m', tr, i) {
      SameOnApart(GlueClaim(tr, i), changed, m, m');
      GlueDoneStable(m, m', tr, i);
    }
    forall i | 0 <= i < k ensures BlockCode(m', orig, tr.insts, tr.insts[i]) {
      assert InstWords(tr.insts[i]) !! changed;
      SameOnApart(InstWords(tr.insts[i]), changed, m, m');
      BlockKept(m, m', orig, tr.insts, tr.insts[i]);
    }
  }

  lemma BlockKept(m: Memory, m': Memory, orig: Memory, insts: seq<Instruction>, inst: Instruction)
    requires BlockCode(m, orig, insts, inst) && SameOn(InstWords(inst), m, m')
    ensures BlockCode(m', orig, insts, inst)
  {
    hide BlockCode, InstWords;
    BlockCodeStable(m, m', orig, insts, inst);
  }

  /** Everything a finished hook needs to know about its trampoline. */
  lemma TrampolineFinished(tr: Trampoline, m: Memory, m': Memory, orig: Memory, busy: set<int>, base: set<int>,
                           glue: Glue, exit: U64, exitLiteral: U64)
    requires Draft(tr, m, busy, base) && BlocksDone(m, orig, tr, |tr.insts|) && SameOn(busy, m, m')
    requires 0 < tr.func && tr.func % 4 == 0 && tr.func + 24 < 0x1_0000_0000_0000_0000 && 0 < |tr.insts| <= 6
    requires forall i :: 0 <= i < |tr.insts| ==>
               tr.insts[i].relate == RelateOf(tr.func, 4 * |tr.insts|, tr.insts[i].relatePc)
    requires exit % 4 == 0 && exit + 16 < 0x1_0000_0000_0000_0000 && Near(exit, exitLiteral)
    requires 0 <= Cursor(tr, |tr.insts|) < 0x1_0000_0000_0000_0000
    requires GluePlaced(Cursor(tr, |tr.insts|), glue, exit) && GlueCode(m', Cursor(tr, |tr.insts|), glue, exit)
    requires JumpCode(m', exit, CanUseAdrp(exit, WindowEnd(tr)), WindowEnd(tr), exitLiteral)
    ensures var done := tr.(glue := tr.glue + [glue], exit := exit, exitLiteral := exitLiteral);
            Placed(done) && TrampolineCode(m', orig, done)
  {
    hide GlueCode, GluePlaced, JumpCode, CanUseAdrp, InstPlaced, BlockCode, Near, SameOn, Draft, BlocksDone;
    var done := tr.(glue := tr.glue + [glue], exit := exit, exitLiteral := exitLiteral);
    DraftLengths(tr, m, busy, base);
    forall i | 0 <= i < |tr.insts|
      ensures InstPlaced(done, i) && GluePlaced(Cursor(done, i), done.glue[i], done.insts[i].newPc)
      ensures BlockCode(m', orig, done.insts, done.insts[i])
      ensures GlueCode(m', Cursor(done, i), done.glue[i], done.insts[i].newPc)
    {
      PieceFinished(tr, m, m', orig, busy, base, done, i);
    }
    assert Cursor(done, |tr.insts|) == Cursor(tr, |tr.insts|);
  }

  /** One block of the draft, and the glue in front of it, in the finished trampoline. */
  lemma PieceFinished(tr: Trampoline, m: Memory, m': Memory, orig: Memory, busy: set<int>, base: set<int>,
                      done: Trampoline, i: nat)
    requires Draft(tr, m, busy, base) && BlocksDone(m, orig, tr, |tr.insts|) && SameOn(busy, m, m')
    requires 0 <= i < |tr.insts| && |done.glue| == |tr.insts| + 1 && done.glue[i] == tr.glue[i]
    requires done.insts == tr.insts && done.entry == tr.entry && done.func == tr.func
    requires tr.insts[i].relate == RelateOf(tr.func, 4 * |tr.insts|, tr.insts[i].relatePc)
    ensures InstPlaced(done, i) && GluePlaced(Cursor(done, i), done.glue[i], done.insts[i].newPc)
    ensures BlockCode(m', orig, done.insts, done.insts[i])
    ensures GlueCode(m', Cursor(done, i), done.glue[i], done.insts[i].newPc)
  {
    hide GlueCode, GluePlaced, JumpCode, CanUseAdrp, InstWords, GlueClaim, RelatedAddress, BlockCode, Near, Read32,
      SameOn;
    assert Cursor(done, i) == Cursor(tr, i);
    SameOnShrink(InstWords(tr.insts[i]), busy, m, m');
    BlockKept(m, m', orig, tr.insts, tr.insts[i]);
    SameOnShrink(GlueClaim(tr, i), busy, m, m');
    GlueDoneStable(m, m', tr, i);
  }

  /** The last glue and the exit jump were put on free words, so the finished trampoline is in pieces of its own. */
  lemma TrampolineApart(tr: Trampoline, m: Memory, busy: set<int>, base: set<int>, glue: Glue, exit: U64,
                        exitLiteral: U64)
    requires Draft(tr, m, busy, base)
    requires var done := tr.(glue := tr.glue + [glue], exit := exit, exitLiteral := exitLiteral);
             && Placed(done) && GlueClaim(done, |tr.insts|) !! busy
             && ExitWords(done) !! busy + GlueClaim(done, |tr.insts|)
    ensures Apart(tr.(glue := tr.glue + [glue], exit := exit, exitLiteral := exitLiteral))
  {
    hide Placed, InstWords, GlueClaim, ExitWords, GlueDone, Visited;
    var done := tr.(glue := tr.glue + [glue], exit := exit, exitLiteral := exitLiteral);
    var n := |tr.insts|;
    forall i | 0 <= i < n ensures GlueClaim(done, i) == GlueClaim(tr, i) {
      ClaimKept(tr, done, i);
    }
    forall i, j | 0 <= i < n && 0 <= j <= n ensures InstWords(done.insts[i]) !! GlueClaim(done, j) {
      if j < n { assert InstWords(tr.insts[i]) !! GlueClaim(tr, j); }
    }
    forall i, j | 0 <= i < j <= n ensures GlueClaim(done, i) !! GlueClaim(done, j) {
      if j < n { assert GlueClaim(tr, i) !! GlueClaim(tr, j); }
    }
  }

  lemma ClaimKept(tr: Trampoline, done: Trampoline, i: nat)
    requires i < |tr.insts| == |tr.glue| && done.insts == tr.insts && done.entry == tr.entry
    requires |done.glue| == |tr.glue| + 1 && done.glue[i] == tr.glue[i]
    ensures GlueClaim(done, i) == GlueClaim(tr, i)
  {
    hide GlueWords;
  }

  /** The words of a finished trampoline are busy and were free before. */
  lemma TrampolineClaims(tr: Trampoline, m: Memory, busy: set<int>, base: set<int>, glue: Glue, exit: U64,
                         exitLiteral: U64, more: set<int>, x: int)
    requires Draft(tr, m, busy, base)
    requires var done := tr.(glue := tr.glue + [glue], exit := exit, exitLiteral := exitLiteral);
             Placed(done) && Owns(done, x)
             && GlueWordsOf(done, |tr.insts|) + ExitWords(done) <= more && more !! base
    ensures x in busy + more && x !in base
  {
    hide GlueWords, InstWords, InstPlaced, GluePlaced, JumpWords, CanUseAdrp, GlueDone, Visited, ExitWords;
    var done := tr.(glue := tr.glue + [glue], exit := exit, exitLiteral := exitLiteral);
    if i :| 0 <= i < |done.insts| && x in InstWords(done.insts[i]) {
      assert InstWords(tr.insts[i]) <= busy;
    } else if i :| 0 <= i <= |done.insts| && InGlue(done, i, x) {
      CursorPlaced(done, i);
      if i < |tr.insts| {
        assert Cursor(done, i) == Cursor(tr, i);
        assert GlueClaim(tr, i) <= busy;
        assert GlueWordsAt(done, i) == GlueClaim(tr, i);
      } else {
        assert x in GlueWordsOf(done, |tr.insts|);
      }
    }
  }

  function GlueWordsOf(tr: Trampoline, i: nat): set<int>
    requires i <= |tr.insts| && |tr.glue| == |tr.insts| + 1
  {
    if 0 <= Cursor(tr, i) < 0x1_0000_0000_0000_0000 then GlueWordsAt(tr, i) else {}
  }

  lemma SameOnShrink(words: set<int>, more: set<int>, m: Memory, m': Memory)
    requires words <= more && SameOn(more, m, m')
    ensures SameOn(words, m, m')
  {
  }

  // ---------------------------------------------------------------- the window is not trampoline memory

  /** The window, and the eight bytes at each of its words, lie outside all trampoline pages. */
  ghost predicate OutsideWindow(mmap: seq<U64>, func: U64)
  {
    forall x :: func <= x < func + 28 ==> OutsidePages(mmap, x)
  }

  predicate Ordered(func: U64, insts: seq<Instruction>)
  {
    |insts| <= 6 && forall i :: 0 <= i < |insts| ==> insts[i].pc == func + 4 * i
  }

  lemma DraftInst(tr: Trampoline, mem: Memory, busy: set<int>, base: set<int>, i: nat)
    requires Draft(tr, mem, busy, base) && i < |tr.insts|
    ensures Visited(tr.func, i, tr.insts[i]) && InstWords(tr.insts[i]) <= busy
  {
  }

  lemma DraftOrdered(tr: Trampoline, mem: Memory, busy: set<int>, base: set<int>)
    requires Draft(tr, mem, busy, base) && |tr.insts| <= 6
    ensures Ordered(tr.func, tr.insts)
  {
    hide RelatedAddress, InstWords, GlueClaim, GlueDone;
  }

  /** A literal copied out of the window is the one the window was lifted with. */
  lemma BlockFromOriginal(mmap: seq<U64>, orig: Memory, m: Memory, m': Memory, func: U64, insts: seq<Instruction>,
                          i: nat)
    requires SameOutside(mmap, orig, m) && OutsideWindow(mmap, func) && Ordered(func, insts) && i < |insts|
    requires BlockCode(m', m, insts, insts[i])
    ensures BlockCode(m', orig, insts, insts[i])
  {
    hide OutsidePages, BlockWords;
    var inst := insts[i];
    if Lifted(insts, inst) {
      var a: int := insts[inst.relate.index].pc;
      assert OutsidePages(mmap, a) && OutsidePages(mmap, a + 4);
    }
  }

  lemma ClaimInside(mmap: seq<U64>, pages: seq<U64>, pc: U64, dataEnd: U64, busy: set<int>, words: set<int>,
                    m: Memory, m': Memory)
    requires PagesFrom(mmap, pages) && BusyOk(pages, pc, dataEnd, busy) && words <= busy
    requires forall x :: x !in words ==> Read32(m, x) == Read32(m', x)
    ensures SameOutside(mmap, m, m')
  {
    hide InPages;
    SameOutsidePages(mmap, pages, words, m, m');
  }

  /** The lifted instructions carry the words of the window, classified and resolved. */
  ghost predicate ResolvedFrom(orig: Memory, func: U64, insts: seq<Instruction>)
  {
    forall i :: 0 <= i < |insts| ==>
                  Parsed(orig, func, insts, i) && insts[i].relate == RelateOf(func, 4 * |insts|, insts[i].relatePc)
  }

  lemma LiftedThenResolved(orig: Memory, func: U64, insts: seq<Instruction>, insts': seq<Instruction>)
    requires LiftedFrom(orig, func, insts) && Resolved(func, insts, insts')
    ensures ResolvedFrom(orig, func, insts')
  {
    hide Read32, Classify, RelateOf, LoadedAsData;
    forall i | 0 <= i < |insts| ensures Parsed(orig, func, insts', i) {
      assert Parsed(orig, func, insts, i);
      SameData(insts, insts', i, func + 4 * i);
    }
  }

  /** What counts as data depends on the earlier instructions' kinds and the addresses they refer to. */
  lemma SameData(a: seq<Instruction>, b: seq<Instruction>, i: nat, pc: int)
    requires i <= |a| && i <= |b|
    requires forall j :: 0 <= j < i ==> a[j].kind == b[j].kind && a[j].relatePc == b[j].relatePc
    ensures LoadedAsData(a, i, pc) == LoadedAsData(b, i, pc)
  {
  }

  // ---------------------------------------------------------------- the live hooks

  /** A live trampoline and the memory its window was lifted from. */
  datatype Hook = Hook(tr: Trampoline, orig: Memory)

  ghost predicate HookOk(h: Hook, mem: Memory, busy: set<int>)
  {
    && Placed(h.tr) && CodeOf(h.orig, h.tr) && Apart(h.tr)
    && TrampolineCode(mem, h.orig, h.tr)
    && forall x :: Owns(h.tr, x) ==> x in busy
  }

  ghost predicate Disjoint(a: Trampoline, b: Trampoline)
  {
    Placed(a) && Placed(b) && forall x :: Owns(a, x) ==> !Owns(b, x)
  }

  /** Every live trampoline is in place, and no two share a word. */
  ghost predicate HooksOk(hooks: seq<Hook>, mem: Memory, busy: set<int>)
  {
    && (forall i :: 0 <= i < |hooks| ==> HookOk(hooks[i], mem, busy))
    && (forall i, j :: 0 <= i < j < |hooks| ==> Disjoint(hooks[i].tr, hooks[j].tr))
  }

  lemma HookKept(h: Hook, m: Memory, m': Memory, busy: set<int>, busy': set<int>)
    requires HookOk(h, m, busy) && SameOn(busy, m, m') && busy <= busy'
    ensures HookOk(h, m', busy')
  {
    hide Placed, CodeOf, Apart, TrampolineCode, Owns, Read32;
    TrampolineStable(m, m', h.orig, h.tr);
  }

  lemma HooksKept(hooks: seq<Hook>, m: Memory, m': Memory, busy: set<int>, busy': set<int>)
    requires HooksOk(hooks, m, busy) && SameOn(busy, m, m') && busy <= busy'
    ensures HooksOk(hooks, m', busy')
  {
    hide HookOk, Disjoint, SameOn;
    forall i | 0 <= i < |hooks| ensures HookOk(hooks[i], m', busy') {
      HookKept(hooks[i], m, m', busy, busy');
    }
  }

  lemma HookPlaced(h: Hook, m: Memory, busy: set<int>)
    requires HookOk(h, m, busy)
    ensures Placed(h.tr) && forall x :: Owns(h.tr, x) ==> x in busy
  {
    hide Placed, CodeOf, Apart, TrampolineCode, Owns;
  }

  /** A new trampoline on words that were not busy joins the live ones. */
  lemma HooksAppend(hooks: seq<Hook>, m: Memory, base: set<int>, m': Memory, busy: set<int>, h: Hook)
    requires HooksOk(hooks, m, base) && SameOn(base, m, m') && base <= busy
    requires HookOk(h, m', busy) && forall x :: Owns(h.tr, x) ==> x !in base
    ensures HooksOk(hooks + [h], m', busy)
  {
    hide HookOk, Disjoint, SameOn, Owns, Placed;
    var all := hooks + [h];
    HookPlaced(h, m', busy);
    forall i | 0 <= i < |all| ensures HookOk(all[i], m', busy) && Placed(all[i].tr) {
      if i < |hooks| {
        HookKept(hooks[i], m, m', base, busy);
        HookPlaced(hooks[i], m, base);
      }
    }
    forall i, j | 0 <= i < j < |all| ensures Disjoint(all[i].tr, all[j].tr) {
      if j == |hooks| {
        HookPlaced(hooks[i], m, base);
        NowDisjoint(hooks[i].tr, h.tr, base);
      } else {
        assert Disjoint(hooks[i].tr, hooks[j].tr);
      }
    }
  }

  lemma NowDisjoint(a: Trampoline, b: Trampoline, base: set<int>)
    requires Placed(a) && Placed(b)
    requires (forall x :: Owns(a, x) ==> x in base) && (forall x :: Owns(b, x) ==> x !in base)
    ensures Disjoint(a, b)
  {
    hide Owns, Placed;
  }

  lemma BusyShrinkBack(pages: seq<U64>, pages': seq<U64>, pc: U64, dataEnd: U64, busy: set<int>)
    requires pages <= pages' && CursorsOk(pages, pc, dataEnd, 24) && BusyOk(pages, pc, dataEnd, busy)
    ensures CursorsOk(pages', pc, dataEnd, 24) && BusyOk(pages', pc, dataEnd, busy)
  {
    var k :| 0 <= k < |pages| && pages[k] <= pc && dataEnd <= pages[k] + PAGE;
    assert pages'[k] == pages[k];
    forall x | x in busy ensures InPages(pages', x) {
      var j :| 0 <= j < |pages| && InPage(pages[j], x);
      assert pages'[j] == pages[j];
    }
  }

  /** User memory is never busy. */
  lemma BusyInside(mmap: seq<U64>, pages: seq<U64>, pc: U64, dataEnd: U64, busy: set<int>, x: int)
    requires PagesFrom(mmap, pages) && BusyOk(pages, pc, dataEnd, busy) && OutsidePages(mmap, x)
    ensures x !in busy
  {
    hide InPages;
    if x in busy { AllocatedNotOutside(mmap, pages, x); }
  }

  lemma ExitWordsFree(pc: U64, dataEnd: U64, near: bool, x: int)
    requires pc + 20 <= dataEnd && x in JumpWords(pc, near, dataEnd - 8)
    ensures var dataEnd' := if near then dataEnd else dataEnd - 8;
            pc <= x < dataEnd && !(pc + 12 <= x < dataEnd')
  {
  }

  lemma ExitCursors(mmap: seq<U64>, pages: seq<U64>, pc: U64, dataEnd: U64, near: bool)
    requires GoodMmap(mmap) && PagesFrom(mmap, pages) && CursorsOk(pages, pc, dataEnd, 52)
    ensures CursorsOk(pages, pc + 12, if near then dataEnd else dataEnd - 8, 24)
    ensures pc % 4 == 0 && pc + 16 < 0x1_0000_0000_0000_0000 && Near(pc, dataEnd - 8) && pc + 20 <= dataEnd
  {
    hide CursorsOk, Near, GoodMmap;
    CursorBound(mmap, pages, pc, dataEnd, 52);
    CursorRoom(pages, pc, dataEnd, 52);
    CursorsMove(pages, pc, dataEnd, 52, pc + 12, if near then dataEnd else dataEnd - 8, 24);
    NearWithinPage(pc, dataEnd);
  }

  /** The exit jump: 12 bytes at the code cursor and, if far, 8 below the data cursor. */
  lemma ExitBooks(mmap: seq<U64>, pages: seq<U64>, pc: U64, dataEnd: U64, busy: set<int>, near: bool)
    requires GoodMmap(mmap) && PagesFrom(mmap, pages)
    requires CursorsOk(pages, pc, dataEnd, 52) && BusyOk(pages, pc, dataEnd, busy)
    ensures pc % 4 == 0 && pc + 16 < 0x1_0000_0000_0000_0000 && Near(pc, dataEnd - 8) && pc + 20 <= dataEnd
    ensures var words := JumpWords(pc, near, dataEnd - 8);
            var dataEnd' := if near then dataEnd else dataEnd - 8;
            && CursorsOk(pages, pc + 12, dataEnd', 24)
            && BusyOk(pages, pc + 12, dataEnd', busy + words)
            && words !! busy && forall x :: x in words ==> InPages(pages, x)
  {
    hide BusyOk, InPages, CursorsOk, Near, JumpWords, GoodMmap, PagesFrom;
    ExitCursors(mmap, pages, pc, dataEnd, near);
    var words := JumpWords(pc, near, dataEnd - 8);
    var dataEnd' := if near then dataEnd else dataEnd - 8;
    forall x | x in words ensures pc <= x < dataEnd && !(pc + 12 <= x < dataEnd') {
      ExitWordsFree(pc, dataEnd, near, x);
    }
    FreeNotBusy(pages, pc, dataEnd, busy, words);
    forall x | x in words ensures InPages(pages, x) { FreeIsAllocated(pages, pc, dataEnd, 52, x); }
    BusyGrow(pages, pc, dataEnd, 52, busy, words, pc + 12, dataEnd');
  }

  lemma FreeNotBusy(pages: seq<U64>, pc: U64, dataEnd: U64, busy: set<int>, words: set<int>)
    requires BusyOk(pages, pc, dataEnd, busy) && forall x :: x in words ==> pc <= x < dataEnd
    ensures words !! busy
  {
    forall x | x in words ensures x !in busy {
    }
  }
}
