/** How far the original machine and the trampoline's agree, and what single instructions do to it. */
module Arm64Steps {
  import opened Arm64Bits
  import opened Arm64Encode
  import opened Arm64Machine
  import opened Arm64Trampoline

  // ---------------------------------------------------------------- what may differ

  /** Hidden locations may hold anything. A link holds the address of lifted instruction i in the first machine and
      the address that leads to its block in the second. */
  datatype View = View(hidden: set<int>, links: map<int, nat>)

  ghost predicate Tracks(tr: Trampoline, links: map<int, nat>, a: Core, b: Core)
  {
    forall l :: l in links ==>
                  && links[l] <= |tr.insts|
                  && Value(a, l) == tr.func + 4 * links[l] && Value(b, l) == Cursor(tr, links[l])
  }

  ghost predicate Alike(tr: Trampoline, v: View, a: Core, b: Core)
  {
    Similar(v.hidden, a, b) && Tracks(tr, v.links, a, b)
  }

  function Clear(links: map<int, nat>, written: set<int>): map<int, nat> {
    map l | l in links && Loc(l) !! written :: links[l]
  }

  /** The second machine alone writes to these locations. */
  function Clobber(v: View, written: set<int>): View {
    View(v.hidden + written, Clear(v.links, written))
  }

  /** Both machines write the same to these locations. */
  function Overwrite(v: View, written: set<int>): View {
    View(v.hidden - written, Clear(v.links, written))
  }

  /** Both machines write to these locations: moved values, which may be hidden or links, and otherwise the same. */
  function Moved(v: View, written: set<int>, moves: map<int, int>): View {
    View(v.hidden - written + Carried(moves, v.hidden),
         Clear(v.links, written) + map d | d in moves && moves[d] in v.links :: v.links[moves[d]])
  }

  /** Both machines put the address of instruction i into the link register, each its own. */
  function Linked(v: View, i: nat): View {
    View(v.hidden + {X30}, v.links[X30 := i])
  }

  lemma ClobberNothing(v: View)
    ensures Clobber(v, {}) == v
  {
    assert Clear(v.links, {}) == v.links;
  }

  lemma ClobberTwice(v: View, x: set<int>, y: set<int>)
    ensures Clobber(Clobber(v, x), y) == Clobber(v, x + y)
  {
    assert Clear(Clear(v.links, x), y) == Clear(v.links, x + y);
  }

  lemma MoveNothing(v: View, written: set<int>)
    ensures Moved(v, written, map[]) == Overwrite(v, written)
  {
    assert Carried(map[], v.hidden) == {};
    assert Moved(v, written, map[]).links == Clear(v.links, written);
  }

  lemma OverwriteNothing(v: View)
    ensures Overwrite(v, {}) == v
  {
    assert Clear(v.links, {}) == v.links;
  }

  // ---------------------------------------------------------------- links survive writes elsewhere

  lemma ValueKept(l: int, a: Core, b: Core)
    requires forall x :: x in Loc(l) ==> SameAt(x, a, b)
    ensures Value(a, l) == Value(b, l)
  {
    if l == X17 || l == X30 {
      assert l in Loc(l);
    } else if l >= 0 {
      assert l in Loc(l) && l + 4 in Loc(l);
    }
  }

  lemma TracksKept(tr: Trampoline, links: map<int, nat>, written: set<int>, a: Core, b: Core, a': Core, b': Core)
    requires Tracks(tr, links, a, b)
    requires forall x :: x !in written ==> SameAt(x, a', a) && SameAt(x, b', b)
    ensures Tracks(tr, Clear(links, written), a', b')
  {
    hide Value, SameAt, Loc, Cursor;
    forall l | l in Clear(links, written)
      ensures links[l] <= |tr.insts| && Value(a', l) == tr.func + 4 * links[l] && Value(b', l) == Cursor(tr, links[l])
    {
      ValueKept(l, a', a);
      ValueKept(l, b', b);
    }
  }

  // ---------------------------------------------------------------- what agreement gives

  lemma SimilarReg(hidden: set<int>, a: Core, b: Core, r: Reg)
    requires Similar(hidden, a, b) && RegLoc(r) !! hidden
    ensures GetReg(a, r) == GetReg(b, r)
  {
    if r == 17 { assert X17 in RegLoc(r); }
    if r == 30 { assert X30 in RegLoc(r); }
  }

  lemma SimilarRead64(hidden: set<int>, a: Core, b: Core, p: U64)
    requires Similar(hidden, a, b) && Words(p) !! hidden
    ensures Read64(a.mem, p) == Read64(b.mem, p)
  {
    assert p in Words(p) && p + 4 in Words(p);
  }

  lemma X17Visible(hidden: set<int>, a: Core, b: Core)
    requires Similar(hidden, a, b) && X17 !in hidden
    ensures a.regs[17] == b.regs[17]
  {
  }

  lemma SameSp(hidden: set<int>, a: Core, b: Core)
    requires Similar(hidden, a, b)
    ensures a.sp == b.sp && a.flags == b.flags
  {
  }

  // ---------------------------------------------------------------- what keeps agreement

  lemma SimilarSetReg(hidden: set<int>, a: Core, b: Core, r: Reg, x: U64)
    requires Similar(hidden, a, b)
    ensures Similar(hidden - RegLoc(r), SetReg(a, r, x), SetReg(b, r, x))
  {
  }

  lemma SetRegKeeps(c: Core, r: Reg, x: U64, l: int)
    requires l !in RegLoc(r)
    ensures SameAt(l, SetReg(c, r, x), c)
  {
  }

  lemma AlikeSetReg(tr: Trampoline, v: View, a: Core, b: Core, r: Reg, x: U64)
    requires Alike(tr, v, a, b)
    ensures Alike(tr, Overwrite(v, RegLoc(r)), SetReg(a, r, x), SetReg(b, r, x))
  {
    hide Similar, Tracks, SameAt, SetReg, RegLoc, Clear;
    SimilarSetReg(v.hidden, a, b, r, x);
    forall l | l !in RegLoc(r) ensures SameAt(l, SetReg(a, r, x), a) && SameAt(l, SetReg(b, r, x), b) {
      SetRegKeeps(a, r, x, l);
      SetRegKeeps(b, r, x, l);
    }
    TracksKept(tr, v.links, RegLoc(r), a, b, SetReg(a, r, x), SetReg(b, r, x));
  }

  lemma SimilarClobber(hidden: set<int>, a: Core, b: Core, x: U64)
    requires Similar(hidden, a, b)
    ensures Similar(hidden + {X17}, a, SetReg(b, 17, x))
  {
  }

  /** x17 of the second machine may be clobbered once it is hidden. */
  lemma AlikeClobber(tr: Trampoline, v: View, a: Core, b: Core, x: U64)
    requires Alike(tr, v, a, b)
    ensures Alike(tr, Clobber(v, {X17}), a, SetReg(b, 17, x))
  {
    hide Similar, Tracks, Clear, Read32;
    SimilarClobber(v.hidden, a, b, x);
    TracksKept(tr, v.links, {X17}, a, b, a, SetReg(b, 17, x));
  }

  lemma SimilarLink(hidden: set<int>, a: Core, b: Core, x: U64, y: U64)
    requires Similar(hidden, a, b)
    ensures Similar(hidden + {X30}, SetReg(a, 30, x), SetReg(b, 30, y))
  {
  }

  /** A call: each machine leaves its own return address. */
  lemma AlikeLink(tr: Trampoline, v: View, a: Core, b: Core, i: nat, x: U64, y: U64)
    requires Alike(tr, v, a, b) && i <= |tr.insts| && x == tr.func + 4 * i && y == Cursor(tr, i)
    ensures Alike(tr, Linked(v, i), SetReg(a, 30, x), SetReg(b, 30, y))
  {
    hide Similar, Cursor, Read32;
    SimilarLink(v.hidden, a, b, x, y);
    TracksKept(tr, v.links, {X30}, a, b, SetReg(a, 30, x), SetReg(b, 30, y));
    forall l | l in Linked(v, i).links && l != X30 ensures l in Clear(v.links, {X30}) {
      LocOther(l);
    }
  }

  lemma LocOther(l: int)
    requires l != X30
    ensures X30 !in Loc(l)
  {
  }

  lemma SimilarSpill(hidden: set<int>, a: Core, b: Core, p: U64, x: U64)
    requires Similar(hidden, a, b)
    ensures Similar(hidden + Words(p), a, b.(mem := Write64(b.mem, p, x)))
    ensures Similar(hidden - Words(p), a.(mem := Write64(a.mem, p, x)), b.(mem := Write64(b.mem, p, x)))
  {
    assert p in Words(p) && p + 4 in Words(p);
  }

  lemma SpillKeeps(c: Core, p: U64, x: U64, l: int)
    requires l !in Words(p)
    ensures SameAt(l, c.(mem := Write64(c.mem, p, x)), c)
  {
    assert l != p && l != p + 4;
  }

  /** Two words of memory of the second machine may be overwritten once they are hidden. */
  lemma AlikeSpill(tr: Trampoline, v: View, a: Core, b: Core, p: U64, x: U64)
    requires Alike(tr, v, a, b)
    ensures Alike(tr, Clobber(v, Words(p)), a, b.(mem := Write64(b.mem, p, x)))
  {
    hide Similar, Tracks, SameAt, Clear, Write64, Words;
    SimilarSpill(v.hidden, a, b, p, x);
    forall l | l !in Words(p) ensures SameAt(l, b.(mem := Write64(b.mem, p, x)), b) && SameAt(l, a, a) {
      SpillKeeps(b, p, x, l);
      SameAtSelf(a, l);
    }
    TracksKept(tr, v.links, Words(p), a, b, a, b.(mem := Write64(b.mem, p, x)));
  }

  lemma SameAtSelf(c: Core, l: int)
    ensures SameAt(l, c, c)
  {
  }

  // ---------------------------------------------------------------- instructions that do not depend on their address

  /** What a plain instruction does not write keeps its value. */
  lemma PlainKeeps(env: Env, w: U32, c: Core, x: int)
    requires Framed(env) && x !in PlainWrites(env, w, c)
    ensures SameAt(x, ExecPlain(env, w, c), c)
  {
    hide Similar, IsAddX17, IsLoadSelf, SameAt, Write64, SetReg, RegLoc, Words, Value;
    if w == NOP {
      SameAtSelf(c, x);
    } else if w == STR_X17_BELOW_SP {
      SpillKeeps(c, SpillSlot(c.sp), c.regs[17], x);
    } else if w == LDR_X17_BELOW_SP {
      X17Loc();
      SetRegKeeps(c, 17, Read64(c.mem, SpillSlot(c.sp)), x);
    } else if IsAddX17(w) {
      X17Loc();
      SetRegKeeps(c, 17, Wrap64(c.regs[17] + w / 0x400 % 0x1000), x);
    } else if IsLoadSelf(w) {
      SetRegKeeps(c, w % 0x20, Read64(c.mem, GetReg(c, w % 0x20)), x);
    }
  }

  lemma X17Loc()
    ensures RegLoc(17) == {X17}
  {
  }

  lemma FramedStep(env: Env, w: U32, hidden: set<int>, a: Core, b: Core)
    requires Framed(env) && Similar(hidden, a, b) && env.readSet(w, a) !! hidden
    ensures Similar(hidden - env.writeSet(w, a) + Carried(env.moves(w, a), hidden), env.step(w, a), env.step(w, b))
    ensures env.writeSet(w, a) == env.writeSet(w, b) && env.moves(w, a) == env.moves(w, b)
  {
    hide Similar, Carried;
  }

  lemma InterpretedPlain(env: Env, w: U32, hidden: set<int>, a: Core, b: Core)
    requires Interpreted(w) && Similar(hidden, a, b) && PlainReads(env, w, a) !! hidden
    ensures PlainWrites(env, w, a) == PlainWrites(env, w, b)
    ensures Similar(hidden - PlainWrites(env, w, a), ExecPlain(env, w, a), ExecPlain(env, w, b))
  {
    hide Read64, Write64, Similar, IsAddX17, IsLoadSelf, Read32;
    if w == NOP {
      assert hidden - {} == hidden;
    } else if w == STR_X17_BELOW_SP {
      X17Visible(hidden, a, b);
      SameSp(hidden, a, b);
      SimilarSpill(hidden, a, b, SpillSlot(a.sp), a.regs[17]);
    } else if w == LDR_X17_BELOW_SP {
      SameSp(hidden, a, b);
      SimilarRead64(hidden, a, b, SpillSlot(a.sp));
      SimilarSetReg(hidden, a, b, 17, Read64(a.mem, SpillSlot(a.sp)));
    } else if IsAddX17(w) {
      X17Visible(hidden, a, b);
      SimilarSetReg(hidden, a, b, 17, Wrap64(a.regs[17] + w / 0x400 % 0x1000));
    } else {
      var r := w % 0x20;
      SimilarReg(hidden, a, b, r);
      if r == 31 {
        assert hidden - RegLoc(r) == hidden;
      } else {
        SimilarRead64(hidden, a, b, GetReg(a, r));
        SimilarSetReg(hidden, a, b, r, Read64(a.mem, GetReg(a, r)));
      }
    }
  }

  /** An instruction that does not depend on its address acts alike on similar cores. */
  lemma SimilarPlain(env: Env, w: U32, hidden: set<int>, a: Core, b: Core)
    requires Framed(env) && Similar(hidden, a, b) && PlainReads(env, w, a) !! hidden
    ensures PlainWrites(env, w, a) == PlainWrites(env, w, b) && PlainMoves(env, w, a) == PlainMoves(env, w, b)
    ensures Similar(hidden - PlainWrites(env, w, a) + Carried(PlainMoves(env, w, a), hidden),
                    ExecPlain(env, w, a), ExecPlain(env, w, b))
  {
    hide Similar, IsAddX17, IsLoadSelf, Carried, Framed;
    if Interpreted(w) {
      hide ExecPlain, PlainWrites, PlainReads;
      InterpretedPlain(env, w, hidden, a, b);
      CarryNothing(hidden);
      assert hidden - PlainWrites(env, w, a) + {} == hidden - PlainWrites(env, w, a);
    } else {
      FramedStep(env, w, hidden, a, b);
    }
  }

  lemma CarryNothing(hidden: set<int>)
    ensures Carried(map[], hidden) == {}
  {
  }

  lemma MovedValue(env: Env, w: U32, c: Core, d: int)
    requires Framed(env) && d in PlainMoves(env, w, c)
    ensures Value(ExecPlain(env, w, c), d) == Value(c, PlainMoves(env, w, c)[d])
  {
    hide Similar, Value, IsAddX17, IsLoadSelf;
  }

  lemma AlikePlain(env: Env, tr: Trampoline, w: U32, v: View, a: Core, b: Core)
    requires Framed(env) && Alike(tr, v, a, b) && PlainReads(env, w, a) !! v.hidden
    ensures PlainWrites(env, w, a) == PlainWrites(env, w, b)
    ensures Alike(tr, Moved(v, PlainWrites(env, w, a), PlainMoves(env, w, a)), ExecPlain(env, w, a),
                  ExecPlain(env, w, b))
  {
    hide Similar, Framed, SameAt, PlainWrites, PlainMoves, ExecPlain, PlainReads, Carried, Clear, Cursor, Value;
    SimilarPlain(env, w, v.hidden, a, b);
    var written, moves := PlainWrites(env, w, a), PlainMoves(env, w, a);
    var a', b' := ExecPlain(env, w, a), ExecPlain(env, w, b);
    forall x | x !in written ensures SameAt(x, a', a) && SameAt(x, b', b) {
      PlainKeeps(env, w, a, x);
      PlainKeeps(env, w, b, x);
    }
    TracksKept(tr, v.links, written, a, b, a', b');
    var links := Moved(v, written, moves).links;
    forall l | l in links
      ensures links[l] <= |tr.insts| && Value(a', l) == tr.func + 4 * links[l] && Value(b', l) == Cursor(tr, links[l])
    {
      if l in moves && moves[l] in v.links {
        MovedValue(env, w, a, l);
        MovedValue(env, w, b, l);
      }
    }
  }
}
