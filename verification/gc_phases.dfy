/**
 * Invariants of the whole collection cycle: which objects are dead, which are still to be swept, and what the steps of
 * the program and of the collector do to them (lgc.h:28-134, lgc.c:692-765).
 */
module GcPhases {
  import opened GcState

  // ---- Dead objects

  /** isdeadm: the object carries the other white and is not fixed. */
  predicate IsDead(m: Colors, cw: bool, fixed: set<Ref>, r: Ref) {
    r in m && m[r] == White(!cw) && r !in fixed
  }

  predicate Alive(m: Colors, cw: bool, fixed: set<Ref>, r: Ref) {
    r in m && !IsDead(m, cw, fixed, r)
  }

  predicate ValAlive(m: Colors, cw: bool, fixed: set<Ref>, v: Value) {
    v.Coll? ==> Alive(m, cw, fixed, v.ref)
  }

  /** What an object that is not dead holds is allocated and not dead. */
  ghost predicate AliveClosed(h: Heap, m: Colors, cw: bool, fixed: set<Ref>)
    requires h.Keys == m.Keys
  {
    forall o, r {:trigger Holds(h, o, r)} :: o in h && Alive(m, cw, fixed, o) && Holds(h, o, r)
        ==> Alive(m, cw, fixed, r)
  }

  ghost predicate OneWhite(m: Colors, cw: bool) {
    forall o {:trigger m[o].White?} :: o in m && m[o].White? ==> m[o].kind == cw
  }

  ghost predicate AllCurrent(m: Colors, cw: bool) {
    forall o {:trigger m[o]} :: o in m ==> m[o] == White(cw)
  }

  lemma OneWhiteAlive(m: Colors, cw: bool, fixed: set<Ref>)
    requires OneWhite(m, cw)
    ensures forall r :: r in m ==> Alive(m, cw, fixed, r)
  {
  }

  ghost predicate FixedOk(h: Heap, fixed: set<Ref>) {
    forall r :: r in fixed && r in h ==> h[r].Str?
  }

  /** The flip: unmarked objects are dead from here on, and no live object points to one. */
  lemma Flip(h: Heap, m: Colors, cw: bool, fixed: set<Ref>)
    requires h.Keys == m.Keys && OneWhite(m, cw) && MarkedClosed(h, m) && FixedOk(h, fixed)
    ensures AliveClosed(h, m, !cw, fixed)
    ensures forall r :: Marked(m, r) ==> Alive(m, !cw, fixed, r)
  {
    forall o, r | o in h && Alive(m, !cw, fixed, o) && Holds(h, o, r) ensures Alive(m, !cw, fixed, r) {
      if Marked(m, o) { assert Marked(m, r); }
    }
  }

  /** Everything a marked object holds is marked. */
  ghost predicate MarkedClosed(h: Heap, m: Colors) {
    forall o :: o in h && Marked(m, o) ==> AllHeldMarked(h, m, o)
  }

  // ---- Where objects live, and which of them are still to be swept

  /**
   * Every object is in exactly one place: a string in strt, the main thread on its own, an open upvalue in the list of
   * its thread, and any other object in allgc.
   */
  ghost predicate Covered(h: Heap, strt: seq<Ref>, allgc: seq<Ref>, main: Ref) {
    forall o: Ref :: multiset(strt)[o] + multiset(allgc)[o] == if o in h && o != main && !h[o].OpenUp? then 1 else 0
  }

  ghost function Tail(l: seq<Ref>, n: nat): seq<Ref>
    requires n <= |l|
  {
    l[|l| - n..]
  }

  /** o may still carry a colour of the finished cycle. */
  ghost predicate Unswept(h: Heap, strTail: seq<Ref>, gcTail: seq<Ref>, main: Ref, o: Ref) {
    || o in strTail || o in gcTail || o == main
    || (o in h && h[o].OpenUp? && (h[o].th == main || h[o].th in gcTail))
  }

  ghost predicate SweptWhite(h: Heap, m: Colors, cw: bool, strTail: seq<Ref>, gcTail: seq<Ref>, main: Ref) {
    forall o {:trigger m[o]} :: o in m ==> m[o] == White(cw) || Unswept(h, strTail, gcTail, main, o)
  }

  // ---- A store by the program

  predicate SameKind(x: Obj, y: Obj) {
    && (x.Str? <==> y.Str?) && (x.Udata? <==> y.Udata?) && (x.ClosedUp? <==> y.ClosedUp?)
      && (x.Closure? <==> y.Closure?)
    && (x.Table? <==> y.Table?) && (x.Thread? <==> y.Thread?) && (x.Proto? <==> y.Proto?) && (x.OpenUp? <==> y.OpenUp?)
  }

  /**
   * h2 is h after o was written, where o (and open upvalues, if it is a thread) holds nothing new but the values vs.
   */
  ghost predicate Stored(h: Heap, h2: Heap, o: Ref, vs: set<Value>) {
    && o in h && h2.Keys == h.Keys && HeapShape(h2) && SameKind(h[o], h2[o]) && !h[o].OpenUp?
    && (forall p :: p in h && p != o ==> h2[p] == h[p])
    && (forall p, r {:trigger Holds(h2, p, r)} :: p in h && Holds(h2, p, r) ==>
          Holds(h, p, r) || (Coll(r) in vs && (p == o || (h[o].Thread? && h[p].OpenUp?))))
  }

  lemma StoredAlive(h: Heap, h2: Heap, m: Colors, cw: bool, fixed: set<Ref>, o: Ref, vs: set<Value>)
    requires h.Keys == m.Keys && AliveClosed(h, m, cw, fixed) && Stored(h, h2, o, vs)
    requires forall v :: v in vs ==> ValAlive(m, cw, fixed, v)
    ensures AliveClosed(h2, m, cw, fixed)
  {
  }

  /** A store without a barrier is safe if the object is not black, or if all it gets is marked. */
  lemma StoredTri(h: Heap, h2: Heap, m: Colors, L: multiset<Ref>, o: Ref, vs: set<Value>)
    requires Tri(h, m, L) && Stored(h, h2, o, vs) && (forall v :: v in vs && v.Coll? ==> v.ref in h)
    requires m[o].Black? ==> forall v :: v in vs ==> ValMarked(m, v)
    ensures Tri(h2, m, L)
  {
    forall p | p in h2 && m[p].Black? ensures AllHeldMarked(h2, m, p) && !h2[p].Thread? && !h2[p].OpenUp? {
      assert AllHeldMarked(h, m, p);
      forall r | Holds(h2, p, r) ensures Marked(m, r) {
        if !Holds(h, p, r) { assert ValMarked(m, Coll(r)); }
      }
    }
  }

  /** After the back barrier: the table is gray and on a list. */
  lemma StoredBack(h: Heap, h2: Heap, m: Colors, L: multiset<Ref>, o: Ref, vs: set<Value>)
    requires Tri(h, m, L) && Stored(h, h2, o, vs) && (forall v :: v in vs && v.Coll? ==> v.ref in h)
    requires m[o].Black? && Listable(h[o])
    ensures Tri(h2, m[o := Gray], L + multiset{o})
  {
    var m2 := m[o := Gray];
    assert Grows(m, m2);
    forall p | p in h2 && m2[p].Black? ensures AllHeldMarked(h2, m2, p) && !h2[p].Thread? && !h2[p].OpenUp? {
      assert p != o && m[p].Black? && AllHeldMarked(h, m, p);
      forall r | Holds(h2, p, r) ensures Marked(m2, r) { assert Marked(m, r); }
    }
    forall p: Ref ensures (L + multiset{o})[p] == if NeedsList(h2, m2, p) then 1 else 0 {
      assert L[p] == if NeedsList(h, m, p) then 1 else 0;
    }
  }

  lemma StoredCovered(h: Heap, h2: Heap, o: Ref, vs: set<Value>, strt: seq<Ref>, allgc: seq<Ref>, main: Ref)
    requires Covered(h, strt, allgc, main) && Stored(h, h2, o, vs)
    ensures Covered(h2, strt, allgc, main)
  {
    forall p: Ref ensures multiset(strt)[p] + multiset(allgc)[p] == if p in h2 && p != main && !h2[p].OpenUp? then 1
        else 0 {
      assert multiset(strt)[p] + multiset(allgc)[p] == if p in h && p != main && !h[p].OpenUp? then 1 else 0;
    }
  }

  // ---- Steps of the sweep and of upvalues

  ghost predicate OpenNotBlack(h: Heap, m: Colors)
    requires h.Keys == m.Keys
  {
    forall o :: o in h && h[o].OpenUp? ==> !m[o].Black?
  }

  ghost predicate StringsOk(h: Heap, strt: seq<Ref>) {
    forall i :: 0 <= i < |strt| ==> IsStr(h, strt[i])
  }

  /** The part of the invariant that holds in every phase. */
  ghost predicate Base(h: Heap, m: Colors, cw: bool, fixed: set<Ref>, strt: seq<Ref>, allgc: seq<Ref>, main: Ref) {
    && HeapShape(h) && h.Keys == m.Keys && AliveClosed(h, m, cw, fixed) && FixedOk(h, fixed) && OpenNotBlack(h, m)
    && Covered(h, strt, allgc, main) && StringsOk(h, strt)
  }

  lemma Whiten(h: Heap, m: Colors, cw: bool, fixed: set<Ref>, strt: seq<Ref>, allgc: seq<Ref>, main: Ref, o: Ref)
    requires Base(h, m, cw, fixed, strt, allgc, main) && Alive(m, cw, fixed, o)
    ensures Base(h, m[o := White(cw)], cw, fixed, strt, allgc, main)
    ensures forall r :: Alive(m, cw, fixed, r) <==> Alive(m[o := White(cw)], cw, fixed, r)
  {
    var m2 := m[o := White(cw)];
    assert forall r :: Alive(m, cw, fixed, r) <==> Alive(m2, cw, fixed, r);
  }

  /** Removing a dead object that no open upvalue needs. */
  lemma FreeOne(h: Heap, m: Colors, cw: bool, fixed: set<Ref>, o: Ref)
    requires HeapShape(h) && h.Keys == m.Keys && AliveClosed(h, m, cw, fixed) && IsDead(m, cw, fixed, o)
    requires forall u :: u in h && h[u].OpenUp? && u != o ==> h[u].th != o
    ensures HeapShape(h - {o}) && AliveClosed(h - {o}, m - {o}, cw, fixed)
    ensures forall r :: Alive(m, cw, fixed, r) <==> Alive(m - {o}, cw, fixed, r)
  {
    var h2, m2 := h - {o}, m - {o};
    forall p, r | p in h2 && Alive(m2, cw, fixed, p) && Holds(h2, p, r) ensures Alive(m2, cw, fixed, r) {
      assert Alive(m, cw, fixed, p) && Holds(h, p, r);
    }
  }

  /** luaF_close: the upvalue gets its own copy of the stack slot. */
  lemma CloseHolds(h: Heap, u: Ref)
    requires HeapShape(h) && u in h && h[u].OpenUp?
    ensures var h2 := h[u := ClosedUp(h[h[u].th].stack[h[u].idx])];
        HeapShape(h2) && forall p, r :: p in h ==> (Holds(h2, p, r) <==> Holds(h, p, r))
  {
    var h2 := h[u := ClosedUp(h[h[u].th].stack[h[u].idx])];
    forall p, r | p in h ensures Holds(h2, p, r) <==> Holds(h, p, r) {
      if p != u { assert h2[p] == h[p]; }
    }
  }

  lemma CloseCovered(h: Heap, h2: Heap, strt: seq<Ref>, allgc: seq<Ref>, main: Ref, u: Ref)
    requires Covered(h, strt, allgc, main) && u in h && h[u].OpenUp? && u != main
    requires u in h2 && h2 == h[u := h2[u]] && h2[u].ClosedUp?
    ensures Covered(h2, strt, [u] + allgc, main)
  {
    forall o: Ref ensures multiset(strt)[o] + multiset([u] + allgc)[o] == if o in h2 && o != main && !h2[o].OpenUp? then
        1 else 0 {
      assert multiset(strt)[o] + multiset(allgc)[o] == if o in h && o != main && !h[o].OpenUp? then 1 else 0;
      assert multiset([u] + allgc) == multiset{u} + multiset(allgc);
    }
  }

  /** Removing element k of a list. */
  function Cut(l: seq<Ref>, k: nat): seq<Ref>
    requires k < |l|
  {
    l[..k] + l[k + 1..]
  }

  lemma CutMultiset(l: seq<Ref>, k: nat)
    requires k < |l|
    ensures multiset(l) == multiset(Cut(l, k)) + multiset{l[k]}
    ensures Tail(Cut(l, k), |l| - k - 1) == l[k + 1..]
  {
    assert l == l[..k] + [l[k]] + l[k + 1..];
  }

  lemma TailCons(o: Ref, l: seq<Ref>, n: nat)
    requires n <= |l|
    ensures n <= |[o] + l| && Tail([o] + l, n) == Tail(l, n)
  {
  }

  lemma TailStep(l: seq<Ref>, n: nat)
    requires 0 < n <= |l|
    ensures Tail(l, n) == [l[|l| - n]] + Tail(l, n - 1)
  {
  }

  lemma FreedBase(h: Heap, m: Colors, cw: bool, fixed: set<Ref>, strt: seq<Ref>, allgc: seq<Ref>, strt2: seq<Ref>,
      allgc2: seq<Ref>, main: Ref, o: Ref)
    requires Base(h, m, cw, fixed, strt, allgc, main) && IsDead(m, cw, fixed, o) && o != main
    requires forall u :: u in h && h[u].OpenUp? && u != o ==> h[u].th != o
    requires multiset(strt2) + multiset(allgc2) + (if h[o].OpenUp? then multiset{} else multiset{o}) == multiset(strt)
        + multiset(allgc)
    requires forall r :: r in strt2 ==> r in strt
    ensures Base(h - {o}, m - {o}, cw, fixed, strt2, allgc2, main)
  {
    FreeOne(h, m, cw, fixed, o);
    forall p: Ref ensures multiset(strt2)[p] + multiset(allgc2)[p] == if p in h - {o} && p != main
        && !(h - {o})[p].OpenUp? then 1 else 0 {
      assert multiset(strt)[p] + multiset(allgc)[p] == if p in h && p != main && !h[p].OpenUp? then 1 else 0;
      assert (multiset(strt2) + multiset(allgc2) + (if h[o].OpenUp? then multiset{} else multiset{o}))[p]
          == multiset(strt)[p] + multiset(allgc)[p];
    }
    forall i | 0 <= i < |strt2| ensures IsStr(h - {o}, strt2[i]) {
      assert strt2[i] in strt;
      var j :| 0 <= j < |strt| && strt[j] == strt2[i];
      assert IsStr(h, strt[j]);
      assert multiset(strt2)[strt2[i]] >= 1;
      assert strt2[i] != o;
    }
  }

  lemma FreedRoots(m: Colors, cw: bool, fixed: set<Ref>, rs: Roots, o: Ref)
    requires RootsAlive(m, cw, fixed, rs) && IsDead(m, cw, fixed, o)
    ensures RootsAlive(m - {o}, cw, fixed, rs)
  {
    forall r | IsRoot(rs, r) ensures Alive(m - {o}, cw, fixed, r) { assert Alive(m, cw, fixed, r); }
  }

  lemma ClosedBase(h: Heap, h2: Heap, m: Colors, m2: Colors, cw: bool, fixed: set<Ref>, strt: seq<Ref>, allgc: seq<Ref>,
      main: Ref, u: Ref)
    requires Base(h, m, cw, fixed, strt, allgc, main) && u in h && h[u].OpenUp? && u != main && Alive(m, cw, fixed, u)
    requires h2 == h[u := ClosedUp(h[h[u].th].stack[h[u].idx])] && u in m2 && m2 == m[u := m2[u]]
        && Alive(m2, cw, fixed, u)
    ensures Base(h2, m2, cw, fixed, strt, [u] + allgc, main)
    ensures forall r :: Alive(m, cw, fixed, r) <==> Alive(m2, cw, fixed, r)
  {
    CloseHolds(h, u);
    CloseCovered(h, h2, strt, allgc, main, u);
    forall o, r | o in h2 && Alive(m2, cw, fixed, o) && Holds(h2, o, r) ensures Alive(m2, cw, fixed, r) {
      assert Alive(m, cw, fixed, o) && Holds(h, o, r);
    }
  }

  lemma RootsSame(m: Colors, m2: Colors, cw: bool, fixed: set<Ref>, rs: Roots)
    requires RootsAlive(m, cw, fixed, rs)
    requires forall r :: Alive(m, cw, fixed, r) ==> Alive(m2, cw, fixed, r)
    ensures RootsAlive(m2, cw, fixed, rs)
  {
    forall r | IsRoot(rs, r) ensures Alive(m2, cw, fixed, r) { assert Alive(m, cw, fixed, r); }
  }

  /** Element o at the head of the unswept part was swept. */
  lemma SweptDrop(h: Heap, m: Colors, cw: bool, st: seq<Ref>, gt: seq<Ref>, st2: seq<Ref>, gt2: seq<Ref>, main: Ref,
      o: Ref)
    requires SweptWhite(h, m, cw, st, gt, main) && h.Keys == m.Keys
    requires (st == st2 && gt == [o] + gt2) || (st == [o] + st2 && gt == gt2)
    requires o in m ==> m[o] == White(cw)
    requires forall u :: u in h && h[u].OpenUp? && h[u].th == o ==> m[u] == White(cw)
    ensures SweptWhite(h, m, cw, st2, gt2, main)
  {
    forall p | p in m ensures m[p] == White(cw) || Unswept(h, st2, gt2, main, p) {
      assert m[p] == White(cw) || Unswept(h, st, gt, main, p);
    }
  }

  lemma InAllgc(h: Heap, m: Colors, cw: bool, fixed: set<Ref>, strt: seq<Ref>, allgc: seq<Ref>, main: Ref, k: nat)
    requires Base(h, m, cw, fixed, strt, allgc, main) && k < |allgc|
    ensures var o := allgc[k]; o in h && o in m && o != main && !h[o].OpenUp?
  {
    assert multiset(allgc)[allgc[k]] >= 1;
    assert multiset(strt)[allgc[k]] + multiset(allgc)[allgc[k]] >= 1;
  }

  lemma InStrt(h: Heap, m: Colors, cw: bool, fixed: set<Ref>, strt: seq<Ref>, allgc: seq<Ref>, main: Ref, k: nat)
    requires Base(h, m, cw, fixed, strt, allgc, main) && k < |strt|
    ensures var o := strt[k]; o in h && o in m && o != main && h[o].Str?
    ensures forall u :: u in h && h[u].OpenUp? ==> h[u].th != strt[k]
  {
    assert multiset(strt)[strt[k]] >= 1;
    assert multiset(strt)[strt[k]] + multiset(allgc)[strt[k]] >= 1;
    assert IsStr(h, strt[k]);
  }

  // ---- What the program can reach

  datatype Roots = Roots(main: Ref, running: Ref, registry: Value, mt: seq<Value>, fnz: seq<Ref>)

  ghost predicate IsRoot(rs: Roots, r: Ref) {
    r == rs.main || r == rs.running || rs.registry == Coll(r) || Coll(r) in rs.mt || r in rs.fnz
  }

  /** A chain of pointers that starts at a root. */
  ghost predicate Path(h: Heap, rs: Roots, p: seq<Ref>) {
    && |p| > 0 && IsRoot(rs, p[0])
    && forall i :: 0 <= i < |p| - 1 ==> p[i] in h && Holds(h, p[i], p[i + 1])
  }

  /** r can be reached from the roots by following any pointers, weak ones included. */
  ghost predicate Reachable(h: Heap, rs: Roots, r: Ref) {
    exists p :: Path(h, rs, p) && p[|p| - 1] == r
  }

  ghost predicate RootsAlive(m: Colors, cw: bool, fixed: set<Ref>, rs: Roots) {
    forall r :: IsRoot(rs, r) ==> Alive(m, cw, fixed, r)
  }

  lemma {:induction false} PathAlive(h: Heap, m: Colors, cw: bool, fixed: set<Ref>, rs: Roots, p: seq<Ref>)
    requires h.Keys == m.Keys && AliveClosed(h, m, cw, fixed) && RootsAlive(m, cw, fixed, rs) && Path(h, rs, p)
    ensures Alive(m, cw, fixed, p[|p| - 1])
    decreases |p|
  {
    if |p| > 1 {
      var q := p[..|p| - 1];
      assert Path(h, rs, q);
      PathAlive(h, m, cw, fixed, rs, q);
      assert Holds(h, p[|p| - 2], p[|p| - 1]);
    }
  }

  /** Whatever the program can reach is allocated and not dead. */
  lemma ReachableAlive(h: Heap, m: Colors, cw: bool, fixed: set<Ref>, rs: Roots)
    requires h.Keys == m.Keys && AliveClosed(h, m, cw, fixed) && RootsAlive(m, cw, fixed, rs)
    ensures forall r :: Reachable(h, rs, r) ==> r in h && Alive(m, cw, fixed, r)
  {
    forall r | Reachable(h, rs, r) ensures r in h && Alive(m, cw, fixed, r) {
      var p :| Path(h, rs, p) && p[|p| - 1] == r;
      PathAlive(h, m, cw, fixed, rs, p);
    }
  }

  // ---- The mark phase as part of the cycle

  lemma StrongIsHeld(h: Heap, o: Ref, r: Ref)
    requires HeapOk(h) && o in h && StrongHolds(h, o, r)
    ensures Holds(h, o, r)
  {
    match h[o] {
      case Table(mode, _, arr, node) =>
        if mode.WeakValues? && exists i :: 0 <= i < |node| && node[i].val != Nil && node[i].key == Live(Coll(r)) {
          var i :| 0 <= i < |node| && node[i].val != Nil && node[i].key == Live(Coll(r));
          assert NodeHolds(node[i], r);
        }
      case Thread(stack, top) =>
        var i :| 0 <= i < top && stack[..top][i] == Coll(r);
        assert stack[i] == Coll(r);
      case _ =>
    }
  }

  /** The set of all objects is closed. */
  lemma KeysClosed(h: Heap, m: Colors)
    requires HeapOk(h) && h.Keys == m.Keys
    ensures Closed(h, h.Keys) && Within(h, m, h.Keys)
  {
    forall o, r | o in h && StrongHolds(h, o, r) ensures r in h.Keys { StrongIsHeld(h, o, r); }
    forall o, i: nat | o in h && EphemeronEntry(h, o, i) ensures h[o].node[i].val.ref in h.Keys {
      assert NodeHolds(h[o].node[i], h[o].node[i].val.ref);
      assert Holds(h, o, h[o].node[i].val.ref);
    }
  }

  /** While no object is dead, the base invariant follows from the heap being sound. */
  lemma MarkBase(h0: Heap, m0: Colors, h: Heap, m: Colors, L: multiset<Ref>, cw: bool, fixed: set<Ref>, strt: seq<Ref>,
      allgc: seq<Ref>, main: Ref)
    requires Base(h0, m0, cw, fixed, strt, allgc, main) && Shrinks(h0, h) && m0.Keys == m.Keys
    requires Tri(h, m, L) && OneWhite(m, cw)
    ensures Base(h, m, cw, fixed, strt, allgc, main)
  {
    OneWhiteAlive(m, cw, fixed);
    ShrinkPlaces(h0, h, fixed, strt, allgc, main);
  }

  lemma ShrinkPlaces(h0: Heap, h: Heap, fixed: set<Ref>, strt: seq<Ref>, allgc: seq<Ref>, main: Ref)
    requires Shrinks(h0, h) && FixedOk(h0, fixed) && Covered(h0, strt, allgc, main) && StringsOk(h0, strt)
    ensures FixedOk(h, fixed) && Covered(h, strt, allgc, main) && StringsOk(h, strt)
  {
    forall o | o in h0 ensures h[o].Str? == h0[o].Str? && h[o].OpenUp? == h0[o].OpenUp? { ShrinkKinds(h0, h, o); }
    forall o: Ref ensures multiset(strt)[o] + multiset(allgc)[o] == if o in h && o != main && !h[o].OpenUp? then 1
        else 0 {
      assert multiset(strt)[o] + multiset(allgc)[o] == if o in h0 && o != main && !h0[o].OpenUp? then 1 else 0;
    }
    forall i | 0 <= i < |strt| ensures IsStr(h, strt[i]) { assert IsStr(h0, strt[i]); }
  }

  lemma KeptWhite(m: Colors, m2: Colors, cw: bool)
    requires OneWhite(m, cw) && Kept(m, m2)
    ensures OneWhite(m2, cw)
  {
  }

  lemma RootsInKeys(m: Colors, m2: Colors, cw: bool, fixed: set<Ref>, rs: Roots)
    requires RootsAlive(m, cw, fixed, rs) && m.Keys == m2.Keys && OneWhite(m2, cw)
    ensures RootsAlive(m2, cw, fixed, rs)
  {
    OneWhiteAlive(m2, cw, fixed);
    forall r | IsRoot(rs, r) ensures Alive(m2, cw, fixed, r) { assert Alive(m, cw, fixed, r); }
  }

  /** The base invariant after the flip. */
  lemma FlipBase(h0: Heap, m0: Colors, h: Heap, m: Colors, L: multiset<Ref>, cw: bool, fixed: set<Ref>, strt: seq<Ref>,
      allgc: seq<Ref>, main: Ref)
    requires Base(h0, m0, cw, fixed, strt, allgc, main) && Shrinks(h0, h) && m0.Keys == m.Keys
    requires Tri(h, m, L) && OneWhite(m, cw) && MarkedClosed(h, m)
    ensures Base(h, m, !cw, fixed, strt, allgc, main)
    ensures forall r :: Marked(m, r) ==> Alive(m, !cw, fixed, r)
  {
    ShrinkPlaces(h0, h, fixed, strt, allgc, main);
    Flip(h, m, cw, fixed);
  }

  /** When the sweep starts, everything is still to be swept. */
  lemma AllUnswept(h: Heap, m: Colors, cw: bool, fixed: set<Ref>, strt: seq<Ref>, allgc: seq<Ref>, main: Ref)
    requires Base(h, m, cw, fixed, strt, allgc, main)
    ensures SweptWhite(h, m, cw, Tail(strt, |strt|), Tail(allgc, |allgc|), main)
  {
    assert Tail(strt, |strt|) == strt && Tail(allgc, |allgc|) == allgc;
    forall o | o in m ensures Unswept(h, strt, allgc, main, o) {
      if h[o].OpenUp? {
        var th := h[o].th;
        assert multiset(strt)[th] + multiset(allgc)[th] == if th in h && th != main && !h[th].OpenUp? then 1 else 0;
      } else {
        assert multiset(strt)[o] + multiset(allgc)[o] == if o in h && o != main && !h[o].OpenUp? then 1 else 0;
      }
    }
  }

  /** When the sweep ends, everything is white. */
  lemma AllSwept(h: Heap, m: Colors, cw: bool, main: Ref)
    requires SweptWhite(h, m, cw, [], [], main) && h.Keys == m.Keys && main in m && m[main] == White(cw)
    requires forall u :: u in h && h[u].OpenUp? && h[u].th == main ==> m[u] == White(cw)
    ensures AllCurrent(m, cw)
  {
    forall o | o in m ensures m[o] == White(cw) {
      assert m[o] == White(cw) || Unswept(h, [], [], main, o);
    }
  }

  /** A pause: all objects are of the current white, so nothing is dead and nothing is marked. */
  lemma PauseTri(h: Heap, m: Colors, cw: bool, fixed: set<Ref>, strt: seq<Ref>, allgc: seq<Ref>, main: Ref)
    requires Base(h, m, cw, fixed, strt, allgc, main) && AllCurrent(m, cw)
    ensures HeapOk(h) && OneWhite(m, cw) && Tri(h, m, multiset{})
  {
    assert forall r :: r in m ==> Alive(m, cw, fixed, r);
    forall o, r | o in h && Holds(h, o, r) ensures r in h { assert Alive(m, cw, fixed, o); }
  }

  // ---- What the mark phase reached

  function MarkedSet(m: Colors): set<Ref> {
    set o | o in m && !m[o].White?
  }

  /** At the end of the first half of atomic the marked objects are closed under what keeps objects alive, the ephemeron
      rule included, if the tables of the allweak list had their values marked. */
  lemma MarkedIsClosed(h: Heap, m: Colors, l: Lists)
    requires Tri(h, m, multiset([]) + Linked(l) + multiset{}) && ListsDone(h, m, l) && Converged(h, m, l.ephemeron)
        && AllweakValues(h, m, l.allweak)
    ensures Closed(h, MarkedSet(m))
  {
    forall o, r | o in MarkedSet(m) && o in h && StrongHolds(h, o, r) ensures r in MarkedSet(m) {
      StrongMarked(h, m, l, o, r);
      assert Marked(m, r);
    }
    forall o, i: nat | o in MarkedSet(m) && o in h && EphemeronEntry(h, o, i)
        && KeyIn(h, h[o].node[i].key.v, MarkedSet(m))
      ensures h[o].node[i].val.ref in MarkedSet(m)
    {
      EphemeronMarked(h, m, l, o, i);
      assert Marked(m, h[o].node[i].val.ref);
    }
  }

  /** Every table of the ephemeron list is settled: no kept key hides an unmarked value. */
  ghost predicate Converged(h: Heap, m: Colors, eph: seq<Ref>) {
    forall i :: 0 <= i < |eph| ==> EphSettled(h, m, eph[i])
  }

  /** What the list of a marked object says of it. */
  lemma WhereMarked(h: Heap, m: Colors, l: Lists, o: Ref)
    requires Tri(h, m, multiset([]) + Linked(l) + multiset{}) && ListsDone(h, m, l) && Converged(h, m, l.ephemeron)
        && AllweakValues(h, m, l.allweak)
    requires o in h && Marked(m, o)
    ensures AllHeldMarked(h, m, o) || WeakListed(h, m, o) || EphSettled(h, m, o) || ValuesDone(h, m, o)
  {
    if m[o].Gray? && !h[o].OpenUp? {
      assert (multiset([]) + Linked(l) + multiset{})[o] == 1 by { assert NeedsList(h, m, o); }
      assert o in l.again || o in l.weak || o in l.allweak || o in l.ephemeron;
    }
  }

  lemma StrongMarked(h: Heap, m: Colors, l: Lists, o: Ref, r: Ref)
    requires Tri(h, m, multiset([]) + Linked(l) + multiset{}) && ListsDone(h, m, l) && Converged(h, m, l.ephemeron)
        && AllweakValues(h, m, l.allweak)
    requires o in h && Marked(m, o) && StrongHolds(h, o, r)
    ensures Marked(m, r)
  {
    WhereMarked(h, m, l, o);
    StrongIsHeld(h, o, r);
    if WeakListed(h, m, o) && h[o].meta != Coll(r) {
      var node := h[o].node;
      var i :| 0 <= i < |node| && node[i].val != Nil && node[i].key == Live(Coll(r));
      assert KeyMarked(m, node[i]);
    } else if (EphSettled(h, m, o) || ValuesDone(h, m, o)) && h[o].meta != Coll(r) && h[o].mode.EphemeronKeys? {
      var arr := h[o].arr;
      var i :| 0 <= i < |arr| && arr[i] == Coll(r);
      assert ValMarked(m, arr[i]);
    }
  }

  lemma EphemeronMarked(h: Heap, m: Colors, l: Lists, o: Ref, i: nat)
    requires Tri(h, m, multiset([]) + Linked(l) + multiset{}) && ListsDone(h, m, l) && Converged(h, m, l.ephemeron)
        && AllweakValues(h, m, l.allweak)
    requires o in h && Marked(m, o) && EphemeronEntry(h, o, i) && KeyIn(h, h[o].node[i].key.v, MarkedSet(m))
    ensures Marked(m, h[o].node[i].val.ref)
  {
    WhereMarked(h, m, l, o);
    var n := h[o].node[i];
    assert NodeHolds(n, n.val.ref);
    assert Holds(h, o, n.val.ref);
    if EphSettled(h, m, o) {
      assert Settled(h, m, n);
    } else if ValuesDone(h, m, o) {
      assert ValueMarked(m, n);
    }
  }

  // ---- What is kept alive

  ghost predicate RootsWithin(rs: Roots, T: set<Ref>) {
    forall r {:trigger IsRoot(rs, r)} :: IsRoot(rs, r) ==> r in T
  }

  /** r is in every set that contains the roots and is closed under strong references and the ephemeron rule. */
  ghost predicate KeptAlive(h: Heap, rs: Roots, r: Ref) {
    forall T {:trigger Closed(h, T)} :: Closed(h, T) && RootsWithin(rs, T) ==> r in T
  }

  /** The least closed set. */
  ghost function Least(h: Heap, rs: Roots): set<Ref> {
    set r | r in h && KeptAlive(h, rs, r)
  }

  lemma LeastClosed(h: Heap, m: Colors, rs: Roots)
    requires HeapOk(h) && h.Keys == m.Keys && RootsWithin(rs, h.Keys)
    ensures Closed(h, Least(h, rs)) && RootsWithin(rs, Least(h, rs))
    ensures forall r :: KeptAlive(h, rs, r) <==> r in Least(h, rs)
  {
    KeysClosed(h, m);
    var S := Least(h, rs);
    forall o, r | o in S && o in h && StrongHolds(h, o, r) ensures r in S {
      forall T | Closed(h, T) && RootsWithin(rs, T) ensures r in T { assert o in T; }
      assert KeptAlive(h, rs, r);
    }
    forall o, i: nat | o in S && o in h && EphemeronEntry(h, o, i) && KeyIn(h, h[o].node[i].key.v, S)
        ensures h[o].node[i].val.ref in S {
      var r := h[o].node[i].val.ref;
      forall T | Closed(h, T) && RootsWithin(rs, T) ensures r in T {
        assert o in T && KeyIn(h, h[o].node[i].key.v, T);
      }
      assert KeptAlive(h, rs, r);
    }
    forall r | IsRoot(rs, r) ensures r in S { assert KeptAlive(h, rs, r); }
  }

  /** A collectable value other than a string that nothing keeps alive. */
  ghost predicate Droppable(h: Heap, rs: Roots, v: Value) {
    v.Coll? && !IsStr(h, v.ref) && !KeptAlive(h, rs, v.ref)
  }

  /** y is x after clearing: a table lost entries only for a key or a value that nothing keeps alive. */
  ghost predicate EntriesKept(h: Heap, rs: Roots, x: Obj, y: Obj) {
    x.Table? ==>
      && y.Table? && y.mode == x.mode && y.meta == x.meta && |y.arr| == |x.arr| && |y.node| == |x.node|
      && (forall i :: 0 <= i < |x.arr| && y.arr[i] != x.arr[i] ==> Droppable(h, rs, x.arr[i]))
      && (forall i :: 0 <= i < |x.node| && x.node[i].val != Nil && y.node[i] != x.node[i] ==>
            Droppable(h, rs, x.node[i].key.v) || Droppable(h, rs, x.node[i].val))
  }

  /** After the first half of atomic, what is kept alive is marked. */
  lemma MarkedKept(h: Heap, h1: Heap, m1: Colors, l1: Lists, rs: Roots)
    requires Trims(h, h1) && UpsBelowTop(h)
    requires Tri(h1, m1, multiset([]) + Linked(l1) + multiset{}) && ListsDone(h1, m1, l1)
        && Converged(h1, m1, l1.ephemeron) && AllweakValues(h1, m1, l1.allweak)
    requires RootsWithin(rs, MarkedSet(m1))
    ensures forall r :: KeptAlive(h, rs, r) ==> Marked(m1, r)
  {
    MarkedIsClosed(h1, m1, l1);
    TrimsClosed(h, h1, MarkedSet(m1));
    assert forall r :: r in MarkedSet(m1) ==> Marked(m1, r);
  }

  lemma ClearedKept(h: Heap, h1: Heap, m1: Colors, h2: Heap, rs: Roots, o: Ref)
    requires Trims(h, h1) && Loses(h1, m1, h2) && o in h && forall r :: KeptAlive(h, rs, r) ==> Marked(m1, r)
    ensures EntriesKept(h, rs, h[o], h2[o])
  {
    assert ObjTrims(h[o], h1[o]) && ObjLoses(h1, m1, h1[o], h2[o]);
    forall v | KeyCleared(h1, m1, v) ensures Droppable(h, rs, v) {
      if v.ref in h { assert ObjTrims(h[v.ref], h1[v.ref]); }
    }
    if h[o].Table? {
      forall i | 0 <= i < |h[o].node| && h[o].node[i].val != Nil ensures h1[o].node[i] == h[o].node[i] {
        assert NodeTrims(h[o].node[i], h1[o].node[i]);
      }
    }
  }

  // ---- What is kept whatever the program did to the tables of the allweak list

  /**
   * A reference that keeps r alive in any case: a table that is on the allweak list when the atomic step starts counts
   * for its metatable only, an open upvalue only for a slot below the top of its stack.
   */
  ghost predicate FirmHolds(h: Heap, aw: seq<Ref>, o: Ref, r: Ref)
    requires o in h
  {
    && StrongHolds(h, o, r)
    && (o in aw && h[o].Table? ==> h[o].meta == Coll(r))
    && (h[o].OpenUp? ==> h[o].th in h && h[h[o].th].Thread? && h[o].idx < h[h[o].th].top)
  }

  ghost predicate FirmClosed(h: Heap, aw: seq<Ref>, T: set<Ref>) {
    && (forall o, r {:trigger FirmHolds(h, aw, o, r)} :: o in T && o in h && FirmHolds(h, aw, o, r) ==> r in T)
    && (forall o, i: nat {:trigger EphemeronEntry(h, o, i)} ::
          o in T && o in h && o !in aw && EphemeronEntry(h, o, i) && KeyIn(h, h[o].node[i].key.v, T) ==>
              h[o].node[i].val.ref in T)
  }

  ghost predicate FirmAlive(h: Heap, aw: seq<Ref>, rs: Roots, r: Ref) {
    forall T {:trigger FirmClosed(h, aw, T)} :: FirmClosed(h, aw, T) && RootsWithin(rs, T) ==> r in T
  }

  ghost predicate FirmDroppable(h: Heap, aw: seq<Ref>, rs: Roots, v: Value) {
    v.Coll? && !IsStr(h, v.ref) && !FirmAlive(h, aw, rs, v.ref)
  }

  /** A table lost entries only for a key or a value that is not kept alive in any case. */
  ghost predicate EntriesFirm(h: Heap, aw: seq<Ref>, rs: Roots, x: Obj, y: Obj) {
    x.Table? ==>
      && y.Table? && y.mode == x.mode && y.meta == x.meta && |y.arr| == |x.arr| && |y.node| == |x.node|
      && (forall i :: 0 <= i < |x.arr| && y.arr[i] != x.arr[i] ==> FirmDroppable(h, aw, rs, x.arr[i]))
      && (forall i :: 0 <= i < |x.node| && x.node[i].val != Nil && y.node[i] != x.node[i] ==>
            FirmDroppable(h, aw, rs, x.node[i].key.v) || FirmDroppable(h, aw, rs, x.node[i].val))
  }

  /** The allweak list: the metatables are marked, and the values of tables that came after aw. */
  ghost predicate AllweakSince(h: Heap, m: Colors, aw: seq<Ref>, aw2: seq<Ref>) {
    forall i {:trigger aw2[i]} ::
        0 <= i < |aw2| ==> MetaDone(h, m, aw2[i]) && (aw2[i] in aw || ValuesDone(h, m, aw2[i]))
  }

  lemma WhereMarkedSince(h: Heap, m: Colors, l: Lists, aw: seq<Ref>, o: Ref)
    requires Tri(h, m, multiset([]) + Linked(l) + multiset{}) && ListsDone(h, m, l) && Converged(h, m, l.ephemeron)
    requires AllweakSince(h, m, aw, l.allweak) && o in h && Marked(m, o)
    ensures AllHeldMarked(h, m, o) || WeakListed(h, m, o) || EphSettled(h, m, o) || ValuesDone(h, m, o)
        || (o in aw && MetaDone(h, m, o))
  {
    if m[o].Gray? && !h[o].OpenUp? {
      assert (multiset([]) + Linked(l) + multiset{})[o] == 1 by { assert NeedsList(h, m, o); }
      assert o in l.again || o in l.weak || o in l.allweak || o in l.ephemeron;
    }
  }

  lemma FirmMarked(h: Heap, m: Colors, l: Lists, aw: seq<Ref>, o: Ref, r: Ref)
    requires Tri(h, m, multiset([]) + Linked(l) + multiset{}) && ListsDone(h, m, l) && Converged(h, m, l.ephemeron)
    requires AllweakSince(h, m, aw, l.allweak) && o in h && Marked(m, o) && FirmHolds(h, aw, o, r)
    ensures Marked(m, r)
  {
    WhereMarkedSince(h, m, l, aw, o);
    StrongIsHeld(h, o, r);
    if h[o].Table? && h[o].meta == Coll(r) {
    } else if WeakListed(h, m, o) {
      var node := h[o].node;
      var i :| 0 <= i < |node| && node[i].val != Nil && node[i].key == Live(Coll(r));
      assert KeyMarked(m, node[i]);
    } else if (EphSettled(h, m, o) || ValuesDone(h, m, o)) && h[o].mode.EphemeronKeys? {
      var arr := h[o].arr;
      var i :| 0 <= i < |arr| && arr[i] == Coll(r);
      assert ValMarked(m, arr[i]);
    }
  }

  lemma FirmEntry(h: Heap, m: Colors, l: Lists, aw: seq<Ref>, o: Ref, i: nat)
    requires Tri(h, m, multiset([]) + Linked(l) + multiset{}) && ListsDone(h, m, l) && Converged(h, m, l.ephemeron)
    requires AllweakSince(h, m, aw, l.allweak) && o in h && Marked(m, o) && o !in aw
    requires EphemeronEntry(h, o, i) && KeyIn(h, h[o].node[i].key.v, MarkedSet(m))
    ensures Marked(m, h[o].node[i].val.ref)
  {
    WhereMarkedSince(h, m, l, aw, o);
    var n := h[o].node[i];
    assert NodeHolds(n, n.val.ref);
    assert Holds(h, o, n.val.ref);
    if EphSettled(h, m, o) {
      assert Settled(h, m, n);
    } else if ValuesDone(h, m, o) {
      assert ValueMarked(m, n);
    }
  }

  /** At the end of the first half of atomic, the marked objects are closed under the references that always count. */
  lemma FirmMarkedClosed(h: Heap, m: Colors, l: Lists, aw: seq<Ref>)
    requires Tri(h, m, multiset([]) + Linked(l) + multiset{}) && ListsDone(h, m, l) && Converged(h, m, l.ephemeron)
    requires AllweakSince(h, m, aw, l.allweak)
    ensures FirmClosed(h, aw, MarkedSet(m))
  {
    forall o, r | o in MarkedSet(m) && o in h && FirmHolds(h, aw, o, r) ensures r in MarkedSet(m) {
      FirmMarked(h, m, l, aw, o, r);
      assert Marked(m, r);
    }
    forall o, i: nat | o in MarkedSet(m) && o in h && o !in aw && EphemeronEntry(h, o, i)
        && KeyIn(h, h[o].node[i].key.v, MarkedSet(m))
      ensures h[o].node[i].val.ref in MarkedSet(m)
    {
      FirmEntry(h, m, l, aw, o, i);
      assert Marked(m, h[o].node[i].val.ref);
    }
  }

  lemma TrimsFirm(a: Heap, b: Heap, aw: seq<Ref>, o: Ref, r: Ref)
    requires Trims(a, b) && o in a && FirmHolds(a, aw, o, r)
    ensures FirmHolds(b, aw, o, r)
  {
    assert ObjTrims(a[o], b[o]);
    match a[o] {
      case Table(mode, _, arr, node) =>
        forall i | 0 <= i < |node| && node[i].val != Nil ensures b[o].node[i] == node[i] {
          assert NodeTrims(node[i], b[o].node[i]);
        }
        if exists i :: 0 <= i < |node| && NodeHolds(node[i], r) {
          var i :| 0 <= i < |node| && NodeHolds(node[i], r);
          assert NodeHolds(b[o].node[i], r);
        }
        if exists i :: 0 <= i < |node| && node[i].val != Nil && node[i].key == Live(Coll(r)) {
          var i :| 0 <= i < |node| && node[i].val != Nil && node[i].key == Live(Coll(r));
          assert b[o].node[i].val != Nil && b[o].node[i].key == Live(Coll(r));
        }
      case OpenUp(th, idx) => assert ObjTrims(a[th], b[th]);
      case Thread(stack, top) =>
        var i :| 0 <= i < top && stack[i] == Coll(r);
        assert b[o].stack[..top][i] == Coll(r);
      case _ =>
    }
  }

  lemma TrimsFirmClosed(a: Heap, b: Heap, aw: seq<Ref>, S: set<Ref>)
    requires Trims(a, b) && FirmClosed(b, aw, S)
    ensures FirmClosed(a, aw, S)
  {
    forall o, r | o in S && o in a && FirmHolds(a, aw, o, r) ensures r in S { TrimsFirm(a, b, aw, o, r); }
    forall o, i: nat | o in S && o in a && o !in aw && EphemeronEntry(a, o, i) && KeyIn(a, a[o].node[i].key.v, S)
      ensures a[o].node[i].val.ref in S
    {
      assert ObjTrims(a[o], b[o]) && NodeTrims(a[o].node[i], b[o].node[i]);
      assert EphemeronEntry(b, o, i);
      var k := a[o].node[i].key.v;
      if k.Coll? && k.ref in a { assert ObjTrims(a[k.ref], b[k.ref]); }
    }
  }

  /** What is marked in the end, whatever the program did. */
  lemma FirmKept(h: Heap, h1: Heap, m1: Colors, l1: Lists, aw: seq<Ref>, rs: Roots)
    requires Trims(h, h1) && Tri(h1, m1, multiset([]) + Linked(l1) + multiset{}) && ListsDone(h1, m1, l1)
        && Converged(h1, m1, l1.ephemeron)
    requires AllweakSince(h1, m1, aw, l1.allweak) && RootsWithin(rs, MarkedSet(m1))
    ensures forall r :: FirmAlive(h, aw, rs, r) ==> Marked(m1, r)
  {
    FirmMarkedClosed(h1, m1, l1, aw);
    TrimsFirmClosed(h, h1, aw, MarkedSet(m1));
    assert forall r :: r in MarkedSet(m1) ==> Marked(m1, r);
  }

  lemma ClearedFirm(h: Heap, h1: Heap, m1: Colors, h2: Heap, aw: seq<Ref>, rs: Roots, o: Ref)
    requires Trims(h, h1) && Loses(h1, m1, h2) && o in h && forall r :: FirmAlive(h, aw, rs, r) ==> Marked(m1, r)
    ensures EntriesFirm(h, aw, rs, h[o], h2[o])
  {
    assert ObjTrims(h[o], h1[o]) && ObjLoses(h1, m1, h1[o], h2[o]);
    forall v | KeyCleared(h1, m1, v) ensures FirmDroppable(h, aw, rs, v) {
      if v.ref in h { assert ObjTrims(h[v.ref], h1[v.ref]); }
    }
    if h[o].Table? {
      forall i | 0 <= i < |h[o].node| && h[o].node[i].val != Nil ensures h1[o].node[i] == h[o].node[i] {
        assert NodeTrims(h[o].node[i], h1[o].node[i]);
      }
    }
  }

  /** A table that is kept alive, is strong, and is not on the allweak list keeps all its entries. */
  lemma StrongEntriesStay(h: Heap, aw: seq<Ref>, rs: Roots, o: Ref, y: Obj)
    requires o in h && h[o].Table? && h[o].mode.Strong? && o !in aw && FirmAlive(h, aw, rs, o)
        && EntriesFirm(h, aw, rs, h[o], y)
    requires NodesOk(h[o].node)
    ensures y.Table? && y.arr == h[o].arr && y.meta == h[o].meta && |y.node| == |h[o].node|
    ensures forall i :: 0 <= i < |y.node| && h[o].node[i].val != Nil ==> y.node[i] == h[o].node[i]
  {
    var x := h[o];
    forall r | Holds(h, o, r) ensures FirmAlive(h, aw, rs, r) {
      forall T {:trigger FirmClosed(h, aw, T)} | FirmClosed(h, aw, T) && RootsWithin(rs, T) ensures r in T {
        assert o in T && FirmHolds(h, aw, o, r);
      }
    }
    forall i | 0 <= i < |x.arr| ensures y.arr[i] == x.arr[i] {
      assert x.arr[i].Coll? ==> Holds(h, o, x.arr[i].ref);
    }
    forall i | 0 <= i < |x.node| && x.node[i].val != Nil ensures y.node[i] == x.node[i] {
      var n := x.node[i];
      assert n.key.v.Coll? ==> NodeHolds(x.node[i], n.key.v.ref) && Holds(h, o, n.key.v.ref);
      assert n.val.Coll? ==> NodeHolds(x.node[i], n.val.ref) && Holds(h, o, n.val.ref);
    }
  }
}
