/**
 * The program beside the collector: allocation, reads, unbarriered writes to stacks and roots, and barriered writes to
 * objects (lgc.c:135-222, lfunc.c:47-105), on values of the whole state.  Every lemma says that one step keeps the
 * invariant.
 */
module GcMutator {
  import opened GcState
  import opened GcPhases
  import opened GcCollector

  /** The whole state of the collector and the program. */
  datatype Snapshot = Snapshot(obj: Heap, mark: Colors, gray: seq<Ref>, lists: Lists, phase: Phase, cw: bool, rs: Roots,
      fixed: set<Ref>,
                               strt: seq<Ref>, allgc: seq<Ref>, sweepstr: nat, sweepgc: nat)

  ghost function Snap(g: Collector): Snapshot
    reads g
  {
    Snapshot(g.obj, g.mark, g.gray, g.SL(), g.phase, g.currentwhite, g.Rs(), g.fixed, g.strt, g.allgc, g.sweepstr,
        g.sweepgc)
  }

  ghost predicate BaseS(s: Snapshot) {
    && Base(s.obj, s.mark, s.cw, s.fixed, s.strt, s.allgc, s.rs.main) && s.sweepstr <= |s.strt|
      && s.sweepgc <= |s.allgc|
    && RootsAlive(s.mark, s.cw, s.fixed, s.rs)
    && s.rs.main in s.obj && s.obj[s.rs.main].Thread? && s.rs.running in s.obj && s.obj[s.rs.running].Thread?
  }

  ghost predicate MarkS(s: Snapshot) {
    && Tri(s.obj, s.mark, multiset(s.gray) + Linked(s.lists)) && ListsOk(s.obj, s.lists)
    && OneWhite(s.mark, s.cw) && Marked(s.mark, s.rs.main) && AllweakMeta(s.obj, s.mark, s.lists.allweak)
  }

  ghost predicate SweepS(s: Snapshot) {
    && s.sweepstr <= |s.strt| && s.sweepgc <= |s.allgc|
    && SweptWhite(s.obj, s.mark, s.cw, Tail(s.strt, s.sweepstr), Tail(s.allgc, s.sweepgc), s.rs.main)
  }

  ghost predicate InvS(s: Snapshot) {
    && BaseS(s)
    && (s.phase.Propagate? ==> MarkS(s))
    && !s.phase.Atomic?
    && (s.phase.SweepString? || s.phase.Sweep? ==> SweepS(s))
    && (s.phase.Sweep? ==> s.sweepstr == 0)
    && (s.phase.Pause? ==> AllCurrent(s.mark, s.cw))
  }

  lemma SnapInv(g: Collector)
    ensures g.Inv() <==> InvS(Snap(g)) && g.skip == {}
    ensures Snap(g) == Snapshot(g.obj, g.mark, g.gray, g.SL(), g.phase, g.currentwhite, g.Rs(), g.fixed, g.strt,
        g.allgc, g.sweepstr, g.sweepgc)
    ensures g.SL() == Lists(g.grayagain, g.weak, g.allweak, g.ephemeron)
    ensures g.Rs() == Roots(g.mainthread, g.running, g.registry, g.mt, g.tobefnz)
  {
    hide Base, RootsAlive, Tri, ListsOk, OneWhite, AllweakMeta, SweptWhite, AllCurrent, Marked;
    assert multiset(g.gray) + Linked(g.SL()) + multiset{} == multiset(g.gray) + Linked(g.SL());
  }

  predicate AliveS(s: Snapshot, v: Value) { ValAlive(s.mark, s.cw, s.fixed, v) }

  // ---- Stores to objects

  lemma StoredBase(h: Heap, h2: Heap, m: Colors, cw: bool, fixed: set<Ref>, strt: seq<Ref>, allgc: seq<Ref>, main: Ref,
      o: Ref, vs: set<Value>)
    requires Base(h, m, cw, fixed, strt, allgc, main) && Stored(h, h2, o, vs)
    requires forall v :: v in vs ==> ValAlive(m, cw, fixed, v)
    ensures Base(h2, m, cw, fixed, strt, allgc, main)
  {
    StoredAlive(h, h2, m, cw, fixed, o, vs);
    StoredCovered(h, h2, o, vs, strt, allgc, main);
    forall i | 0 <= i < |strt| ensures IsStr(h2, strt[i]) { assert IsStr(h, strt[i]); }
  }

  lemma StoredSwept(h: Heap, h2: Heap, m: Colors, cw: bool, st: seq<Ref>, gt: seq<Ref>, main: Ref, o: Ref,
      vs: set<Value>)
    requires SweptWhite(h, m, cw, st, gt, main) && Stored(h, h2, o, vs)
    ensures SweptWhite(h2, m, cw, st, gt, main)
  {
    forall p | p in m ensures m[p] == White(cw) || Unswept(h2, st, gt, main, p) {
      assert m[p] == White(cw) || Unswept(h, st, gt, main, p);
    }
  }

  lemma StoredLists(h: Heap, h2: Heap, m: Colors, l: Lists, o: Ref, vs: set<Value>)
    requires ListsOk(h, l) && AllweakMeta(h, m, l.allweak) && Stored(h, h2, o, vs)
    requires h2[o].Table? && o in l.allweak ==> ValMarked(m, h2[o].meta)
    ensures ListsOk(h2, l) && AllweakMeta(h2, m, l.allweak)
  {
    forall i | 0 <= i < |l.allweak| ensures MetaDone(h2, m, l.allweak[i]) { assert MetaDone(h, m, l.allweak[i]); }
  }

  /**
   * What a store without a barrier needs: live values, and while marking an object that is not black or marked values;
   * a table of the allweak list may only get a marked metatable, because that list is not visited again
   * (lgc.c:582-591).
   */
  ghost predicate MayStore(s: Snapshot, o: Ref, x: Obj, vs: set<Value>) {
    && Stored(s.obj, s.obj[o := x], o, vs) && s.obj.Keys == s.mark.Keys
    && (forall v :: v in vs ==> AliveS(s, v))
    && (s.phase.Propagate? ==>
          && (s.mark[o].Black? ==> forall v :: v in vs ==> ValMarked(s.mark, v))
          && (x.Table? && o in s.lists.allweak ==> ValMarked(s.mark, x.meta)))
  }

  lemma StoreInv(s: Snapshot, o: Ref, x: Obj, vs: set<Value>)
    requires InvS(s) && MayStore(s, o, x, vs)
    ensures InvS(s.(obj := s.obj[o := x]))
  {
    hide Base, Tri, SweptWhite, ListsOk, AllweakMeta, Stored, RootsAlive, OneWhite;
    var h2 := s.obj[o := x];
    StoredBase(s.obj, h2, s.mark, s.cw, s.fixed, s.strt, s.allgc, s.rs.main, o, vs);
    StoredKinds(s.obj, h2, o, vs);
    if s.phase.Propagate? {
      StoredTri(s.obj, h2, s.mark, multiset(s.gray) + Linked(s.lists), o, vs);
      StoredLists(s.obj, h2, s.mark, s.lists, o, vs);
    }
    if s.phase.SweepString? || s.phase.Sweep? {
      StoredSwept(s.obj, h2, s.mark, s.cw, Tail(s.strt, s.sweepstr), Tail(s.allgc, s.sweepgc), s.rs.main, o, vs);
    }
  }

  lemma StoredKinds(h: Heap, h2: Heap, o: Ref, vs: set<Value>)
    requires Stored(h, h2, o, vs)
    ensures h2.Keys == h.Keys && forall p :: p in h ==> SameKind(h[p], h2[p])
  {
  }

  method Store(g: Collector, o: Ref, x: Obj, ghost vs: set<Value>)
    requires g.Inv() && MayStore(Snap(g), o, x, vs)
    modifies g`obj
    ensures g.Inv() && g.obj == old(g.obj)[o := x]
  {
    hide *;
    ghost var s := Snap(g);
    SnapInv(g);
    StoreInv(s, o, x, vs);
    g.obj := g.obj[o := x];
    SnapInv(g);
  }

  // ---- Barriers (lgc.c:135-182)

  lemma BackInv(s: Snapshot, o: Ref)
    requires InvS(s) && o in s.obj && s.mark[o].Black? && Listable(s.obj[o])
    ensures InvS(s.(mark := s.mark[o := Gray], lists := s.lists.(again := [o] + s.lists.again)))
  {
    hide Tri, ListsOk, RootsAlive, Base, AllweakMeta, OneWhite, IsDead, Put;
    var m2 := s.mark[o := Gray];
    InvKeys(s);
    BackBase(s.obj, s.mark, s.cw, s.fixed, s.strt, s.allgc, s.rs.main, o);
    RootsSame(s.mark, m2, s.cw, s.fixed, s.rs);
    if s.phase.Propagate? {
      BackTri(s.obj, s.mark, s.gray, s.lists, o);
      ListsOkAgain(s.obj, s.lists, o);
      assert Grows(s.mark, m2);
      MetaMono(s.obj, s.mark, m2, s.lists.allweak);
      assert OneWhite(m2, s.cw) by { assert Kept(s.mark, m2); KeptWhite(s.mark, m2, s.cw); }
    }
    if s.phase.SweepString? || s.phase.Sweep? {
      RecolorSwept(s.obj, s.mark, s.cw, Tail(s.strt, s.sweepstr), Tail(s.allgc, s.sweepgc), s.rs.main, o, Gray);
    }
  }

  lemma RecolorSwept(h: Heap, m: Colors, cw: bool, st: seq<Ref>, gt: seq<Ref>, main: Ref, o: Ref, c: Color)
    requires SweptWhite(h, m, cw, st, gt, main) && o in m && (m[o] != White(cw) || c == White(cw))
    ensures SweptWhite(h, m[o := c], cw, st, gt, main)
  {
    forall p | p in m ensures m[o := c][p] == White(cw) || Unswept(h, st, gt, main, p) {
      assert m[p] == White(cw) || Unswept(h, st, gt, main, p);
    }
  }

  lemma BackBase(h: Heap, m: Colors, cw: bool, fixed: set<Ref>, strt: seq<Ref>, allgc: seq<Ref>, main: Ref, o: Ref)
    requires Base(h, m, cw, fixed, strt, allgc, main) && o in h && m[o].Black? && !h[o].OpenUp?
    ensures Base(h, m[o := Gray], cw, fixed, strt, allgc, main)
    ensures forall r :: Alive(m, cw, fixed, r) <==> Alive(m[o := Gray], cw, fixed, r)
  {
    hide Holds, HeapShape, Covered, StringsOk;
    assert m[o := Gray].Keys == m.Keys;
    assert OpenNotBlack(h, m[o := Gray]);
    assert forall r :: Alive(m, cw, fixed, r) <==> Alive(m[o := Gray], cw, fixed, r);
  }

  lemma BackTri(h: Heap, m: Colors, g: seq<Ref>, l: Lists, o: Ref)
    requires Tri(h, m, multiset(g) + Linked(l)) && o in h && m[o].Black? && Listable(h[o])
    ensures Tri(h, m[o := Gray], multiset(g) + Linked(l.(again := [o] + l.again)))
  {
    hide Tri, Linked;
    TriParts(h, m, multiset(g) + Linked(l));
    NothingStored(h, o);
    StoredBack(h, h, m, multiset(g) + Linked(l), o, {});
    PutLinked(l, o, Again);
    assert multiset(g) + Linked(l) + multiset{o} == multiset(g) + Linked(Put(l, o, Again));
  }

  lemma ListsOkAgain(h: Heap, l: Lists, o: Ref)
    requires ListsOk(h, l)
    ensures ListsOk(h, l.(again := [o] + l.again))
  {
  }

  lemma TriParts(h: Heap, m: Colors, L: multiset<Ref>)
    requires Tri(h, m, L)
    ensures HeapOk(h) && HeapShape(h) && h.Keys == m.Keys
  {
  }

  lemma NothingStored(h: Heap, o: Ref)
    requires HeapShape(h) && o in h && !h[o].OpenUp?
    ensures Stored(h, h, o, {})
  {
  }

  lemma MetaMono(h: Heap, m: Colors, m2: Colors, l: seq<Ref>)
    requires AllweakMeta(h, m, l) && Grows(m, m2)
    ensures AllweakMeta(h, m2, l)
  {
    forall i | 0 <= i < |l| ensures MetaDone(h, m2, l[i]) { assert MetaDone(h, m, l[i]); }
  }

  predicate BackNeeded(m: Colors, o: Ref, v: Value) {
    v.Coll? && v.ref in m && m[v.ref].White? && o in m && m[o].Black?
  }

  ghost function Backed(s: Snapshot, o: Ref, v: Value): Snapshot {
    if BackNeeded(s.mark, o, v) then s.(mark := s.mark[o := Gray], lists := s.lists.(again := [o] + s.lists.again))
        else s
  }

  /** luaC_barrierback: a black object that is about to point to a white one is made gray again. */
  method BarrierBack(g: Collector, o: Ref, v: Value)
    requires g.Inv() && o in g.obj && o in g.mark && Listable(g.obj[o])
    modifies g`mark, g`grayagain
    ensures g.Inv() && Snap(g) == Backed(old(Snap(g)), o, v)
  {
    hide *;
    ghost var s := Snap(g);
    SnapInv(g);
    BackedIs(s, o, v);
    if BackNeeded(g.mark, o, v) {
      BackBlack(g.mark, o, v);
      BackInv(s, o);
      g.mark := g.mark[o := Gray];
      g.grayagain := [o] + g.grayagain;
      SnapInv(g);
    }
  }

  lemma BackedIs(s: Snapshot, o: Ref, v: Value)
    ensures Backed(s, o, v) == if BackNeeded(s.mark, o, v) then
        s.(mark := s.mark[o := Gray], lists := s.lists.(again := [o] + s.lists.again)) else s
  {
  }

  lemma BackBlack(m: Colors, o: Ref, v: Value)
    requires BackNeeded(m, o, v)
    ensures o in m && m[o].Black?
  {
  }

  lemma MarkedInv(s: Snapshot, m2: Colors, g2: seq<Ref>, T: set<Ref>)
    requires InvS(s) && s.phase.Propagate? && Marks(s.obj, s.mark, s.gray, m2, g2, T)
    ensures InvS(s.(mark := m2, gray := g2))
  {
    hide Tri, Base, ListsOk, RootsAlive, AllweakMeta, Marks, OneWhite, Shrinks;
    MarksTri(s.obj, s.mark, s.gray, m2, g2, T, Linked(s.lists));
    MarksWhites(s.obj, s.mark, s.gray, m2, g2, T);
    KeptWhite(s.mark, m2, s.cw);
    assert Shrinks(s.obj, s.obj) by { TrimsRefl(s.obj); }
    MarksKeys(s.obj, s.mark, s.gray, m2, g2, T);
    MarkBase(s.obj, s.mark, s.obj, m2, multiset(g2) + Linked(s.lists), s.cw, s.fixed, s.strt, s.allgc, s.rs.main);
    RootsInKeys(s.mark, m2, s.cw, s.fixed, s.rs);
    MetaMono(s.obj, s.mark, m2, s.lists.allweak);
  }

  lemma MarksKeys(h: Heap, m: Colors, g: seq<Ref>, m2: Colors, g2: seq<Ref>, T: set<Ref>)
    requires Marks(h, m, g, m2, g2, T)
    ensures h.Keys == m.Keys == m2.Keys
  {
  }

  lemma WhitenInv(s: Snapshot, o: Ref)
    requires InvS(s) && !s.phase.Propagate? && Alive(s.mark, s.cw, s.fixed, o)
    ensures InvS(s.(mark := s.mark[o := White(s.cw)]))
  {
    hide Base, RootsAlive;
    Whiten(s.obj, s.mark, s.cw, s.fixed, s.strt, s.allgc, s.rs.main, o);
    RootsSame(s.mark, s.mark[o := White(s.cw)], s.cw, s.fixed, s.rs);
  }

  /**
   * luaC_barrier: the value that a black object is about to point to is marked; while sweeping the object is made
   * white.
   */
  method Barrier(g: Collector, o: Ref, v: Value)
    requires g.Inv() && o in g.obj && o in g.mark && (v.Coll? ==> v.ref in g.obj)
    modifies g`mark, g`gray
    ensures g.Inv()
    ensures Snap(g) == old(Snap(g)).(mark := g.mark, gray := g.gray)
    ensures g.phase.Propagate? && g.mark[o].Black? ==> ValMarked(g.mark, v)
    ensures Grew(old(Snap(g)), Snap(g))
  {
    hide *;
    ghost var s := Snap(g);
    SnapInv(g);
    InvKeys(s);
    GrewRefl(s);
    WhiteOrMarked(g, v);
    if g.IsWhite(v) && g.mark[o].Black? {
      if g.phase.Propagate? {
        MarkReady(g);
        WhiteIs(g, v);
        g.ReallyMarkObject(v.ref, g.obj.Keys);  // a black object may not point to a white one
        MarkedInv(s, g.mark, g.gray, g.obj.Keys);
        GrewMarks(s, g.mark, g.gray, g.obj.Keys);
        MarkedValue(g, v);
      } else {
        WhitenInv(s, o) by { BlackAlive(s, o); }
        g.mark := g.mark[o := White(g.currentwhite)];  // later stores to it need no barrier
        GrewWhite(s, o) by { BlackAlive(s, o); }
      }
      SnapInv(g);
      InvKeys(Snap(g));
    }
  }

  /** No live object died, and none was forgotten by the marking. */
  ghost predicate Grew(s: Snapshot, s2: Snapshot) {
    && (forall v {:trigger AliveS(s2, v)} :: AliveS(s, v) ==> AliveS(s2, v))
    && (s.phase.Propagate? ==> Grows(s.mark, s2.mark))
  }

  lemma GrewRefl(s: Snapshot)
    ensures Grew(s, s)
  {
  }

  lemma GrewMarks(s: Snapshot, m2: Colors, g2: seq<Ref>, T: set<Ref>)
    requires InvS(s) && s.phase.Propagate? && Marks(s.obj, s.mark, s.gray, m2, g2, T)
    ensures Grew(s, s.(mark := m2, gray := g2))
  {
    MarksWhites(s.obj, s.mark, s.gray, m2, g2, T);
    KeptWhite(s.mark, m2, s.cw);
    OneWhiteAlive(m2, s.cw, s.fixed);
  }

  lemma GrewWhite(s: Snapshot, o: Ref)
    requires !s.phase.Propagate? && Alive(s.mark, s.cw, s.fixed, o)
    ensures Grew(s, s.(mark := s.mark[o := White(s.cw)]))
  {
  }

  lemma InvKeys(s: Snapshot)
    requires InvS(s)
    ensures s.obj.Keys == s.mark.Keys && HeapShape(s.obj)
  {
  }

  lemma BlackAlive(s: Snapshot, o: Ref)
    requires o in s.mark && s.mark[o].Black?
    ensures Alive(s.mark, s.cw, s.fixed, o)
  {
  }

  lemma WhiteOrMarked(g: Collector, v: Value)
    requires v.Coll? ==> v.ref in g.mark
    ensures g.IsWhite(v) || ValMarked(g.mark, v)
  {
  }

  lemma WhiteIs(g: Collector, v: Value)
    requires g.IsWhite(v)
    ensures v.Coll? && v.ref in g.mark && g.mark[v.ref].White?
  {
  }

  lemma MarkedValue(g: Collector, v: Value)
    requires v.Coll? && Marked(g.mark, v.ref)
    ensures ValMarked(g.mark, v)
  {
  }

  lemma MarkReady(g: Collector)
    requires g.Inv() && g.phase.Propagate?
    ensures g.MarkOk(g.obj.Keys)
  {
    hide *;
    g.InvUnfold();
    g.MarkUnfold();
    KeysClosed(g.obj, g.mark);
    g.Ready(g.obj.Keys);
  }
}
