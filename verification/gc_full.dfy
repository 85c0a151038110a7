/** A full collection from any phase (luaC_fullgc, lgc.c:1189-1216). */
module GcFull {
  import opened GcState
  import opened GcPhases
  import opened GcCollector
  import opened GcMutator
  import opened GcFields

  // ---- Freeing dead objects does not change what is kept alive

  lemma LeftHolds(g: Collector, h: Heap, h2: Heap, o: Ref, r: Ref)
    requires g.SameObjects(h, h2) && HeapShape(h2) && o in h2
    ensures o in h && (Holds(h, o, r) <==> Holds(h2, o, r)) && (StrongHolds(h, o, r) <==> StrongHolds(h2, o, r))
  {
    if h2[o].OpenUp? { assert h2[h2[o].th] == h[h2[o].th]; }
  }

  /** A set that is closed in h is closed in what is left of h. */
  lemma ClosedInLeft(g: Collector, h: Heap, h2: Heap, T: set<Ref>)
    requires g.SameObjects(h, h2) && HeapShape(h2) && Closed(h, T)
    ensures Closed(h2, T)
  {
    forall o, r | o in T && o in h2 && StrongHolds(h2, o, r) ensures r in T { LeftHolds(g, h, h2, o, r); }
    forall o, i: nat | o in T && o in h2 && EphemeronEntry(h2, o, i) && KeyIn(h2, h2[o].node[i].key.v, T)
      ensures h2[o].node[i].val.ref in T
    {
      assert EphemeronEntry(h, o, i) && KeyIn(h, h[o].node[i].key.v, T);
    }
  }

  /** The part that is left of a set that is closed in it is closed in h. */
  lemma LeftIsClosed(g: Collector, h: Heap, h2: Heap, T: set<Ref>)
    requires g.SameObjects(h, h2) && HeapOk(h2) && Closed(h2, T)
    ensures Closed(h, T * h2.Keys)
  {
    var S := T * h2.Keys;
    forall o, r | o in S && o in h && StrongHolds(h, o, r) ensures r in S {
      LeftHolds(g, h, h2, o, r);
      StrongIsHeld(h2, o, r);
    }
    forall o, i: nat | o in S && o in h && EphemeronEntry(h, o, i) && KeyIn(h, h[o].node[i].key.v, S)
      ensures h[o].node[i].val.ref in S
    {
      var e := h2[o].node[i];
      assert h2[o] == h[o] && EphemeronEntry(h2, o, i) && NodeHolds(e, e.val.ref);
      assert Holds(h2, o, e.val.ref);
      if e.key.v.Coll? {
        assert NodeHolds(e, e.key.v.ref);
        assert Holds(h2, o, e.key.v.ref);
      }
      assert KeyIn(h2, e.key.v, T);
    }
  }

  lemma LeftKept(g: Collector, h: Heap, h2: Heap, rs: Roots)
    requires g.SameObjects(h, h2) && HeapOk(h2) && RootsWithin(rs, h2.Keys)
    ensures forall r :: KeptAlive(h, rs, r) <==> KeptAlive(h2, rs, r)
  {
    forall r | KeptAlive(h2, rs, r) ensures KeptAlive(h, rs, r) {
      forall T | Closed(h, T) && RootsWithin(rs, T) ensures r in T { ClosedInLeft(g, h, h2, T); }
    }
    forall r | KeptAlive(h, rs, r) ensures KeptAlive(h2, rs, r) {
      forall T | Closed(h2, T) && RootsWithin(rs, T) ensures r in T { LeftIsClosed(g, h, h2, T); }
    }
  }

  lemma LeftEntries(g: Collector, h: Heap, h2: Heap, rs: Roots, o: Ref, y: Obj)
    requires g.SameObjects(h, h2) && HeapOk(h2) && o in h2 && EntriesKept(h2, rs, h2[o], y)
    requires forall r :: KeptAlive(h, rs, r) <==> KeptAlive(h2, rs, r)
    ensures o in h && EntriesKept(h, rs, h[o], y)
  {
    hide KeptAlive;
    if h[o].Table? {
      forall v: Value | Droppable(h2, rs, v) && v.ref in h2 ensures Droppable(h, rs, v) {}
      forall i | 0 <= i < |h[o].arr| && y.arr[i] != h[o].arr[i] ensures Droppable(h, rs, h[o].arr[i]) {
        assert Droppable(h2, rs, h2[o].arr[i]) && Holds(h2, o, h2[o].arr[i].ref);
      }
      forall i | 0 <= i < |h[o].node| && h[o].node[i].val != Nil && y.node[i] != h[o].node[i]
        ensures Droppable(h, rs, h[o].node[i].key.v) || Droppable(h, rs, h[o].node[i].val)
      {
        var e := h2[o].node[i];
        if Droppable(h2, rs, e.key.v) {
          assert NodeHolds(e, e.key.v.ref);
          assert Holds(h2, o, e.key.v.ref);
        } else {
          assert NodeHolds(e, e.val.ref);
          assert Holds(h2, o, e.val.ref);
        }
      }
    }
  }

  lemma LeftRemains(g: Collector, h: Heap, h2: Heap)
    requires g.SameObjects(h, h2) && Remains(h2, g.obj)
    ensures Remains(h, g.obj)
  {
  }

  lemma LeftUps(g: Collector, h: Heap, h2: Heap)
    requires g.SameObjects(h, h2) && HeapShape(h2) && UpsBelowTop(h)
    ensures UpsBelowTop(h2)
  {
    forall o | o in h2 && h2[o].OpenUp? ensures h2[o].idx < h2[h2[o].th].top <= |h2[h2[o].th].stack| {
      assert h2[o] == h[o] && h2[h2[o].th] == h[h2[o].th];
    }
  }

  // ---- Back to the pause

  /** One step of a sweep: it gets closer to the pause. */
  method SweepStep(g: Collector, count: nat)
    requires g.Inv() && (g.phase == SweepString || g.phase == Sweep) && count > 0
    modifies g`obj, g`mark, g`gray, g`grayagain, g`weak, g`allweak, g`ephemeron, g`tobefnz, g`currentwhite, g`phase
    modifies g`strt, g`allgc, g`sweepgc, g`sweepstr
    ensures g.Inv() && g.tobefnz == old(g.tobefnz) && g.currentwhite == old(g.currentwhite)
    ensures old(g.phase) == SweepString ==>
      (g.phase == SweepString || g.phase == Sweep) && (g.phase == Sweep || g.sweepstr < old(g.sweepstr))
    ensures old(g.phase) == Sweep ==>
      (g.phase == Sweep || g.phase == Pause) && (g.phase == Pause || g.sweepgc < old(g.sweepgc))
    ensures g.OnlyDeadFreed(old(g.mark), g.mark) && g.SameObjects(old(g.obj), g.obj)
  {
    hide *;
    g.CanMarkFold({});
    g.NoneSeparated({});
    g.SingleStep(count, [], {});
  }

  /** While marking, and in the pause, no object is dead. */
  lemma NoneDead(g: Collector)
    requires g.Inv() && (g.phase.Propagate? || g.phase.Pause?)
    ensures forall r :: !IsDead(g.mark, g.currentwhite, g.fixed, r)
  {
    g.InvUnfold();
    if g.phase.Propagate? { g.MarkUnfold(); }
  }

  lemma NoneFreed(g: Collector, m: Colors)
    requires g.OnlyDeadFreed(m, g.mark) && forall r :: !IsDead(m, g.currentwhite, g.fixed, r)
    ensures m.Keys == g.mark.Keys
  {
  }

  /**
   * The steps up to the pause.  A mark phase is given up: the sweep makes all objects white again, and as the white is
   * still the same it frees nothing.
   */
  method RunToPause(g: Collector, count: nat)
    requires g.Inv() && count > 0
    modifies g`obj, g`mark, g`gray, g`grayagain, g`weak, g`allweak, g`ephemeron, g`tobefnz, g`currentwhite, g`phase
    modifies g`strt, g`allgc, g`sweepgc, g`sweepstr
    ensures g.Inv() && g.phase == Pause && g.tobefnz == old(g.tobefnz) && g.currentwhite == old(g.currentwhite)
    ensures g.OnlyDeadFreed(old(g.mark), g.mark) && g.SameObjects(old(g.obj), g.obj)
    ensures old(g.phase.Propagate? || g.phase.Pause?) ==> g.obj.Keys == old(g.obj.Keys)
  {
    hide *;
    ghost var h, m, cw := g.obj, g.mark, g.currentwhite;
    g.InvUnfold();
    g.KeysAgree();
    g.SameStart(h, m);
    ghost var none := g.phase.Propagate? || g.phase.Pause?;
    if none { NoneDead(g); }
    if g.phase.Propagate? { g.EnterSweep(); }
    while g.phase != Pause
      invariant g.Inv() && g.tobefnz == old(g.tobefnz) && g.currentwhite == cw
      invariant g.phase == SweepString || g.phase == Sweep || g.phase == Pause
      invariant g.OnlyDeadFreed(m, g.mark) && g.SameObjects(h, g.obj)
      decreases if g.phase == SweepString then 2 else if g.phase == Sweep then 1 else 0,
        if g.phase == SweepString then g.sweepstr else if g.phase == Sweep then g.sweepgc else 0
    {
      ghost var h1, m1 := g.obj, g.mark;
      g.InvUnfold();
      g.ShapeOf();
      SweepStep(g, count);
      g.FreedTrans(h, m, h1, m1);
    }
    g.KeysAgree();
    if none { NoneFreed(g, m); }
  }

  // ---- luaC_fullgc

  /** Live objects are left in the pause. */
  lemma AliveLeft(g: Collector, h: Heap, m: Colors, l: seq<Ref>)
    requires g.OnlyDeadFreed(m, g.mark) && g.obj.Keys == g.mark.Keys
    requires forall i :: 0 <= i < |l| ==> Alive(m, g.currentwhite, g.fixed, l[i])
    ensures RefsIn(g.obj, l, g.obj.Keys)
  {
  }

  lemma PauseFacts(g: Collector)
    requires g.Inv() && g.phase.Pause?
    ensures HeapOk(g.obj) && HeapShape(g.obj) && RootsWithin(g.Rs(), g.obj.Keys) && g.obj.Keys == g.mark.Keys
  {
    hide *;
    g.InvUnfold();
    g.BaseUnfold();
    PauseTri(g.obj, g.mark, g.currentwhite, g.fixed, g.strt, g.allgc, g.mainthread);
    g.RootsBounded();
    ShapeIs(g.obj);
  }

  lemma BaseShape(g: Collector)
    requires g.Inv()
    ensures HeapShape(g.obj)
  {
  }

  /** The objects that are kept alive before and after the way to the pause. */
  lemma LeastLeft(g: Collector, h: Heap, h2: Heap, rs: Roots)
    requires g.SameObjects(h, h2) && HeapOk(h2) && RootsWithin(rs, h2.Keys)
    requires forall r :: KeptAlive(h, rs, r) <==> KeptAlive(h2, rs, r)
    ensures Closed(h, Least(h, rs)) && RootsWithin(rs, Least(h, rs))
    ensures forall r :: KeptAlive(h, rs, r) <==> r in Least(h, rs)
  {
    hide KeptAlive;
    LeastClosed(h2, map o | o in h2 :: Black, rs);
    var S := Least(h2, rs);
    assert forall r :: r in S ==> r in h2 && r in h;
    assert Least(h, rs) == S == S * h2.Keys;
    LeftIsClosed(g, h, h2, S);
  }

  lemma KeptFields(g: Collector, h: Heap, rs: Roots)
    requires HeapShape(h) && Closed(h, Least(h, rs)) && RootsWithin(rs, Least(h, rs))
    requires forall r :: KeptAlive(h, rs, r) ==> r in g.obj
    ensures KeptIn(h, rs, Least(h, rs), g.obj.Keys)
  {
    LeastIn(h, rs, g.obj.Keys);
  }

  lemma ShapeIs(h: Heap)
    requires HeapOk(h)
    ensures HeapShape(h)
  {
  }

  /**
   * A full collection with no step of the program in it, from any phase.  separated are the objects with finalizers
   * that it finds unreachable.  Strings aside, all that is not kept alive is gone afterwards, and nothing else is.
   */
  method FullGc(g: Collector, count: nat, separated: seq<Ref>)
    requires g.Inv() && UpsBelowTop(g.obj) && count > 0
    requires forall i :: 0 <= i < |separated| ==> Alive(g.mark, g.currentwhite, g.fixed, separated[i])
    modifies g`obj, g`mark, g`gray, g`grayagain, g`weak, g`allweak, g`ephemeron, g`tobefnz, g`currentwhite, g`phase
    modifies g`strt, g`allgc, g`sweepgc, g`sweepstr
    ensures g.Inv() && g.phase == Pause && g.tobefnz == old(g.tobefnz) + separated
    ensures forall r :: r in g.obj && !g.obj[r].Str? ==> KeptAlive(old(g.obj), WithFnz(old(g.Rs()), separated), r)
    ensures forall r :: KeptAlive(old(g.obj), old(g.Rs()), r) ==> r in g.obj
    ensures KeptIn(old(g.obj), old(g.Rs()), Least(old(g.obj), old(g.Rs())), g.obj.Keys) && Sound(Snap(g))
    ensures Remains(old(g.obj), g.obj)
    ensures forall o :: o in g.obj ==>
      o in old(g.obj) && EntriesKept(old(g.obj), old(g.Rs()), old(g.obj)[o], g.obj[o])
  {
    hide *;
    ghost var h, m, rs := g.obj, g.mark, g.Rs();
    BaseShape(g);
    RunToPause(g, count);
    ghost var h2 := g.obj;
    PauseFacts(g);
    AliveLeft(g, h, m, separated);
    LeftUps(g, h, h2);
    FnzWithin(h2, rs, separated, h2.Keys);
    LeftKept(g, h, h2, rs);
    LeftKept(g, h, h2, WithFnz(rs, separated));
    LeastLeft(g, h, h2, rs);
    g.FullCycle(count, separated);
    LeftRemains(g, h, h2);
    KeptFields(g, h, rs);
    SnapInv(g);
    InvSound(Snap(g));
    forall o | o in g.obj ensures o in h && EntriesKept(h, rs, h[o], g.obj[o]) {
      LeftEntries(g, h, h2, rs, o, g.obj[o]);
    }
  }
}
