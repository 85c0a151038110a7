/**
 * lua_setmetatable on a table that is on the allweak list: that list is not visited again in the atomic step
 * (lgc.c:582-591).
 */
module GcMetatable {
  import opened GcState
  import opened GcPhases
  import opened GcCollector
  import opened GcMutator
  import opened GcProgram
  import opened GcRuns

  /** The running thread. */
  ghost predicate HasStack(s: Snapshot) {
    s.rs.running in s.obj && s.obj[s.rs.running].Thread? && s.obj[s.rs.running].top <= |s.obj[s.rs.running].stack|
  }

  /** The value at the top of the stack is popped. */
  ghost function Popped(s: Snapshot): Snapshot
    requires HasStack(s) && s.obj[s.rs.running].top > 0
  {
    s.(obj := s.obj[s.rs.running := Thread(s.obj[s.rs.running].stack, s.obj[s.rs.running].top - 1)])
  }

  /** Slot i holds a table, and the top of the stack holds its new metatable. */
  ghost predicate CanSet(s: Snapshot, i: nat) {
    && HasStack(s) && i + 1 < s.obj[s.rs.running].top
    && (var stack, top := s.obj[s.rs.running].stack, s.obj[s.rs.running].top;
        && stack[i].Coll? && stack[i].ref in s.obj && s.obj[stack[i].ref].Table?
        && stack[top - 1].Coll? && stack[top - 1].ref in s.obj && !s.obj[stack[top - 1].ref].Str?)
  }

  ghost function TableAt(s: Snapshot, i: nat): Ref
    requires CanSet(s, i)
  {
    s.obj[s.rs.running].stack[i].ref
  }

  ghost function MetaAt(s: Snapshot, i: nat): Ref
    requires CanSet(s, i)
  {
    s.obj[s.rs.running].stack[s.obj[s.rs.running].top - 1].ref
  }

  ghost function AfterSet(s: Snapshot, i: nat, mode: Mode): Snapshot
    requires CanSet(s, i)
  {
    Popped(MetaStore(s, TableAt(s, i), Coll(MetaAt(s, i)), mode))
  }

  /**
   * What a caller can see before the call: the table is on the allweak list of a running mark phase, and the metatable
   * is white.
   */
  ghost predicate Risky(s: Snapshot, i: nat)
    requires CanSet(s, i)
  {
    s.phase.Propagate? && TableAt(s, i) in s.lists.allweak && !Marked(s.mark, MetaAt(s, i))
  }

  /** lua_setmetatable on a table (lapi.c:822-827), unguarded: the metatable is at the top of the stack. */
  method SetMetatable(g: Collector, i: nat, mode: Mode)
    requires g.Inv() && CanSet(Snap(g), i)
    modifies g`obj, g`mark, g`grayagain
    ensures Snap(g) == AfterSet(old(Snap(g)), i, mode)
    ensures !Risky(old(Snap(g)), i) ==> g.Inv()
  {
    hide *;
    ghost var s := Snap(g);
    SnapInv(g);
    SetIs(s, i);
    AfterIs(s, i, mode);
    var stack, top := g.obj[g.running].stack, g.obj[g.running].top;
    var o, v := stack[i].ref, stack[top - 1];
    BarrierBack(g, o, v);
    SnapInv(g);
    g.obj := g.obj[o := g.obj[o].(meta := v, mode := mode)];
    g.obj := g.obj[g.running := Thread(stack, top - 1)];
    SnapInv(g);
    if !Risky(s, i) { SetKeeps(s, i, mode); }
  }

  lemma SetIs(s: Snapshot, i: nat)
    requires InvS(s) && CanSet(s, i)
    ensures s.rs.running in s.obj && s.obj[s.rs.running].Thread? && i < |s.obj[s.rs.running].stack|
        && 0 < s.obj[s.rs.running].top <= |s.obj[s.rs.running].stack|
    ensures s.obj[s.rs.running].stack[i] == Coll(TableAt(s, i))
        && s.obj[s.rs.running].stack[s.obj[s.rs.running].top - 1] == Coll(MetaAt(s, i))
    ensures TableAt(s, i) in s.obj && TableAt(s, i) in s.mark && s.obj[TableAt(s, i)].Table?
        && Listable(s.obj[TableAt(s, i)]) && TableAt(s, i) != s.rs.running
  {
    InvKeys(s);
    hide InvS;
  }

  lemma AfterIs(s: Snapshot, i: nat, mode: Mode)
    requires CanSet(s, i) && TableAt(s, i) != s.rs.running
    ensures var o, v, t := TableAt(s, i), Coll(MetaAt(s, i)), s.obj[s.rs.running];
      AfterSet(s, i, mode) == Backed(s, o, v).(obj := s.obj[o := s.obj[o].(meta := v, mode := mode)][s.rs.running
          := Thread(t.stack, t.top - 1)])
    ensures forall o, v :: Backed(s, o, v).obj == s.obj && Backed(s, o, v).rs == s.rs
  {
    var o, v := TableAt(s, i), Coll(MetaAt(s, i));
    assert MetaStore(s, o, v, mode).obj[s.rs.running] == s.obj[s.rs.running];
  }

  lemma MetaAlive(s: Snapshot, i: nat)
    requires InvS(s) && CanSet(s, i)
    ensures AliveS(s, Coll(MetaAt(s, i))) && AliveS(s, Coll(TableAt(s, i)))
  {
    SlotAlive(s, i);
    SlotAlive(s, s.obj[s.rs.running].top - 1);
  }

  lemma SetKeeps(s: Snapshot, i: nat, mode: Mode)
    requires InvS(s) && CanSet(s, i) && !Risky(s, i)
    ensures InvS(AfterSet(s, i, mode))
  {
    MetaAlive(s, i);
    StoreStack(s, i, mode);
    hide *;
    SetMetaExact(s, TableAt(s, i), Coll(MetaAt(s, i)), mode);
    PopKeeps(MetaStore(s, TableAt(s, i), Coll(MetaAt(s, i)), mode));
  }

  lemma StoreStack(s: Snapshot, i: nat, mode: Mode)
    requires CanSet(s, i)
    ensures var o, v := TableAt(s, i), Coll(MetaAt(s, i));
      && o in s.obj && s.obj[o].Table? && HasStack(MetaStore(s, o, v, mode))
        && MetaStore(s, o, v, mode).obj[s.rs.running].top > 0
      && AfterSet(s, i, mode) == Popped(MetaStore(s, o, v, mode)) && MetaStore(s, o, v, mode).rs == s.rs
      && (!Risky(s, i) ==> (s.phase.Propagate? && o in s.lists.allweak ==> ValMarked(s.mark, v)))
  {
  }

  lemma PopKeeps(s: Snapshot)
    requires InvS(s) && HasStack(s) && s.obj[s.rs.running].top > 0
    ensures InvS(Popped(s))
  {
    var th := s.rs.running;
    var stack, top := s.obj[th].stack, s.obj[th].top;
    PoppedIs(s, th, stack, top);
    hide *;
    StackMayStore(s, th, stack, top - 1, {});
    StoreInv(s, th, Thread(stack, top - 1), {});
  }

  lemma PoppedIs(s: Snapshot, th: Ref, stack: seq<Value>, top: nat)
    requires HasStack(s) && s.obj[s.rs.running].top > 0 && th == s.rs.running && stack == s.obj[th].stack
        && top == s.obj[th].top
    ensures th in s.obj && s.obj[th].Thread? && top - 1 <= |stack|
        && Popped(s) == s.(obj := s.obj[th := Thread(stack, top - 1)])
  {
  }

  // ---- The atomic step right after

  /** Nothing else holds the metatable: it was made for this call. */
  ghost predicate Fresh(s: Snapshot, i: nat)
    requires CanSet(s, i)
  {
    && MetaAt(s, i) != TableAt(s, i) && !IsRoot(s.rs, MetaAt(s, i))
    && (forall o {:trigger Holds(s.obj, o, MetaAt(s, i))} ::
        o in s.obj && Holds(s.obj, o, MetaAt(s, i)) ==> o == s.rs.running)
    && (forall j :: 0 <= j < |s.obj[s.rs.running].stack| && s.obj[s.rs.running].stack[j] == Coll(MetaAt(s, i)) ==>
        j == s.obj[s.rs.running].top - 1)
  }

  /** The invariant without its clause on the metatables of the allweak list. */
  ghost predicate AlmostInv(s: Snapshot) {
    && BaseS(s) && Tri(s.obj, s.mark, multiset(s.gray) + Linked(s.lists)) && ListsOk(s.obj, s.lists)
    && OneWhite(s.mark, s.cw) && Marked(s.mark, s.rs.main)
  }

  /** A store into an object that is not black. */
  lemma AlmostStored(s: Snapshot, o: Ref, x: Obj, vs: set<Value>)
    requires AlmostInv(s) && Stored(s.obj, s.obj[o := x], o, vs) && o in s.mark && !s.mark[o].Black? && forall v ::
        v in vs ==> AliveS(s, v) && (v.Coll? ==> v.ref in s.obj)
    ensures AlmostInv(s.(obj := s.obj[o := x]))
  {
    hide Stored, Base, Tri, ListsOk, RootsAlive, OneWhite;
    var h2 := s.obj[o := x];
    StoredBase(s.obj, h2, s.mark, s.cw, s.fixed, s.strt, s.allgc, s.rs.main, o, vs);
    StoredTri(s.obj, h2, s.mark, multiset(s.gray) + Linked(s.lists), o, vs);
    StoredKinds(s.obj, h2, o, vs);
    ListsSame(s.obj, h2, s.lists);
  }

  /** When the table is set while it is on the list, only that clause is lost. */
  lemma RiskyReady(s: Snapshot, i: nat, mode: Mode)
    requires InvS(s) && CanSet(s, i) && Risky(s, i)
    ensures AlmostInv(AfterSet(s, i, mode))
    ensures AfterSet(s, i, mode) == s.(obj := AfterSet(s, i, mode).obj) && !Marked(s.mark, MetaAt(s, i))
  {
    MetaAlive(s, i);
    StoreStack(s, i, mode);
    RiskyIs(s, i);
    var o, v := TableAt(s, i), Coll(MetaAt(s, i));
    MetaStored(s, o, mode, v);
    MetaStoreGray(s, o, v, mode);
    InvAlmost(s);
    var s1 := MetaStore(s, o, v, mode);
    hide *;
    AlmostStored(s, o, s.obj[o].(meta := v, mode := mode), {v, v});
    AlmostPop(s1);
    PoppedOnly(s1);
  }

  lemma PoppedOnly(s: Snapshot)
    requires HasStack(s) && s.obj[s.rs.running].top > 0
    ensures Popped(s) == s.(obj := Popped(s).obj)
  {
  }

  lemma AlmostPop(s: Snapshot)
    requires AlmostInv(s) && HasStack(s) && s.obj[s.rs.running].top > 0
    ensures AlmostInv(Popped(s))
  {
    var th := s.rs.running;
    var t := s.obj[th];
    assert HeapShape(s.obj) && th in s.mark && !s.mark[th].Black?;
    StackStored(s.obj, th, t.stack, t.top - 1, {});
    hide AlmostInv;
    AlmostStored(s, th, Thread(t.stack, t.top - 1), {});
  }

  lemma RiskyIs(s: Snapshot, i: nat)
    requires InvS(s) && CanSet(s, i) && Risky(s, i)
    ensures var o := TableAt(s, i);
        o in s.obj && o in s.mark && s.mark[o].Gray? && MetaAt(s, i) in s.obj && !Marked(s.mark, MetaAt(s, i))
  {
    NotBlack(s, TableAt(s, i));
  }

  /** The table is gray, so the back barrier does nothing. */
  lemma MetaStoreGray(s: Snapshot, o: Ref, v: Value, mode: Mode)
    requires o in s.obj && s.obj[o].Table? && o in s.mark && s.mark[o].Gray?
    ensures MetaStore(s, o, v, mode) == s.(obj := s.obj[o := s.obj[o].(meta := v, mode := mode)])
  {
  }

  lemma InvAlmost(s: Snapshot)
    requires InvS(s) && s.phase.Propagate?
    ensures AlmostInv(s)
  {
  }

  lemma ListsSame(h: Heap, h2: Heap, l: Lists)
    requires ListsOk(h, l) && h2.Keys == h.Keys && forall o :: o in h ==> SameKind(h[o], h2[o])
    ensures ListsOk(h2, l)
  {
  }

  /** A table of the allweak list is gray. */
  lemma NotBlack(s: Snapshot, o: Ref)
    requires InvS(s) && s.phase.Propagate? && o in s.lists.allweak
    ensures o in s.mark && s.mark[o].Gray?
  {
    assert (multiset(s.gray) + Linked(s.lists))[o] >= 1;
    assert NeedsList(s.obj, s.mark, o);
  }

  /** All objects but the metatable bound what the atomic step marks. */
  lemma FreshClosed(s: Snapshot, i: nat, mode: Mode)
    requires InvS(s) && CanSet(s, i) && Fresh(s, i) && Risky(s, i)
    ensures ClosedBut(AfterSet(s, i, mode).obj, s.obj.Keys - {MetaAt(s, i)}, {TableAt(s, i)})
  {
    var h, r, o := AfterSet(s, i, mode).obj, MetaAt(s, i), TableAt(s, i);
    FreshKeys(s, i, mode);
    RiskyReady(s, i, mode);
    hide AfterSet, CanSet, Fresh, TableAt, MetaAt, InvS, StrongHolds, Holds, EphemeronEntry, Risky;
    TriParts(h, s.mark, multiset(s.gray) + Linked(s.lists));
    forall x, y | x in h && x != o && StrongHolds(h, x, y) ensures y in s.obj && y != r {
      if x == s.rs.running {
        FreshStack(s, i, mode, y);
      } else {
        StrongIsHeld(h, x, y);
        FreshOther(s, i, mode, x, y);
      }
    }
    forall x, j: nat | x in h && x != o && EphemeronEntry(h, x, j) ensures h[x].node[j].val.ref in s.obj
        && h[x].node[j].val.ref != r {
      EntryHeld(h, x, j);
      FreshOther(s, i, mode, x, h[x].node[j].val.ref);
    }
  }

  lemma EntryHeld(h: Heap, x: Ref, j: nat)
    requires x in h && EphemeronEntry(h, x, j)
    ensures Holds(h, x, h[x].node[j].val.ref) && h[x].Table?
  {
    assert NodeHolds(h[x].node[j], h[x].node[j].val.ref);
  }

  lemma FreshKeys(s: Snapshot, i: nat, mode: Mode)
    requires InvS(s) && CanSet(s, i)
    ensures AfterSet(s, i, mode).obj.Keys == s.obj.Keys && AfterSet(s, i, mode).obj[TableAt(s, i)].Table?
        && AfterSet(s, i, mode).obj[s.rs.running].Thread?
  {
    SetIs(s, i);
    AfterIs(s, i, mode);
    hide InvS;
  }

  /** The stack below its new top does not hold the metatable. */
  lemma FreshStack(s: Snapshot, i: nat, mode: Mode, y: Ref)
    requires InvS(s) && CanSet(s, i) && Fresh(s, i) && s.phase.Propagate? && s.rs.running in AfterSet(s, i, mode).obj
        && StrongHolds(AfterSet(s, i, mode).obj, s.rs.running, y)
    ensures y in s.obj && y != MetaAt(s, i)
  {
    SetIs(s, i);
    AfterStack(s, i, mode);
    GoodHeap(s);
    hide *;
    var th := s.rs.running;
    var stack, top := s.obj[th].stack, s.obj[th].top;
    var j := BelowTop(AfterSet(s, i, mode).obj, th, stack, top - 1, y);
    NotTop(s, i, j, y);
  }

  lemma AfterStack(s: Snapshot, i: nat, mode: Mode)
    requires CanSet(s, i) && TableAt(s, i) != s.rs.running
    ensures s.rs.running in AfterSet(s, i, mode).obj && AfterSet(s, i, mode).obj[s.rs.running]
        == Thread(s.obj[s.rs.running].stack, s.obj[s.rs.running].top - 1)
  {
    AfterIs(s, i, mode);
    hide AfterSet;
  }

  lemma GoodHeap(s: Snapshot)
    requires InvS(s) && s.phase.Propagate?
    ensures HeapOk(s.obj)
  {
  }

  lemma BelowTop(h: Heap, th: Ref, stack: seq<Value>, top: nat, y: Ref) returns (j: nat)
    requires th in h && h[th] == Thread(stack, top) && StrongHolds(h, th, y)
    ensures j < top <= |stack| && stack[j] == Coll(y)
  {
    assert Coll(y) in stack[..top];
    j :| 0 <= j < top && stack[..top][j] == Coll(y);
  }

  lemma NotTop(s: Snapshot, i: nat, j: nat, y: Ref)
    requires CanSet(s, i) && Fresh(s, i) && HeapOk(s.obj) && j + 1 < s.obj[s.rs.running].top
        && s.obj[s.rs.running].stack[j] == Coll(y)
    ensures y in s.obj && y != MetaAt(s, i)
  {
    assert Holds(s.obj, s.rs.running, y);
  }

  /** What the other objects hold is as before. */
  lemma FreshOther(s: Snapshot, i: nat, mode: Mode, x: Ref, y: Ref)
    requires InvS(s) && CanSet(s, i) && Fresh(s, i) && s.phase.Propagate? && x != TableAt(s, i) && x != s.rs.running
    requires x in AfterSet(s, i, mode).obj && Holds(AfterSet(s, i, mode).obj, x, y)
    ensures y in s.obj && y != MetaAt(s, i)
  {
    SetIs(s, i);
    AfterIs(s, i, mode);
    assert HeapOk(s.obj);
    var h := AfterSet(s, i, mode).obj;
    assert h[x] == s.obj[x];
    SameSlots(s.obj, h, s.rs.running, TableAt(s, i), x, y);
    hide *;
    NotFresh(s, i, x, y);
  }

  lemma NotFresh(s: Snapshot, i: nat, x: Ref, y: Ref)
    requires CanSet(s, i) && Fresh(s, i) && HeapOk(s.obj) && x in s.obj && Holds(s.obj, x, y) && x != s.rs.running
    ensures y in s.obj && y != MetaAt(s, i)
  {
  }

  lemma SameSlots(h: Heap, h2: Heap, th: Ref, o: Ref, x: Ref, y: Ref)
    requires th in h && th in h2 && o in h && o in h2 && x in h && x in h2 && x != th && x != o && h2[x] == h[x]
        && h2 == h[o := h2[o]][th := h2[th]]
    requires h[th].Thread? && h2[th].Thread? && h2[th].stack == h[th].stack && h[o].Table? && h2[o].Table?
    ensures Holds(h2, x, y) <==> Holds(h, x, y)
  {
  }

  /** The state is ready for the atomic step, with the table as the one exception. */
  lemma CoreReady(g: Collector, s: Snapshot, i: nat, mode: Mode)
    requires InvS(s) && s.phase.Propagate? && CanSet(s, i) && Fresh(s, i) && Risky(s, i)
    requires Snap(g) == AfterSet(s, i, mode) && g.skip == {TableAt(s, i)}
    ensures g.BaseI() && g.phase == s.phase && g.gray == s.gray && g.currentwhite == s.cw
        && OneWhite(g.mark, g.currentwhite) && Marked(g.mark, g.mainthread)
    ensures g.MarkingOk(s.obj.Keys - {MetaAt(s, i)}, multiset{}) && RootsWithin(g.Rs(), s.obj.Keys - {MetaAt(s, i)})
  {
    RiskyReady(s, i, mode);
    FreshClosed(s, i, mode);
    FreshKeys(s, i, mode);
    FreshRoots(s, i);
    SnapInv(g);
    hide InvS, CanSet, AfterSet, Base, Tri, ListsOk, RootsAlive, OneWhite, ClosedBut, Marked, TableAt, MetaAt;
    assert multiset(g.gray) + Linked(g.SL()) + multiset{} == multiset(g.gray) + Linked(g.SL());
    assert Within(g.obj, g.mark, s.obj.Keys - {MetaAt(s, i)}) by { MarkedRest(s, i, g.obj, g.mark); }
  }

  lemma MarkedRest(s: Snapshot, i: nat, h: Heap, m: Colors)
    requires InvS(s) && CanSet(s, i) && !Marked(s.mark, MetaAt(s, i)) && m == s.mark
    ensures Within(h, m, s.obj.Keys - {MetaAt(s, i)})
  {
    InvKeys(s);
  }

  lemma FreshRoots(s: Snapshot, i: nat)
    requires InvS(s) && CanSet(s, i) && Fresh(s, i)
    ensures RootsWithin(s.rs, s.obj.Keys - {MetaAt(s, i)})
  {
    InvKeys(s);
    forall r | IsRoot(s.rs, r) ensures r in s.obj && r != MetaAt(s, i) { assert Alive(s.mark, s.cw, s.fixed, r); }
  }

  /**
   * lua_setmetatable with a metatable that nothing else holds, and the atomic step right after it: everything reachable
   * is allocated and not dead if and only if the call was not risky.
   */
  method SetThenAtomic(g: Collector, i: nat, mode: Mode)
    requires g.Inv() && g.phase.Propagate? && g.gray == [] && CanSet(Snap(g), i) && Fresh(Snap(g), i)
    modifies g
    ensures Safe(Snap(g)) <==> !Risky(old(Snap(g)), i)
    ensures Risky(old(Snap(g)), i) ==> var r := MetaAt(old(Snap(g)), i);
        Reachable(g.obj, g.Rs(), r) && r in g.obj && IsDead(g.mark, g.currentwhite, g.fixed, r)
  {
    hide *;
    ghost var s := Snap(g);
    SnapInv(g);
    SetMetatable(g, i, mode);
    SnapInv(g);
    SetPhase(s, i, mode);
    ghost var s1, T := Snap(g), g.obj.Keys;
    if Risky(s, i) {
      T := s.obj.Keys - {MetaAt(s, i)};
      g.skip := {TableAt(s, i)};
      SameSnap(g, s1);
      CoreReady(g, s, i, mode);
    } else {
      SafeReady(g);
    }
    NoRefs(g.obj, T);
    g.AtomicCore([], T);
    if Risky(s, i) {
      Dangles(g, s, i, mode);
      NotSafe(g, MetaAt(s, i));
    } else {
      BaseSafe(g);
    }
  }

  lemma SafeReady(g: Collector)
    requires g.Inv() && g.phase.Propagate?
    ensures g.BaseI() && OneWhite(g.mark, g.currentwhite) && Marked(g.mark, g.mainthread)
        && AllweakMeta(g.obj, g.mark, g.allweak)
    ensures g.MarkingOk(g.obj.Keys, multiset{}) && RootsWithin(g.Rs(), g.obj.Keys)
  {
    hide *;
    g.InvUnfold();
    g.MarkUnfold();
    g.AnyBound();
    g.CanMarkUnfold(g.obj.Keys);
  }

  lemma SameSnap(g: Collector, s: Snapshot)
    requires s == Snapshot(g.obj, g.mark, g.gray, g.SL(), g.phase, g.currentwhite, g.Rs(), g.fixed, g.strt, g.allgc,
        g.sweepstr, g.sweepgc)
    ensures Snap(g) == s
  {
  }

  lemma NoRefs(h: Heap, T: set<Ref>)
    ensures RefsIn(h, [], T)
  {
  }

  lemma SetPhase(s: Snapshot, i: nat, mode: Mode)
    requires CanSet(s, i)
    ensures var s2 := AfterSet(s, i, mode);
        s2.phase == s.phase && s2.gray == s.gray && s2.rs == s.rs && s2.cw == s.cw && s2.fixed == s.fixed
  {
  }

  lemma NotSafe(g: Collector, r: Ref)
    requires Reachable(g.obj, g.Rs(), r) && IsDead(g.mark, g.currentwhite, g.fixed, r)
    ensures !Safe(Snap(g))
  {
  }

  lemma BaseSafe(g: Collector)
    requires g.BaseI()
    ensures Safe(Snap(g))
  {
    ReachableAlive(g.obj, g.mark, g.currentwhite, g.fixed, g.Rs());
    hide Reachable, IsDead;
  }

  /**
   * After the atomic step the stack still leads to the table, the table to its metatable, and the metatable is dead.
   */
  lemma Dangles(g: Collector, s: Snapshot, i: nat, mode: Mode)
    requires InvS(s) && CanSet(s, i) && Risky(s, i) && Fresh(s, i) && g.running == s.rs.running && g.fixed == s.fixed
        && g.currentwhite == !s.cw
    requires Within(g.obj, g.mark, s.obj.Keys - {MetaAt(s, i)}) && OneWhite(g.mark, s.cw) && g.obj.Keys == g.mark.Keys
    requires Shrinks(AfterSet(s, i, mode).obj, g.obj) && g.LiveSlotsStay(AfterSet(s, i, mode).obj, g.obj)
    ensures var r := MetaAt(s, i);
        Reachable(g.obj, g.Rs(), r) && r in g.obj && IsDead(g.mark, g.currentwhite, g.fixed, r)
  {
    AfterFacts(s, i, mode);
    hide *;
    var o, r, th, h := TableAt(s, i), MetaAt(s, i), s.rs.running, AfterSet(s, i, mode).obj;
    Stay(g, h, th, o, r, i);
    Chain(g, th, o, r);
    Dead(g, s.obj.Keys, r, s.cw);
  }

  lemma AfterFacts(s: Snapshot, i: nat, mode: Mode)
    requires InvS(s) && CanSet(s, i) && Fresh(s, i)
    ensures var h, o, r, th := AfterSet(s, i, mode).obj, TableAt(s, i), MetaAt(s, i), s.rs.running;
      && th in h && h[th].Thread? && i < h[th].top && i < |h[th].stack| && h[th].stack[i] == Coll(o) && o in h
        && h[o].Table? && h[o].meta == Coll(r)
      && r in h && !h[r].Str? && r !in s.fixed
  {
    SetIs(s, i);
    AfterIs(s, i, mode);
    NotString(s, i);
    StaysBelow(s, i);
    hide InvS, CanSet, Fresh, AfterSet;
  }

  lemma Stay(g: Collector, h: Heap, th: Ref, o: Ref, r: Ref, i: nat)
    requires th in h && h[th].Thread? && i < h[th].top && i < |h[th].stack| && h[th].stack[i] == Coll(o) && o in h
        && h[o].Table? && h[o].meta == Coll(r) && r in h && !h[r].Str?
    requires Shrinks(h, g.obj) && g.LiveSlotsStay(h, g.obj)
    ensures th in g.obj && g.obj[th].Thread? && Coll(o) in g.obj[th].stack && o in g.obj && g.obj[o].Table?
        && g.obj[o].meta == Coll(r) && r in g.obj && !g.obj[r].Str?
  {
    ShrinkKinds(h, g.obj, o);
    ShrinkKinds(h, g.obj, r);
    assert g.obj[th].stack[i] == Coll(o);
  }

  /** What was not marked is dead after the flip. */
  lemma Dead(g: Collector, keys: set<Ref>, r: Ref, cw: bool)
    requires r in g.obj && !g.obj[r].Str? && g.obj.Keys == g.mark.Keys && r !in g.fixed
        && Within(g.obj, g.mark, keys - {r}) && OneWhite(g.mark, cw) && g.currentwhite == !cw
    ensures IsDead(g.mark, g.currentwhite, g.fixed, r)
  {
    assert !Marked(g.mark, r);
  }

  lemma StaysBelow(s: Snapshot, i: nat)
    requires CanSet(s, i) && Fresh(s, i)
    ensures i + 1 < s.obj[s.rs.running].top && MetaAt(s, i) != TableAt(s, i) && MetaAt(s, i) in s.obj
  {
  }

  lemma NotString(s: Snapshot, i: nat)
    requires InvS(s) && CanSet(s, i)
    ensures MetaAt(s, i) in s.obj && !s.obj[MetaAt(s, i)].Str? && MetaAt(s, i) !in s.fixed
        && (MetaAt(s, i) == s.rs.running ==> s.obj[MetaAt(s, i)].Thread?)
  {
  }

  lemma Chain(g: Collector, th: Ref, o: Ref, r: Ref)
    requires th == g.running && th in g.obj && g.obj[th].Thread? && Coll(o) in g.obj[th].stack && o in g.obj
        && g.obj[o].Table? && g.obj[o].meta == Coll(r)
    ensures Reachable(g.obj, g.Rs(), r)
  {
    var p := [th, o, r];
    assert IsRoot(g.Rs(), p[0]) && Holds(g.obj, p[0], p[1]) && Holds(g.obj, p[1], p[2]);
    assert Path(g.obj, g.Rs(), p) && p[|p| - 1] == r;
  }

  // ---- A program that runs into it

  /**
   * The table 1 with a metatable 4 that makes it weak in keys and values, and with the object 3 in it that nothing else
   * holds.
   */
  ghost function Built(): Heap {
    map[0 := Thread([Coll(1), Coll(4), Nil, Nil], 4), 1 := Table(AllWeak, Coll(4), [Coll(3)], []),
        4 := Table(Strong, Nil, [], []), 3 := Table(Strong, Nil, [], [])]
  }

  ghost predicate BuiltRoots(rs: Roots) {
    rs.main == 0 && rs.running == 0 && rs.registry == Coll(1) && rs.fnz == [] && forall v :: v in rs.mt ==> v == Nil
  }

  ghost function Plain(): Obj { Table(Strong, Nil, [], []) }

  /** The heap on the way: the stack, table 1, and the objects 4 and 3 once they exist. */
  ghost function Stage(stack: seq<Value>, t: Obj, more: set<Ref>): Heap {
    map o | o in {0, 1} + more :: if o == 0 then Thread(stack, 4) else if o == 1 then t else Plain()
  }

  lemma StageRegs(g: Collector, stack: seq<Value>, t: Obj, more: set<Ref>)
    requires g.obj == Stage(stack, t, more) && g.running == 0 && g.phase == Pause && t.Table? && 0 !in more
        && 1 !in more && |stack| == 4
    ensures Regs(g) == stack && g.obj[0].top == 4 && g.obj[1] == t && g.obj.Keys == {0, 1} + more
    ensures forall i :: 0 <= i < 4 && stack[i] == Coll(1) ==> TableReg(g, i)
    ensures forall o, v :: MetaAllowed(g, o, v)
  {
  }

  lemma StageNew(stack: seq<Value>, t: Obj, more: set<Ref>, i: nat, r: Ref)
    requires i < |stack| && r != 0 && r != 1
    ensures Stage(stack, t, more)[r := Plain()][0 := Thread(stack[i := Coll(r)], 4)] == Stage(stack[i := Coll(r)], t,
        more + {r})
  {
  }

  lemma StageTable(stack: seq<Value>, t: Obj, u: Obj, more: set<Ref>)
    requires 1 !in more
    ensures Stage(stack, t, more)[1 := u] == Stage(stack, u, more)
  {
  }

  lemma StageStack(stack: seq<Value>, t: Obj, more: set<Ref>, stack2: seq<Value>)
    ensures Stage(stack, t, more)[0 := Thread(stack2, 4)] == Stage(stack2, t, more)
  {
  }

  lemma StageFirst(h: Heap)
    requires h == map[0 := Thread(seq(4, _ => Nil), 0)]
    ensures h[0 := Thread(h[0].stack, 4)][1 := Table(Strong, Nil, [Nil], [])][0 := Thread([Coll(1), Nil, Nil, Nil], 4)]
        == Stage([Coll(1), Nil, Nil, Nil], Table(Strong, Nil, [Nil], []), {})
    ensures h[0].stack[0 := Coll(1)] == [Coll(1), Nil, Nil, Nil]
  {
  }

  lemma StageLast()
    ensures Stage([Coll(1), Coll(4), Nil, Nil], Table(AllWeak, Coll(4), [Coll(3)], []), {4, 3}) == Built()
  {
  }

  lemma Blanks()
    ensures Blank(Plain()) && Plain() == Table(Strong, Nil, [], []) && Blank(Table(Strong, Nil, [Nil], []))
  {
  }

  ghost predicate OnStage(g: Collector, stack: seq<Value>, t: Obj, more: set<Ref>)
    reads g
  {
    && g.Inv() && g.phase == Pause && g.obj == Stage(stack, t, more)
    && g.mainthread == g.running == 0 && g.tobefnz == [] && g.fixed == {} && forall v :: v in g.mt ==> v == Nil
  }

  /** The stack is in use, and table 1 is in register 0. */
  method BuildTable() returns (g: Collector)
    ensures fresh(g) && OnStage(g, [Coll(1), Nil, Nil, Nil], Table(Strong, Nil, [Nil], []), {})
  {
    hide Collector.Inv, Stage;
    g := new Collector.Start(0, 4);
    ghost var h := g.obj;
    StageFirst(h);
    SetTop(g, 4);
    assert g.obj == h[0 := Thread(h[0].stack, 4)];
    New(g, 0, 1, Table(Strong, Nil, [Nil], []));
  }

  /** The metatable 4, whose __mode says weak keys and values. */
  method BuildWeak(g: Collector)
    requires OnStage(g, [Coll(1), Nil, Nil, Nil], Table(Strong, Nil, [Nil], []), {})
    modifies g`obj, g`mark, g`allgc, g`strt, g`grayagain
    ensures OnStage(g, [Coll(1), Coll(4), Nil, Nil], Table(AllWeak, Coll(4), [Nil], []), {4})
  {
    hide Collector.Inv, Stage, Regs, TableReg, MetaAllowed, Blank;
    Blanks();
    ghost var s0, s1 := [Coll(1), Nil, Nil, Nil], [Coll(1), Coll(4), Nil, Nil];
    ghost var t0, t1 := Table(Strong, Nil, [Nil], []), Table(AllWeak, Coll(4), [Nil], []);
    StageRegs(g, s0, t0, {});
    New(g, 1, 4, Table(Strong, Nil, [], []));
    StageNew(s0, t0, {}, 1, 4);
    assert s0[1 := Coll(4)] == s1 && {} + {4} == {4};
    StageRegs(g, s1, t0, {4});
    SetMeta(g, 0, 1, AllWeak);
    StageTable(s1, t0, t1, {4});
  }

  /** The object 3 in register 2. */
  method BuildObject(g: Collector)
    requires OnStage(g, [Coll(1), Coll(4), Nil, Nil], Table(AllWeak, Coll(4), [Nil], []), {4})
    modifies g`obj, g`mark, g`allgc, g`strt
    ensures OnStage(g, [Coll(1), Coll(4), Coll(3), Nil], Table(AllWeak, Coll(4), [Nil], []), {4, 3})
  {
    hide Collector.Inv, Stage, Regs, TableReg, MetaAllowed, Blank;
    Blanks();
    ghost var s1, t1 := [Coll(1), Coll(4), Nil, Nil], Table(AllWeak, Coll(4), [Nil], []);
    StageRegs(g, s1, t1, {4});
    New(g, 2, 3, Table(Strong, Nil, [], []));
    StageNew(s1, t1, {4}, 2, 3);
    assert s1[2 := Coll(3)] == [Coll(1), Coll(4), Coll(3), Nil] && {4} + {3} == {4, 3};
  }

  /** It moves to the table, and the register is cleared. */
  method BuildEntry(g: Collector)
    requires OnStage(g, [Coll(1), Coll(4), Coll(3), Nil], Table(AllWeak, Coll(4), [Nil], []), {4, 3})
    modifies g`obj, g`mark, g`grayagain
    ensures OnStage(g, [Coll(1), Coll(4), Nil, Nil], Table(AllWeak, Coll(4), [Coll(3)], []), {4, 3})
  {
    hide Collector.Inv, Stage, Regs, TableReg, MetaAllowed, Blank;
    ghost var s1, s2 := [Coll(1), Coll(4), Nil, Nil], [Coll(1), Coll(4), Coll(3), Nil];
    ghost var t1, t2 := Table(AllWeak, Coll(4), [Nil], []), Table(AllWeak, Coll(4), [Coll(3)], []);
    StageRegs(g, s2, t1, {4, 3});
    SetArray(g, 0, 0, 2);
    assert [Nil][0 := Coll(3)] == [Coll(3)];
    StageTable(s2, t1, t2, {4, 3});
    StageRegs(g, s2, t2, {4, 3});
    SetConst(g, 2, Nil);
    assert s2[2 := Nil] == s1;
    StageStack(s2, t2, {4, 3}, s1);
  }

  /** From the state that lua_newstate makes. */
  method Build() returns (g: Collector)
    ensures fresh(g) && g.Inv() && g.phase == Pause && g.obj == Built() && BuiltRoots(g.Rs()) && g.fixed == {}
  {
    hide Collector.Inv, Stage, Regs, Built;
    g := BuildTable();
    BuildWeak(g);
    BuildObject(g);
    BuildEntry(g);
    StageRegs(g, [Coll(1), Coll(4), Nil, Nil], Table(AllWeak, Coll(4), [Coll(3)], []), {4, 3});
    SetRegistry(g, 0);
    StageLast();
  }

  /** What the roots keep alive. */
  lemma BuiltClosed(rs: Roots)
    requires BuiltRoots(rs)
    ensures Closed(Built(), {0, 1, 4}) && RootsWithin(rs, {0, 1, 4})
  {
    var h := Built();
    forall o, r | o in {0, 1, 4} && o in h && StrongHolds(h, o, r) ensures r in {0, 1, 4} {
      if o == 0 { assert h[0].stack[..4] == [Coll(1), Coll(4), Nil, Nil]; }
    }
  }

  /** Marking takes nothing away from these objects. */
  lemma BuiltTrims(h: Heap)
    requires Trims(Built(), h)
    ensures h == Built()
  {
    var b := Built();
    forall o | o in b ensures h[o] == b[o] { assert ObjTrims(b[o], h[o]); }
  }

  /** The table is on its way to the allweak list. */
  ghost predicate OnItsWay(g: Collector)
    reads g
  {
    g.Inv() && g.phase == Propagate && g.CanMark({0, 1, 4}) && g.obj == Built() && BuiltRoots(g.Rs()) && g.fixed == {}
        && Marked(g.mark, 1) && (1 in g.gray || 1 in g.allweak)
  }

  /** The mark phase up to the atomic step. */
  method MarkBuilt(g: Collector)
    requires g.Inv() && g.phase == Pause && g.obj == Built() && BuiltRoots(g.Rs()) && g.fixed == {}
    modifies g
    ensures OnItsWay(g) && g.gray == []
  {
    hide *;
    BuiltClosed(g.Rs());
    PauseBound(g, {0, 1, 4});
    NoRefs(g.obj, {0, 1, 4});
    RootsAre(g);
    ghost var fnz := g.tobefnz;
    g.SingleStep(0, [], {0, 1, 4});
    assert g.tobefnz == fnz;
    RootsAre(g);
    StartsGray(g);
    while g.gray != []
      invariant OnItsWay(g)
      decreases |Whites(g.mark)|, |g.gray|
    {
      OnIts(g);
      ghost var m, l, gr, fnz := g.mark, g.SL(), g.gray, g.tobefnz;
      SLParts(g);
      RootsAre(g);
      NoRefs(g.obj, {0, 1, 4});
      g.SingleStep(0, [], {0, 1, 4});
      assert g.tobefnz == fnz;
      RootsAre(g);
      SubsetSize(Whites(g.mark), Whites(m));
      BuiltTrims(g.obj);
      KeepsOn(g, m, l, gr);
    }
  }

  lemma PauseBound(g: Collector, T: set<Ref>)
    requires g.phase == Pause && Closed(g.obj, T) && RootsWithin(g.Rs(), T)
    ensures g.CanMark(T)
  {
  }

  lemma RootsAre(g: Collector)
    ensures g.Rs() == Roots(g.mainthread, g.running, g.registry, g.mt, g.tobefnz)
  {
  }

  lemma OnIts(g: Collector)
    requires OnItsWay(g)
    ensures g.Inv() && g.phase == Propagate && g.CanMark({0, 1, 4}) && g.obj == Built() && BuiltRoots(g.Rs())
        && g.fixed == {} && Marked(g.mark, 1) && (1 in g.gray || 1 in g.allweak)
  {
  }

  /** The table holds something that is not marked, so it is not black. */
  lemma NotFinished(g: Collector)
    requires g.Inv() && g.phase == Propagate && g.CanMark({0, 1, 4}) && g.obj == Built()
    ensures !AllHeldMarked(g.obj, g.mark, 1) && !Marked(g.mark, 3)
  {
    g.CanMarkUnfold({0, 1, 4});
    g.Unfold({0, 1, 4}, multiset{});
    var h := g.obj;
    assert h[1].arr[0] == Coll(3);
    assert Holds(h, 1, 3);
    assert !IsStr(h, 3);
    hide *;
    BoundedOut(h, g.mark, {0, 1, 4}, 3);
    HeldOut(h, g.mark, 1, 3);
  }

  lemma BoundedOut(h: Heap, m: Colors, T: set<Ref>, r: Ref)
    requires Within(h, m, T) && r !in T && !IsStr(h, r)
    ensures !Marked(m, r)
  {
  }

  lemma HeldOut(h: Heap, m: Colors, o: Ref, r: Ref)
    requires o in h && Holds(h, o, r) && !Marked(m, r)
    ensures !AllHeldMarked(h, m, o)
  {
  }

  lemma StartsGray(g: Collector)
    requires g.Inv() && g.phase == Propagate && g.CanMark({0, 1, 4}) && g.obj == Built() && BuiltRoots(g.Rs())
        && g.fixed == {}
    requires g.MarkedRoots(g.mark) && g.SL() == Lists([], [], [], [])
    ensures OnItsWay(g)
  {
    NotFinished(g);
    RegistryMarked(g);
    g.InvUnfold();
    g.MarkUnfold();
    var h := g.obj;
    assert 1 in h && h[1].Table?;
    hide *;
    MarkedGray(h, g.mark, g.gray, g.SL());
    OnFold(g);
  }

  lemma OnFold(g: Collector)
    requires g.Inv() && g.phase == Propagate && g.CanMark({0, 1, 4}) && g.obj == Built() && BuiltRoots(g.Rs())
        && g.fixed == {} && Marked(g.mark, 1) && (1 in g.gray || 1 in g.allweak)
    ensures OnItsWay(g)
  {
  }

  lemma RegistryMarked(g: Collector)
    requires g.MarkedRoots(g.mark) && BuiltRoots(g.Rs())
    ensures Marked(g.mark, 1)
  {
  }

  lemma MarkedGray(h: Heap, m: Colors, gray: seq<Ref>, l: Lists)
    requires Tri(h, m, multiset(gray) + Linked(l) + multiset{}) && l == Lists([], [], [], []) && 1 in h && h[1].Table?
        && Marked(m, 1) && !AllHeldMarked(h, m, 1)
    ensures 1 in gray
  {
    assert m[1].Gray?;
    assert NeedsList(h, m, 1);
    assert (multiset(gray) + Linked(l) + multiset{})[1] == 1;
  }

  lemma KeepsOn(g: Collector, m: Colors, l: Lists, gr: seq<Ref>)
    requires g.Inv() && g.phase == Propagate && g.CanMark({0, 1, 4}) && g.obj == Built() && BuiltRoots(g.Rs())
        && g.fixed == {}
    requires Marked(m, 1) && Grows(m, g.mark) && gr != [] && (1 in gr || 1 in l.allweak)
        && Visited(gr[0], l, g.SL(), g.obj, g.mark, false) && forall r :: r in gr[1..] ==> r in g.gray
    ensures OnItsWay(g)
  {
    NotFinished(g);
    var h := g.obj;
    assert h[1].Table? && h[1].mode.AllWeak?;
    assert Marked(g.mark, 1);
    SLParts(g);
    hide *;
    WhereTo(h, g.mark, gr, l, g.SL());
    OnFold(g);
  }

  lemma SLParts(g: Collector)
    ensures g.SL().allweak == g.allweak
  {
  }

  lemma WhereTo(h: Heap, m: Colors, gr: seq<Ref>, l: Lists, l2: Lists)
    requires 1 in h && h[1].Table? && h[1].mode.AllWeak? && !AllHeldMarked(h, m, 1) && gr != []
        && (1 in gr || 1 in l.allweak) && Visited(gr[0], l, l2, h, m, false)
    ensures 1 in gr[1..] || 1 in l2.allweak
  {
    var d :| l2 == Put(l, gr[0], d) && Outcome(h, m, gr[0], d, false);
    assert gr == [gr[0]] + gr[1..];
    assert gr[0] == 1 ==> d.ToAllweak?;
  }

  /**
   * The metatable 2, made after the marking of the stack, becomes the metatable of table 1: the atomic step leaves it
   * dead, and still the metatable of a table that a register holds.
   */
  method DanglingMetatable() returns (g: Collector)
    ensures fresh(g) && Reachable(g.obj, g.Rs(), 2) && 2 in g.obj && IsDead(g.mark, g.currentwhite, g.fixed, 2)
  {
    hide *;
    g := Build();
    MarkBuilt(g);
    OnIts(g);
    OnList(g);
    BuiltRegs(g);
    New(g, 3, 2, Table(Strong, Nil, [], []));
    SnapInv(g);
    BuiltReady(g);
    SetThenAtomic(g, 0, Strong);
  }

  lemma OnList(g: Collector)
    requires OnItsWay(g) && g.gray == []
    ensures 1 in g.allweak
  {
  }

  lemma BuiltRegs(g: Collector)
    requires g.obj == Built() && BuiltRoots(g.Rs())
    ensures g.running == 0 && 0 in g.obj && Regs(g) == [Coll(1), Coll(4), Nil, Nil] && g.obj[0].Thread?
        && g.obj[0].top == 4 && 2 !in g.obj && Blank(Table(Strong, Nil, [], []))
    ensures Built()[2 := Table(Strong, Nil, [], [])][0 := Thread([Coll(1), Coll(4), Nil, Nil][3 := Coll(2)], 4)]
        == Ready()
  {
    assert [Coll(1), Coll(4), Nil, Nil][3 := Coll(2)] == [Coll(1), Coll(4), Nil, Coll(2)];
  }

  ghost function Ready(): Heap {
    map[0 := Thread([Coll(1), Coll(4), Nil, Coll(2)], 4), 1 := Table(AllWeak, Coll(4), [Coll(3)], []),
        4 := Table(Strong, Nil, [], []), 3 := Table(Strong, Nil, [], []), 2 := Table(Strong, Nil, [], [])]
  }

  lemma BuiltReady(g: Collector)
    requires g.obj == Ready() && BuiltRoots(g.Rs()) && g.phase == Propagate && 1 in g.allweak && 2 in g.mark
        && g.mark[2].White? && Snap(g).obj == g.obj && Snap(g).lists.allweak == g.allweak && Snap(g).mark == g.mark
        && Snap(g).phase == g.phase && Snap(g).rs == g.Rs()
    ensures CanSet(Snap(g), 0) && Fresh(Snap(g), 0) && Risky(Snap(g), 0) && MetaAt(Snap(g), 0) == 2
  {
    var s, h := Snap(g), Ready();
    assert CanSet(s, 0) && TableAt(s, 0) == 1 && MetaAt(s, 0) == 2;
    forall o | o in h && Holds(h, o, 2) ensures o == 0 { }
    hide Snap;
  }
}
