/**
 * What an object refers to, field by field: the invariant and the reachable and the kept objects in terms of the fields
 * themselves.
 */
module GcFields {
  import opened GcState
  import opened GcPhases
  import opened GcCollector
  import opened GcMutator

  ghost predicate In(v: Value, S: set<Ref>) { v.Coll? ==> v.ref in S }

  ghost predicate AllIn(vs: seq<Value>, S: set<Ref>) { forall i :: 0 <= i < |vs| ==> In(vs[i], S) }

  /** Every pointer in a field of o leads into S; an entry without a value does not count. */
  ghost predicate FieldsIn(h: Heap, o: Ref, S: set<Ref>)
    requires o in h
  {
    match h[o]
    case Str => true
    case Udata(metatable, env) => In(metatable, S) && In(env, S)
    case OpenUp(th, idx) =>
      th in h && h[th].Thread? && idx < |h[th].stack| && In(h[th].stack[idx], S)
    case ClosedUp(v) => In(v, S)
    case Closure(slots) => AllIn(slots, S)
    case Table(_, meta, arr, node) =>
      && In(meta, S) && AllIn(arr, S)
      && forall i :: 0 <= i < |node| && node[i].val != Nil ==>
           node[i].key.Live? && In(node[i].key.v, S) && In(node[i].val, S)
    case Thread(stack, _) => AllIn(stack, S)
    case Proto(cache, consts) => In(cache, S) && AllIn(consts, S)
  }

  /**
   * The pointers that keep their objects alive: not the weak ones, nor dead stack slots, nor the cache of a prototype.
   * In a table with weak keys the value of an entry counts if its key is no object, a string, or in S itself.
   */
  ghost predicate CountedIn(h: Heap, o: Ref, S: set<Ref>)
    requires o in h
  {
    match h[o]
    case Table(mode, meta, arr, node) =>
      && In(meta, S) && (mode.Strong? || mode.EphemeronKeys? ==> AllIn(arr, S))
      && forall i :: 0 <= i < |node| && node[i].val != Nil ==>
           && node[i].key.Live?
           && (mode.Strong? || mode.WeakValues? ==> In(node[i].key.v, S))
           && (mode.Strong? ==> In(node[i].val, S))
           && (mode.EphemeronKeys? ==>
                 var k := node[i].key.v;
                 !k.Coll? || k.ref in S || (k.ref in h && h[k.ref].Str?) ==> In(node[i].val, S))
    case Thread(stack, top) => top <= |stack| && AllIn(stack[..top], S)
    case Proto(_, consts) => AllIn(consts, S)
    case _ => FieldsIn(h, o, S)
  }

  ghost predicate RootFieldsIn(rs: Roots, S: set<Ref>) {
    && rs.main in S && rs.running in S && In(rs.registry, S) && AllIn(rs.mt, S)
    && forall i :: 0 <= i < |rs.fnz| ==> rs.fnz[i] in S
  }

  lemma AllInHeld(vs: seq<Value>, S: set<Ref>)
    ensures AllIn(vs, S) <==> forall r: Ref :: Coll(r) in vs ==> r in S
  {
    if forall r: Ref :: Coll(r) in vs ==> r in S {
      forall i | 0 <= i < |vs| ensures In(vs[i], S) { if vs[i].Coll? { assert Coll(vs[i].ref) in vs; } }
    }
  }

  lemma FieldsHeld(h: Heap, o: Ref, S: set<Ref>)
    requires HeapShape(h) && o in h
    ensures FieldsIn(h, o, S) <==> forall r :: Holds(h, o, r) ==> r in S
  {
    match h[o] {
      case Closure(slots) => AllInHeld(slots, S);
      case Thread(stack, _) => AllInHeld(stack, S);
      case Proto(_, consts) => AllInHeld(consts, S);
      case Table(_, _, arr, node) =>
        AllInHeld(arr, S);
        if forall r :: Holds(h, o, r) ==> r in S {
          forall i | 0 <= i < |node| && node[i].val != Nil
            ensures node[i].key.Live? && In(node[i].key.v, S) && In(node[i].val, S)
          {
            if node[i].key.v.Coll? { assert NodeHolds(node[i], node[i].key.v.ref); }
            if node[i].val.Coll? { assert NodeHolds(node[i], node[i].val.ref); }
          }
        }
      case _ =>
    }
  }

  lemma RootFields(rs: Roots, S: set<Ref>)
    ensures RootFieldsIn(rs, S) <==> RootsWithin(rs, S)
  {
    AllInHeld(rs.mt, S);
    assert IsRoot(rs, rs.main) && IsRoot(rs, rs.running);
    if RootsWithin(rs, S) {
      if rs.registry.Coll? { assert IsRoot(rs, rs.registry.ref); }
      forall r: Ref | Coll(r) in rs.mt ensures r in S { assert IsRoot(rs, r); }
      forall i | 0 <= i < |rs.fnz| ensures rs.fnz[i] in S { assert IsRoot(rs, rs.fnz[i]); }
    }
  }

  // ---- The invariant

  /** The objects that are not dead. */
  ghost function Living(s: Snapshot): set<Ref> {
    set r | r in s.mark && (s.mark[r] != White(!s.cw) || r in s.fixed)
  }

  /** The roots, and all fields of objects that are not dead, lead to allocated objects that are not dead. */
  ghost predicate Sound(s: Snapshot) {
    && Living(s) <= s.obj.Keys && RootFieldsIn(s.rs, Living(s))
    && forall o :: o in Living(s) ==> FieldsIn(s.obj, o, Living(s))
  }

  lemma InvSound(s: Snapshot)
    requires InvS(s)
    ensures Sound(s)
  {
    var S := Living(s);
    InvKeys(s);
    forall r | IsRoot(s.rs, r) ensures r in S { assert Alive(s.mark, s.cw, s.fixed, r); }
    RootFields(s.rs, S);
    forall o | o in S ensures FieldsIn(s.obj, o, S) {
      assert Alive(s.mark, s.cw, s.fixed, o);
      forall r | Holds(s.obj, o, r) ensures r in S { assert Alive(s.mark, s.cw, s.fixed, r); }
      FieldsHeld(s.obj, o, S);
    }
  }

  // ---- Reachable and kept objects

  /** S contains the roots and what the fields of its members refer to. */
  ghost predicate FieldClosed(h: Heap, rs: Roots, S: set<Ref>) {
    RootFieldsIn(rs, S) && forall o :: o in S && o in h ==> FieldsIn(h, o, S)
  }

  lemma {:induction false} ReachInside(h: Heap, rs: Roots, p: seq<Ref>, S: set<Ref>)
    requires HeapShape(h) && Path(h, rs, p) && FieldClosed(h, rs, S)
    ensures p[|p| - 1] in S
    decreases |p|
  {
    RootFields(rs, S);
    if |p| > 1 {
      var q := p[..|p| - 1];
      assert Path(h, rs, q);
      ReachInside(h, rs, q, S);
      assert Holds(h, p[|p| - 2], p[|p| - 1]);
      FieldsHeld(h, p[|p| - 2], S);
    }
  }

  lemma ReachClosed(h: Heap, rs: Roots, S: set<Ref>)
    requires HeapShape(h) && forall r :: r in S <==> Reachable(h, rs, r)
    ensures FieldClosed(h, rs, S)
  {
    forall r | IsRoot(rs, r) ensures r in S { assert Path(h, rs, [r]) && [r][|[r]| - 1] == r; }
    RootFields(rs, S);
    forall o | o in S && o in h ensures FieldsIn(h, o, S) {
      forall r | Holds(h, o, r) ensures r in S { ReachNext(h, rs, o, r); }
      FieldsHeld(h, o, S);
    }
  }

  lemma ReachNext(h: Heap, rs: Roots, o: Ref, r: Ref)
    requires o in h && Reachable(h, rs, o) && Holds(h, o, r)
    ensures Reachable(h, rs, r)
  {
    var p :| Path(h, rs, p) && p[|p| - 1] == o;
    assert Path(h, rs, p + [r]) && (p + [r])[|p + [r]| - 1] == r;
  }

  /** What can be reached is in every set that contains the roots and what the fields of its members refer to. */
  lemma ReachLeast(h: Heap, rs: Roots, S: set<Ref>)
    requires HeapShape(h) && FieldClosed(h, rs, S)
    ensures forall r :: Reachable(h, rs, r) ==> r in S
  {
    forall r | Reachable(h, rs, r) ensures r in S {
      var p :| Path(h, rs, p) && p[|p| - 1] == r;
      ReachInside(h, rs, p, S);
    }
  }

  /** A set is closed exactly if the fields of its members that count lead into it. */
  lemma ClosedFields(h: Heap, T: set<Ref>)
    requires HeapShape(h)
    ensures Closed(h, T) <==> forall o :: o in T && o in h ==> CountedIn(h, o, T)
  {
    if Closed(h, T) {
      forall o | o in T && o in h ensures CountedIn(h, o, T) { CountedFromClosed(h, T, o); }
    }
    if forall o :: o in T && o in h ==> CountedIn(h, o, T) {
      forall o, r | o in T && o in h && StrongHolds(h, o, r) ensures r in T { StrongCounts(h, T, o, r); }
      forall o, i: nat | o in T && o in h && EphemeronEntry(h, o, i) && KeyIn(h, h[o].node[i].key.v, T)
        ensures h[o].node[i].val.ref in T
      {
        assert CountedIn(h, o, T) && h[o].node[i].val != Nil;
      }
    }
  }

  lemma CountedFromClosed(h: Heap, T: set<Ref>, o: Ref)
    requires HeapShape(h) && Closed(h, T) && o in T && o in h
    ensures CountedIn(h, o, T)
  {
    match h[o] {
      case Table(mode, meta, arr, node) =>
        if meta.Coll? { assert StrongHolds(h, o, meta.ref); }
        if mode.Strong? || mode.EphemeronKeys? {
          forall r: Ref | Coll(r) in arr ensures r in T { assert StrongHolds(h, o, r); }
          AllInHeld(arr, T);
        }
        forall i: nat | i < |node| && node[i].val != Nil
          ensures node[i].key.Live?
            && (mode.Strong? || mode.WeakValues? ==> In(node[i].key.v, T))
            && (mode.Strong? ==> In(node[i].val, T))
            && (mode.EphemeronKeys? && KeyIn(h, node[i].key.v, T) ==> In(node[i].val, T))
        {
          EntryFromClosed(h, T, o, i);
        }
      case Thread(stack, top) =>
        forall r: Ref | Coll(r) in stack[..top] ensures r in T { assert StrongHolds(h, o, r); }
        AllInHeld(stack[..top], T);
      case Proto(_, consts) =>
        forall r: Ref | Coll(r) in consts ensures r in T { assert StrongHolds(h, o, r); }
        AllInHeld(consts, T);
      case _ => OtherFromClosed(h, T, o);
    }
  }

  lemma OtherFromClosed(h: Heap, T: set<Ref>, o: Ref)
    requires HeapShape(h) && Closed(h, T) && o in T && o in h && !h[o].Table? && !h[o].Thread? && !h[o].Proto?
    ensures FieldsIn(h, o, T)
  {
    forall r | Holds(h, o, r) ensures r in T { assert StrongHolds(h, o, r); }
    FieldsHeld(h, o, T);
  }

  lemma EntryFromClosed(h: Heap, T: set<Ref>, o: Ref, i: nat)
    requires HeapShape(h) && Closed(h, T) && o in T && o in h && h[o].Table? && i < |h[o].node|
    requires h[o].node[i].val != Nil
    ensures var mode, e := h[o].mode, h[o].node[i];
      && e.key.Live?
      && (mode.Strong? || mode.WeakValues? ==> In(e.key.v, T))
      && (mode.Strong? ==> In(e.val, T))
      && (mode.EphemeronKeys? && KeyIn(h, e.key.v, T) ==> In(e.val, T))
  {
    var e := h[o].node[i];
    assert NodesOk(h[o].node);
    if e.key.v.Coll? {
      assert NodeHolds(e, e.key.v.ref);
      assert h[o].mode.Strong? || h[o].mode.WeakValues? ==> StrongHolds(h, o, e.key.v.ref);
    }
    if e.val.Coll? {
      assert NodeHolds(e, e.val.ref);
      assert h[o].mode.Strong? ==> StrongHolds(h, o, e.val.ref);
      assert h[o].mode.EphemeronKeys? ==> EphemeronEntry(h, o, i);
    }
  }

  lemma StrongCounts(h: Heap, T: set<Ref>, o: Ref, r: Ref)
    requires HeapShape(h) && o in h && CountedIn(h, o, T) && StrongHolds(h, o, r)
    ensures r in T
  {
    match h[o] {
      case Table(_, _, arr, _) => AllInHeld(arr, T);
      case Thread(stack, top) => AllInHeld(stack[..top], T);
      case Proto(_, consts) => AllInHeld(consts, T);
      case _ => FieldsHeld(h, o, T);
    }
  }

  /**
   * All that the roots keep alive is in K: S is the least set that contains the roots and what the fields of its
   * members refer to, as far as they count.
   */
  ghost predicate KeptIn(h: Heap, rs: Roots, S: set<Ref>, K: set<Ref>) {
    && S <= K && RootFieldsIn(rs, S) && (forall o :: o in S && o in h ==> CountedIn(h, o, S))
    && forall T :: RootFieldsIn(rs, T) && (forall o :: o in T && o in h ==> CountedIn(h, o, T)) ==> S <= T
  }

  lemma LeastIn(h: Heap, rs: Roots, K: set<Ref>)
    requires HeapShape(h) && Closed(h, Least(h, rs)) && RootsWithin(rs, Least(h, rs)) && Least(h, rs) <= K
    ensures KeptIn(h, rs, Least(h, rs), K)
  {
    var S := Least(h, rs);
    RootFields(rs, S);
    ClosedFields(h, S);
    forall T | RootFieldsIn(rs, T) && (forall o :: o in T && o in h ==> CountedIn(h, o, T)) ensures S <= T {
      RootFields(rs, T);
      ClosedFields(h, T);
    }
  }
}
