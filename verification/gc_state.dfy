/** The heap of the collector (lgc.h, lobject.h): objects, colours, gray lists, and the invariants of the mark phase. */
module GcState {

  /** The address of a collectable object. */
  type Ref = nat

  /** A TValue: nil, a value that is not collectable, or a pointer to an object. */
  datatype Value = Nil | Prim(n: int) | Coll(ref: Ref)

  /** A key of the hash part.  The collector turns the key of an empty entry into a dead key. */
  datatype Key = Live(v: Value) | DeadKey(v: Value)

  datatype Node = Node(key: Key, val: Value)

  /** The weakness of a table, as its metatable's __mode says when it is traversed. */
  datatype Mode = Strong | WeakValues | EphemeronKeys | AllWeak

  datatype Obj =
    | Str
    | Udata(metatable: Value, env: Value)
    | OpenUp(th: Ref, idx: nat)
    | ClosedUp(v: Value)
    | Closure(slots: seq<Value>)
    | Table(mode: Mode, meta: Value, arr: seq<Value>, node: seq<Node>)
    | Thread(stack: seq<Value>, top: nat)
    | Proto(cache: Value, consts: seq<Value>)

  datatype Color = White(kind: bool) | Gray | Black

  datatype Phase = Propagate | Atomic | SweepString | Sweep | Pause

  type Heap = map<Ref, Obj>

  type Colors = map<Ref, Color>

  // ---- What an object holds

  predicate NodeHolds(n: Node, r: Ref) {
    n.val != Nil && (n.key == Live(Coll(r)) || n.val == Coll(r))
  }

  /** o holds a pointer to r that a program can follow. */
  predicate Holds(h: Heap, o: Ref, r: Ref)
    requires o in h
  {
    match h[o]
    case Str => false
    case Udata(mt, env) => mt == Coll(r) || env == Coll(r)
    case OpenUp(th, idx) => StackAt(h, th, idx) == Coll(r)
    case ClosedUp(v) => v == Coll(r)
    case Closure(slots) => Coll(r) in slots
    case Table(_, meta, arr, node) =>
      meta == Coll(r) || Coll(r) in arr || exists i :: 0 <= i < |node| && NodeHolds(node[i], r)
    case Thread(stack, _) => Coll(r) in stack
    case Proto(cache, consts) => cache == Coll(r) || Coll(r) in consts
  }

  /** The value an open upvalue stands for: a slot of some thread's stack. */
  function StackAt(h: Heap, th: Ref, idx: nat): Value {
    if th in h && h[th].Thread? && idx < |h[th].stack| then h[th].stack[idx] else Nil
  }

  /** o keeps r alive on its own: weak references, the cache of a prototype and dead stack slots do not. */
  ghost predicate StrongHolds(h: Heap, o: Ref, r: Ref)
    requires o in h
  {
    match h[o]
    case Table(mode, meta, arr, node) =>
      || meta == Coll(r)
      || (mode.Strong? && Holds(h, o, r))
      || (mode.EphemeronKeys? && Coll(r) in arr)
      || (mode.WeakValues? && exists i :: 0 <= i < |node| && node[i].val != Nil && node[i].key == Live(Coll(r)))
    case Thread(stack, top) => top <= |stack| && Coll(r) in stack[..top]
    case Proto(_, consts) => Coll(r) in consts
    case _ => Holds(h, o, r)
  }

  /** In a table with weak keys, the value of an entry is kept alive by its key. */
  predicate EphemeronEntry(h: Heap, o: Ref, i: nat)
    requires o in h
  {
    h[o].Table? && h[o].mode.EphemeronKeys? && i < |h[o].node| &&
    h[o].node[i].val.Coll? && h[o].node[i].key.Live?
  }

  // ---- Well-formed heaps

  /** An entry with a value has a key that is not dead. */
  ghost predicate NodesOk(node: seq<Node>) {
    forall i :: 0 <= i < |node| && node[i].val != Nil ==> node[i].key.Live?
  }

  ghost predicate HeapShape(h: Heap) {
    && (forall o {:trigger h[o].OpenUp?} :: o in h && h[o].OpenUp? ==>
          h[o].th in h && h[h[o].th].Thread? && h[o].idx < |h[h[o].th].stack|)
    && (forall o {:trigger h[o].Thread?} :: o in h && h[o].Thread? ==> h[o].top <= |h[o].stack|)
    && (forall o {:trigger h[o].Table?} :: o in h && h[o].Table? ==> NodesOk(h[o].node))
  }

  /** Every pointer leads to an allocated object. */
  ghost predicate HeapOk(h: Heap) {
    && HeapShape(h)
    && (forall o, r {:trigger Holds(h, o, r)} :: o in h && Holds(h, o, r) ==> r in h)
  }

  predicate IsStr(h: Heap, r: Ref) { r in h && h[r].Str? }

  predicate Listable(o: Obj) { o.Closure? || o.Table? || o.Thread? || o.Proto? }

  // ---- Marked objects

  ghost predicate Marked(m: Colors, r: Ref) { r in m && !m[r].White? }

  ghost predicate ValMarked(m: Colors, v: Value) { v.Coll? ==> Marked(m, v.ref) }

  ghost predicate AllMarked(m: Colors, vs: seq<Value>) {
    forall i :: 0 <= i < |vs| ==> ValMarked(m, vs[i])
  }

  ghost predicate AllHeldMarked(h: Heap, m: Colors, o: Ref)
    requires o in h
  {
    forall r {:trigger Holds(h, o, r)} {:trigger Marked(m, r)} :: Holds(h, o, r) ==> Marked(m, r)
  }

  ghost predicate Grows(m: Colors, m2: Colors) {
    forall r {:trigger Marked(m2, r)} {:trigger Marked(m, r)} :: Marked(m, r) ==> Marked(m2, r)
  }

  /** White objects keep their white. */
  ghost predicate Kept(m: Colors, m2: Colors) {
    forall o {:trigger m2[o].White?} :: o in m2 && m2[o].White? ==> o in m && m[o] == m2[o]
  }

  // ---- Closed sets: what marking may reach

  /** T contains what its members keep alive, with the rule for ephemeron entries. */
  ghost predicate Closed(h: Heap, T: set<Ref>) {
    && (forall o, r {:trigger StrongHolds(h, o, r)} :: o in T && o in h && StrongHolds(h, o, r) ==> r in T)
    && (forall o, i: nat {:trigger EphemeronEntry(h, o, i)} ::
          o in T && o in h && EphemeronEntry(h, o, i) && KeyIn(h, h[o].node[i].key.v, T) ==> h[o].node[i].val.ref in T)
  }

  /** The same, but the tables of X, which are not visited again, may hold anything. */
  ghost predicate ClosedBut(h: Heap, T: set<Ref>, X: set<Ref>) {
    && (forall o, r {:trigger StrongHolds(h, o, r)} ::
        o in T && o in h && !(h[o].Table? && o in X) && StrongHolds(h, o, r) ==> r in T)
    && (forall o, i: nat {:trigger EphemeronEntry(h, o, i)} ::
          o in T && o in h && o !in X && EphemeronEntry(h, o, i) && KeyIn(h, h[o].node[i].key.v, T) ==>
              h[o].node[i].val.ref in T)
  }

  lemma ClosedImplies(h: Heap, T: set<Ref>, X: set<Ref>)
    requires Closed(h, T)
    ensures ClosedBut(h, T, X)
  {
  }

  /** The key of an ephemeron entry counts as reached: not collectable, a string, or in T. */
  predicate KeyIn(h: Heap, k: Value, T: set<Ref>) {
    k.Coll? ==> k.ref in T || IsStr(h, k.ref)
  }

  ghost predicate Within(h: Heap, m: Colors, T: set<Ref>) {
    forall r {:trigger Marked(m, r)} :: Marked(m, r) ==> r in T || IsStr(h, r)
  }

  // ---- Marking progress

  ghost predicate NewGray(h: Heap, m: Colors, m2: Colors, o: Ref) {
    o in h && o in m && o in m2 && m[o].White? && m2[o].Gray? && !h[o].OpenUp?
  }

  /**
   * How an object that was white may have been marked: a listable object is gray, an open upvalue is gray with its
   * value marked, and any other is black with all it holds marked.
   */
  ghost predicate FreshlyMarked(h: Heap, m2: Colors, o: Ref)
    requires o in h && o in m2
  {
    && (m2[o].Gray? ==> Listable(h[o]) || (h[o].OpenUp? && AllHeldMarked(h, m2, o)))
    && (m2[o].Black? ==> !Listable(h[o]) && !h[o].OpenUp? && AllHeldMarked(h, m2, o))
  }

  /** From colours m and gray list g to m2 and g2 by marking objects of T and strings: marked objects keep their colour,
      and the gray list gained exactly the newly gray objects. */
  ghost predicate Marks(h: Heap, m: Colors, g: seq<Ref>, m2: Colors, g2: seq<Ref>, T: set<Ref>) {
    && h.Keys == m.Keys == m2.Keys
    && (forall o {:trigger m2[o]} {:trigger m[o]} :: o in m && (!m[o].White? || m2[o].White?) ==> m2[o] == m[o])
    && (forall o: Ref :: multiset(g2)[o] == multiset(g)[o] + if NewGray(h, m, m2, o) then 1 else 0)
    && (forall o {:trigger m2[o]} {:trigger m[o]} :: o in m && m[o].White? && !m2[o].White? ==>
          (o in T || h[o].Str?) && FreshlyMarked(h, m2, o))
  }

  lemma MarksRefl(h: Heap, m: Colors, g: seq<Ref>, T: set<Ref>)
    requires h.Keys == m.Keys
    ensures Marks(h, m, g, m, g, T)
  {
  }

  lemma MarksTrans(h: Heap, m: Colors, g: seq<Ref>, m1: Colors, g1: seq<Ref>, m2: Colors, g2: seq<Ref>, T: set<Ref>)
    requires Marks(h, m, g, m1, g1, T) && Marks(h, m1, g1, m2, g2, T)
    ensures Marks(h, m, g, m2, g2, T)
    ensures Grows(m, m1) && Grows(m1, m2) && Grows(m, m2)
  {
    forall o | o in m && m[o].White? && !m2[o].White?
      ensures (o in T || h[o].Str?) && FreshlyMarked(h, m2, o)
    {
      if !m1[o].White? {
        assert m2[o] == m1[o];
        assert FreshlyMarked(h, m1, o);
      }
    }
  }

  lemma MarksHeld(h: Heap, m: Colors, g: seq<Ref>, m2: Colors, g2: seq<Ref>, T: set<Ref>, o: Ref)
    requires Marks(h, m, g, m2, g2, T) && o in h && AllHeldMarked(h, m, o)
    ensures AllHeldMarked(h, m2, o)
  {
    forall r | Holds(h, o, r) ensures Marked(m2, r) { assert Marked(m, r); }
  }

  lemma MarksWithin(h: Heap, m: Colors, g: seq<Ref>, m2: Colors, g2: seq<Ref>, T: set<Ref>)
    requires Marks(h, m, g, m2, g2, T) && Within(h, m, T)
    ensures Within(h, m2, T)
  {
    forall r | Marked(m2, r) ensures r in T || IsStr(h, r) {
      if m[r].White? { assert r in T || h[r].Str?; } else { assert Marked(m, r); assert r in T || IsStr(h, r); }
    }
  }

  // ---- Marking of strings only: what iscleared does

  ghost predicate Quiet(h: Heap, m: Colors, m2: Colors) {
    && h.Keys == m.Keys == m2.Keys
    && (forall o {:trigger m2[o]} {:trigger m[o]} ::
        o in m ==> m2[o] == m[o] || (h[o].Str? && m[o].White? && m2[o].Black?))
  }

  lemma QuietMarks(h: Heap, m: Colors, m2: Colors, g: seq<Ref>, T: set<Ref>)
    requires Quiet(h, m, m2)
    ensures Marks(h, m, g, m2, g, T)
  {
  }

  lemma QuietTrans(h: Heap, m: Colors, m1: Colors, m2: Colors)
    requires Quiet(h, m, m1) && Quiet(h, m1, m2)
    ensures Quiet(h, m, m2)
  {
  }

  // ---- The white set as a termination measure

  ghost function Whites(m: Colors): set<Ref> {
    set o | o in m && m[o].White?
  }

  lemma SubsetSize<A>(a: set<A>, b: set<A>)
    requires a <= b
    ensures |a| <= |b|
    ensures a < b ==> |a| < |b|
  {
    assert b == a + (b - a);
    if a < b { var x :| x in b && x !in a; assert x in b - a; }
  }

  lemma MarksWhites(h: Heap, m: Colors, g: seq<Ref>, m2: Colors, g2: seq<Ref>, T: set<Ref>)
    requires Marks(h, m, g, m2, g2, T)
    ensures Whites(m2) <= Whites(m) && |Whites(m2)| <= |Whites(m)|
    ensures Grows(m, m2) && Kept(m, m2)
    ensures Whites(m2) == Whites(m) ==> m2 == m && multiset(g2) == multiset(g)
  {
    SubsetSize(Whites(m2), Whites(m));
    if Whites(m2) == Whites(m) {
      forall o | o in m ensures m2[o] == m[o] { assert o in Whites(m2) <==> o in Whites(m); }
    }
  }

  // ---- How far the traversal of a table has come

  /** An entry whose key and value are marked, or that is empty. */
  ghost predicate EntryMarked(m: Colors, n: Node) {
    n.val != Nil ==> ValMarked(m, n.key.v) && ValMarked(m, n.val)
  }

  ghost predicate KeyMarked(m: Colors, n: Node) {
    n.val != Nil ==> ValMarked(m, n.key.v)
  }

  ghost predicate ValueMarked(m: Colors, n: Node) { ValMarked(m, n.val) }

  /** The key of an entry would be cleared: an unmarked object that is not a string. */
  ghost predicate KeyCleared(h: Heap, m: Colors, k: Value) {
    k.Coll? && !IsStr(h, k.ref) && !Marked(m, k.ref)
  }

  /** An ephemeron entry that asks for no more marking. */
  ghost predicate Settled(h: Heap, m: Colors, n: Node) {
    n.val != Nil ==> KeyCleared(h, m, n.key.v) || (ValMarked(m, n.key.v) && ValMarked(m, n.val))
  }

  lemma TableMarked(h: Heap, m: Colors, o: Ref)
    requires o in h && h[o].Table? && NodesOk(h[o].node)
    requires ValMarked(m, h[o].meta) && AllMarked(m, h[o].arr)
    requires forall j :: 0 <= j < |h[o].node| ==> EntryMarked(m, h[o].node[j])
    ensures AllHeldMarked(h, m, o)
  {
    var arr, node := h[o].arr, h[o].node;
    forall r | Holds(h, o, r) ensures Marked(m, r) {
      if Coll(r) in arr {
        var i :| 0 <= i < |arr| && arr[i] == Coll(r);
        assert ValMarked(m, arr[i]);
      } else if h[o].meta != Coll(r) {
        var i :| 0 <= i < |node| && NodeHolds(node[i], r);
        assert EntryMarked(m, node[i]);
      }
    }
  }

  // ---- What holds of the members of the secondary gray lists when they are linked

  ghost predicate MetaDone(h: Heap, m: Colors, o: Ref) {
    o in h && h[o].Table? && ValMarked(m, h[o].meta)
  }

  ghost predicate WeakDone(h: Heap, m: Colors, o: Ref) {
    o in h && h[o].Table? && forall i :: 0 <= i < |h[o].node| ==> KeyMarked(m, h[o].node[i])
  }

  /** What the weak list stands for. */
  ghost predicate WeakListed(h: Heap, m: Colors, o: Ref) {
    MetaDone(h, m, o) && WeakDone(h, m, o) && h[o].mode.WeakValues?
  }

  ghost predicate EphDone(h: Heap, m: Colors, o: Ref) {
    MetaDone(h, m, o) && h[o].mode.EphemeronKeys? && AllMarked(m, h[o].arr)
  }

  ghost predicate EphSettled(h: Heap, m: Colors, o: Ref) {
    EphDone(h, m, o) && forall i :: 0 <= i < |h[o].node| ==> Settled(h, m, h[o].node[i])
  }

  ghost predicate ValuesMarked(h: Heap, m: Colors, o: Ref) {
    o in h && h[o].Table? && AllMarked(m, h[o].arr) && forall i :: 0 <= i < |h[o].node| ==> ValueMarked(m, h[o].node[i])
  }

  /** A table with weak keys on the allweak list has all its values marked. */
  ghost predicate ValuesDone(h: Heap, m: Colors, o: Ref) {
    MetaDone(h, m, o) && (h[o].mode.AllWeak? || (h[o].mode.EphemeronKeys? && ValuesMarked(h, m, o)))
  }

  // ---- Losing references: dead keys, cleared entries, cleared stack slots and caches

  predicate NodeShrinks(x: Node, y: Node) {
    y.val == Nil || y == x
  }

  predicate NodesShrink(a: seq<Node>, b: seq<Node>) {
    |a| == |b| && forall j :: 0 <= j < |a| ==> NodeShrinks(a[j], b[j])
  }

  predicate ValuesShrink(a: seq<Value>, b: seq<Value>) {
    |a| == |b| && forall i :: 0 <= i < |a| ==> b[i] == a[i] || b[i] == Nil
  }

  /** y is x after some of its references were replaced by nil. */
  ghost predicate ObjShrinks(x: Obj, y: Obj) {
    match x
    case Table(mode, meta, arr, node) =>
      y.Table? && y.mode == mode && y.meta == meta && ValuesShrink(arr, y.arr) && NodesShrink(node, y.node)
    case Thread(stack, top) => y.Thread? && y.top == top && ValuesShrink(stack, y.stack)
    case Proto(cache, consts) => y == x || y == Proto(Nil, consts)
    case _ => y == x
  }

  ghost predicate Shrinks(a: Heap, b: Heap) {
    a.Keys == b.Keys && forall o {:trigger b[o]} {:trigger a[o]} :: o in a ==> ObjShrinks(a[o], b[o])
  }

  lemma ShrinkHolds(a: Heap, b: Heap, o: Ref, r: Ref)
    requires Shrinks(a, b) && o in a
    ensures Holds(b, o, r) ==> Holds(a, o, r)
    ensures StrongHolds(b, o, r) ==> StrongHolds(a, o, r)
  {
    assert ObjShrinks(a[o], b[o]);
    match b[o] {
      case Table(_, _, arr, node) =>
        if Coll(r) in arr { var i :| 0 <= i < |arr| && arr[i] == Coll(r); assert a[o].arr[i] == Coll(r); }
        forall i | 0 <= i < |node| && node[i].val != Nil ensures a[o].node[i] == node[i] {
          assert NodeShrinks(a[o].node[i], node[i]);
        }
        if exists i :: 0 <= i < |node| && NodeHolds(node[i], r) {
          var i :| 0 <= i < |node| && NodeHolds(node[i], r);
          assert NodeHolds(a[o].node[i], r);
        }
      case OpenUp(th, idx) => if th in a { assert ObjShrinks(a[th], b[th]); }
      case Thread(stack, top) =>
        if Coll(r) in stack { var i :| 0 <= i < |stack| && stack[i] == Coll(r); assert a[o].stack[i] == Coll(r); }
        if top <= |stack| && Coll(r) in stack[..top] {
          var i :| 0 <= i < top && stack[i] == Coll(r);
          assert a[o].stack[..top][i] == Coll(r);
        }
      case _ =>
    }
  }

  lemma ShrinksTrans(a: Heap, b: Heap, c: Heap)
    requires Shrinks(a, b) && Shrinks(b, c)
    ensures Shrinks(a, c)
  {
    forall o | o in a ensures ObjShrinks(a[o], c[o]) {
      assert ObjShrinks(a[o], b[o]) && ObjShrinks(b[o], c[o]);
    }
  }

  lemma ShrinkKinds(a: Heap, b: Heap, o: Ref)
    requires Shrinks(a, b) && o in a
    ensures b[o].Str? == a[o].Str? && b[o].OpenUp? == a[o].OpenUp? && b[o].Thread? == a[o].Thread?
        && b[o].Table? == a[o].Table?
    ensures Listable(b[o]) == Listable(a[o])
    ensures b[o].Table? ==> b[o].mode == a[o].mode && b[o].meta == a[o].meta
  {
    assert ObjShrinks(a[o], b[o]);
  }

  lemma ShrinkClosedBut(a: Heap, b: Heap, T: set<Ref>, X: set<Ref>)
    requires Shrinks(a, b) && ClosedBut(a, T, X)
    ensures ClosedBut(b, T, X)
  {
    forall o, r | o in T && o in b && !(b[o].Table? && o in X) && StrongHolds(b, o, r) ensures r in T {
      ShrinkHolds(a, b, o, r);
      ShrinkKinds(a, b, o);
    }
    forall o, i: nat | o in T && o in b && o !in X && EphemeronEntry(b, o, i) && KeyIn(b, b[o].node[i].key.v, T)
      ensures b[o].node[i].val.ref in T
    {
      assert ObjShrinks(a[o], b[o]) && NodeShrinks(a[o].node[i], b[o].node[i]);
      assert EphemeronEntry(a, o, i);
      assert b[o].node[i].key.v.Coll? && b[o].node[i].key.v.ref in b
          ==> ObjShrinks(a[b[o].node[i].key.v.ref], b[b[o].node[i].key.v.ref]);
    }
  }

  lemma ShrinkWithin(a: Heap, b: Heap, m: Colors, T: set<Ref>)
    requires Shrinks(a, b) && Within(a, m, T)
    ensures Within(b, m, T)
  {
    forall r | Marked(m, r) ensures r in T || IsStr(b, r) {
      if r in a { ShrinkKinds(a, b, r); }
    }
  }

  lemma ShrinkHeld(a: Heap, b: Heap, m: Colors, o: Ref)
    requires Shrinks(a, b) && o in a && AllHeldMarked(a, m, o)
    ensures AllHeldMarked(b, m, o)
  {
    forall r | Holds(b, o, r) ensures Marked(m, r) { ShrinkHolds(a, b, o, r); }
  }

  lemma ShrinkHeap(a: Heap, b: Heap)
    requires Shrinks(a, b) && HeapOk(a)
    ensures HeapOk(b)
  {
    forall o, r | o in b && Holds(b, o, r) ensures r in b { ShrinkHolds(a, b, o, r); }
    forall o | o in b && b[o].OpenUp? ensures b[o].th in b && b[b[o].th].Thread? && b[o].idx < |b[b[o].th].stack| {
      assert ObjShrinks(a[o], b[o]);
      assert a[o].OpenUp?;
      assert ObjShrinks(a[a[o].th], b[a[o].th]);
    }
    forall o | o in b && b[o].Table? ensures NodesOk(b[o].node) {
      assert ObjShrinks(a[o], b[o]);
      assert a[o].Table?;
      forall i | 0 <= i < |b[o].node| && b[o].node[i].val != Nil ensures b[o].node[i].key.Live? {
        assert NodeShrinks(a[o].node[i], b[o].node[i]);
      }
    }
  }

  // ---- What marking removes: keys of empty entries, stack slots above the top, caches of prototypes

  predicate NodeTrims(x: Node, y: Node) {
    y == x || (x.val == Nil && y == Node(DeadKey(x.key.v), Nil))
  }

  predicate NodesTrim(a: seq<Node>, b: seq<Node>) {
    |a| == |b| && forall j :: 0 <= j < |a| ==> NodeTrims(a[j], b[j])
  }

  ghost predicate ObjTrims(x: Obj, y: Obj) {
    match x
    case Table(mode, meta, arr, node) =>
      y.Table? && y.mode == mode && y.meta == meta && y.arr == arr && NodesTrim(node, y.node)
    case Thread(stack, top) =>
      y.Thread? && y.top == top && ValuesShrink(stack, y.stack) && forall i ::
          0 <= i < top && i < |stack| ==> y.stack[i] == stack[i]
    case Proto(cache, consts) => y == x || y == Proto(Nil, consts)
    case _ => y == x
  }

  /** Nothing that keeps an object alive is removed, and no entry of a table that has a value. */
  ghost predicate Trims(a: Heap, b: Heap) {
    a.Keys == b.Keys && forall o {:trigger b[o]} {:trigger a[o]} :: o in a ==> ObjTrims(a[o], b[o])
  }

  lemma TrimShrinks(a: Heap, b: Heap)
    requires Trims(a, b)
    ensures Shrinks(a, b)
  {
    forall o | o in a ensures ObjShrinks(a[o], b[o]) { assert ObjTrims(a[o], b[o]); }
  }

  lemma TrimsRefl(a: Heap)
    ensures Trims(a, a) && Shrinks(a, a)
  {
  }

  lemma TrimsTrans(a: Heap, b: Heap, c: Heap)
    requires Trims(a, b) && Trims(b, c)
    ensures Trims(a, c)
  {
    forall o | o in a ensures ObjTrims(a[o], c[o]) {
      assert ObjTrims(a[o], b[o]) && ObjTrims(b[o], c[o]);
    }
  }

  lemma TrimsAt(a: Heap, b: Heap, o: Ref)
    requires o in a && o in b && b == a[o := b[o]] && ObjTrims(a[o], b[o])
    ensures Trims(a, b) && Shrinks(a, b)
  {
    TrimShrinks(a, b);
  }

  /** Open upvalues refer to live stack slots. */
  ghost predicate UpsBelowTop(h: Heap) {
    forall o :: o in h && h[o].OpenUp? ==>
        h[o].th in h && h[h[o].th].Thread? && h[o].idx < h[h[o].th].top <= |h[h[o].th].stack|
  }

  lemma TrimsHold(a: Heap, b: Heap, o: Ref, r: Ref)
    requires Trims(a, b) && o in a && UpsBelowTop(a)
    ensures StrongHolds(a, o, r) ==> StrongHolds(b, o, r)
  {
    assert ObjTrims(a[o], b[o]);
    match a[o] {
      case Table(mode, _, arr, node) =>
        forall i | 0 <= i < |node| && node[i].val != Nil ensures b[o].node[i] == node[i] {
          assert NodeTrims(node[i], b[o].node[i]);
        }
        if exists i :: 0 <= i < |node| && NodeHolds(node[i], r) {
          var i :| 0 <= i < |node| && NodeHolds(node[i], r);
          assert NodeHolds(b[o].node[i], r);
        }
        if exists i :: 0 <= i < |node| && node[i].val != Nil && node[i].key == Live(Coll(r)) {
          var i :| 0 <= i < |node| && node[i].val != Nil && node[i].key == Live(Coll(r));
          assert b[o].node[i].val != Nil && b[o].node[i].key == Live(Coll(r));
        }
      case OpenUp(th, idx) => assert ObjTrims(a[th], b[th]);
      case Thread(stack, top) =>
        if top <= |stack| && Coll(r) in stack[..top] {
          var i :| 0 <= i < top && stack[i] == Coll(r);
          assert b[o].stack[..top][i] == Coll(r);
        }
      case _ =>
    }
  }

  /** A set that is closed after marking was closed before. */
  lemma TrimsClosed(a: Heap, b: Heap, S: set<Ref>)
    requires Trims(a, b) && UpsBelowTop(a) && Closed(b, S)
    ensures Closed(a, S)
  {
    forall o, r | o in S && o in a && StrongHolds(a, o, r) ensures r in S { TrimsHold(a, b, o, r); }
    forall o, i: nat | o in S && o in a && EphemeronEntry(a, o, i) && KeyIn(a, a[o].node[i].key.v, S)
      ensures a[o].node[i].val.ref in S
    {
      assert ObjTrims(a[o], b[o]) && NodeTrims(a[o].node[i], b[o].node[i]);
      assert EphemeronEntry(b, o, i);
      var k := a[o].node[i].key.v;
      if k.Coll? && k.ref in a { assert ObjTrims(a[k.ref], b[k.ref]); }
    }
  }

  /** Writing back a table whose empty entries lost their keys. */
  lemma NodesWritten(a: Heap, b: Heap, o: Ref, node: seq<Node>)
    requires o in a && a[o].Table? && NodesTrim(a[o].node, node) && HeapOk(a)
    requires b == a[o := a[o].(node := node)]
    ensures Trims(a, b) && Shrinks(a, b) && HeapOk(b) && NodesOk(node)
  {
    TrimShrinks(a, b);
    ShrinkHeap(a, b);
    assert b[o].Table?;
  }

  // ---- What clearing removes: entries and array slots with an unmarked object

  /** y is x without some values that m does not mark. */
  ghost predicate ValuesCleared(h: Heap, m: Colors, x: seq<Value>, y: seq<Value>) {
    ValuesShrink(x, y) && forall i :: 0 <= i < |x| && y[i] != x[i] ==> KeyCleared(h, m, x[i])
  }

  /** y is x without some entries that have a key or a value that m does not mark. */
  ghost predicate NodesCleared(h: Heap, m: Colors, x: seq<Node>, y: seq<Node>) {
    && NodesShrink(x, y)
    && forall i ::
        0 <= i < |x| && x[i].val != Nil && y[i] != x[i] ==> KeyCleared(h, m, x[i].key.v) || KeyCleared(h, m, x[i].val)
  }

  ghost predicate ObjLoses(h: Heap, m: Colors, x: Obj, y: Obj) {
    && ObjShrinks(x, y)
    && (x.Table? ==> ValuesCleared(h, m, x.arr, y.arr) && NodesCleared(h, m, x.node, y.node))
    && (x.Thread? ==> forall i :: 0 <= i < x.top && i < |x.stack| ==> y.stack[i] == x.stack[i])
  }

  /** Every entry with a value that is lost had a key or a value that m does not mark. */
  ghost predicate Loses(a: Heap, m: Colors, b: Heap) {
    Shrinks(a, b) && forall o {:trigger b[o]} {:trigger a[o]} :: o in a ==> ObjLoses(a, m, a[o], b[o])
  }

  lemma TrimsLose(a: Heap, m: Colors, b: Heap)
    requires Trims(a, b)
    ensures Loses(a, m, b)
  {
    TrimShrinks(a, b);
    forall o | o in a ensures ObjLoses(a, m, a[o], b[o]) {
      assert ObjTrims(a[o], b[o]);
      if a[o].Table? {
        forall i | 0 <= i < |a[o].node| && a[o].node[i].val != Nil ensures b[o].node[i] == a[o].node[i] {
          assert NodeTrims(a[o].node[i], b[o].node[i]);
        }
      }
    }
  }

  lemma KeyClearedBack(a: Heap, m: Colors, a1: Heap, m1: Colors, v: Value)
    requires Shrinks(a, a1) && Grows(m, m1) && KeyCleared(a1, m1, v)
    ensures KeyCleared(a, m, v)
  {
    if v.ref in a { ShrinkKinds(a, a1, v.ref); }
  }

  lemma LosesTrans(a: Heap, m: Colors, a1: Heap, m1: Colors, b: Heap)
    requires Loses(a, m, a1) && Grows(m, m1) && Loses(a1, m1, b)
    ensures Loses(a, m, b)
  {
    ShrinksTrans(a, a1, b);
    forall o | o in a ensures ObjLoses(a, m, a[o], b[o]) {
      var x, y, z := a[o], a1[o], b[o];
      assert ObjLoses(a, m, x, y) && ObjLoses(a1, m1, y, z) && ObjShrinks(x, z);
      if x.Table? {
        forall i | 0 <= i < |x.arr| && z.arr[i] != x.arr[i] ensures KeyCleared(a, m, x.arr[i]) {
          if y.arr[i] == x.arr[i] { KeyClearedBack(a, m, a1, m1, y.arr[i]); }
        }
        forall i | 0 <= i < |x.node| && x.node[i].val != Nil && z.node[i] != x.node[i]
          ensures KeyCleared(a, m, x.node[i].key.v) || KeyCleared(a, m, x.node[i].val)
        {
          if y.node[i] == x.node[i] {
            if KeyCleared(a1, m1, y.node[i].key.v) { KeyClearedBack(a, m, a1, m1, y.node[i].key.v); }
            else { KeyClearedBack(a, m, a1, m1, y.node[i].val); }
          }
        }
      }
    }
  }

  lemma SettledShrink(a: Heap, b: Heap, m: Colors, n: Node)
    requires Shrinks(a, b) && Settled(a, m, n)
    ensures Settled(b, m, n)
  {
    if n.val != Nil && n.key.v.Coll? && n.key.v.ref in a { ShrinkKinds(a, b, n.key.v.ref); }
  }

  // ---- The main invariant (lgc.h:14-25)

  /** Objects that need a gray list: every gray object but an open upvalue. */
  ghost predicate NeedsList(h: Heap, m: Colors, o: Ref) {
    o in h && o in m && m[o].Gray? && !h[o].OpenUp?
  }

  /** Each gray object that is not an open upvalue occurs exactly once in L, and L has nothing else. */
  ghost predicate GrayExact(h: Heap, m: Colors, L: multiset<Ref>) {
    forall o: Ref :: L[o] == if NeedsList(h, m, o) then 1 else 0
  }

  /** No black object points to a white one; threads and open upvalues are never black. */
  ghost predicate BlackClosed(h: Heap, m: Colors)
    requires h.Keys == m.Keys
  {
    forall o {:trigger m[o].Black?} ::
        o in h && m[o].Black? ==> AllHeldMarked(h, m, o) && !h[o].Thread? && !h[o].OpenUp?
  }

  /** Gray objects are of the kinds that get traversed, or open upvalues. */
  ghost predicate GrayKinds(h: Heap, m: Colors)
    requires h.Keys == m.Keys
  {
    forall o {:trigger m[o].Gray?} :: o in h && m[o].Gray? ==> h[o].OpenUp? || Listable(h[o])
  }

  /** The main invariant while objects are marked, with L the gray lists together. */
  ghost predicate Tri(h: Heap, m: Colors, L: multiset<Ref>) {
    HeapOk(h) && h.Keys == m.Keys && BlackClosed(h, m) && GrayKinds(h, m) && GrayExact(h, m, L)
  }

  ghost predicate TableList(h: Heap, l: seq<Ref>) {
    forall i :: 0 <= i < |l| ==> l[i] in h && h[l[i]].Table?
  }

  /** The gray lists besides the main one. */
  datatype Lists = Lists(again: seq<Ref>, weak: seq<Ref>, allweak: seq<Ref>, ephemeron: seq<Ref>)

  ghost function Linked(l: Lists): multiset<Ref> {
    multiset(l.again) + multiset(l.weak) + multiset(l.allweak) + multiset(l.ephemeron)
  }

  ghost predicate ListsOk(h: Heap, l: Lists) {
    TableList(h, l.weak) && TableList(h, l.allweak) && TableList(h, l.ephemeron)
  }

  /** Marking keeps the main invariant; R stands for the other lists. */
  lemma MarksTri(h: Heap, m: Colors, g: seq<Ref>, m2: Colors, g2: seq<Ref>, T: set<Ref>, R: multiset<Ref>)
    requires Marks(h, m, g, m2, g2, T) && Tri(h, m, multiset(g) + R)
    ensures Tri(h, m2, multiset(g2) + R)
  {
    forall o | o in h && m2[o].Black?
      ensures AllHeldMarked(h, m2, o) && !h[o].Thread? && !h[o].OpenUp?
    {
      if m[o].White? {
        assert FreshlyMarked(h, m2, o);
      } else {
        assert m[o].Black?;
        MarksHeld(h, m, g, m2, g2, T, o);
      }
    }
    forall o | o in h && m2[o].Gray? ensures h[o].OpenUp? || Listable(h[o]) {
      if m[o].White? { assert FreshlyMarked(h, m2, o); } else { assert m[o].Gray?; }
    }
    forall o: Ref ensures (multiset(g2) + R)[o] == if NeedsList(h, m2, o) then 1 else 0 {
      assert (multiset(g) + R)[o] == if NeedsList(h, m, o) then 1 else 0;
      if o in m && !m[o].White? { assert m2[o] == m[o]; }
    }
  }

  lemma ShrinkTri(a: Heap, b: Heap, m: Colors, L: multiset<Ref>)
    requires Shrinks(a, b) && Tri(a, m, L)
    ensures Tri(b, m, L)
  {
    ShrinkHeap(a, b);
    forall o | o in b && m[o].Black? ensures AllHeldMarked(b, m, o) && !b[o].Thread? && !b[o].OpenUp? {
      ShrinkHeld(a, b, m, o);
      ShrinkKinds(a, b, o);
    }
    forall o | o in b && m[o].Gray? ensures b[o].OpenUp? || Listable(b[o]) { ShrinkKinds(a, b, o); }
    forall o: Ref ensures L[o] == if NeedsList(b, m, o) then 1 else 0 {
      if o in a { ShrinkKinds(a, b, o); }
    }
  }

  lemma ShrinkLists(a: Heap, b: Heap, l: Lists)
    requires Shrinks(a, b) && ListsOk(a, l)
    ensures ListsOk(b, l)
  {
    forall o | o in a ensures a[o].Table? == b[o].Table? { ShrinkKinds(a, b, o); }
  }

  /** The colour of a marked object plays no part in what marking does to others. */
  lemma Recolor(h: Heap, m: Colors, g: seq<Ref>, m2: Colors, g2: seq<Ref>, o: Ref, c: Color, T: set<Ref>)
    requires Marks(h, m, g, m2, g2, T) && o in m && !m[o].White? && !c.White?
    ensures Marks(h, m[o := c], g, m2[o := c], g2, T)
  {
    var a, b := m[o := c], m2[o := c];
    assert Grows(m2, b);
    forall p | p in a && a[p].White? && !b[p].White? ensures (p in T || h[p].Str?) && FreshlyMarked(h, b, p) {
      assert p != o && m[p].White? && !m2[p].White? && FreshlyMarked(h, m2, p);
    }
    forall p: Ref ensures multiset(g2)[p] == multiset(g)[p] + if NewGray(h, a, b, p) then 1 else 0 {
      assert multiset(g2)[p] == multiset(g)[p] + if NewGray(h, m, m2, p) then 1 else 0;
    }
  }

  /** A detached gray object whose references are all marked may turn black. */
  lemma Blacken(h: Heap, m: Colors, o: Ref, L: multiset<Ref>)
    requires Tri(h, m, L + multiset{o}) && o in h && m[o].Gray? && AllHeldMarked(h, m, o) && !h[o].Thread?
        && !h[o].OpenUp?
    ensures Tri(h, m[o := Black], L)
  {
    var m2 := m[o := Black];
    assert Grows(m, m2);
    forall p | p in h && m2[p].Black? ensures AllHeldMarked(h, m2, p) && !h[p].Thread? && !h[p].OpenUp? {
      assert p != o ==> m[p].Black?;
    }
    forall p: Ref ensures L[p] == if NeedsList(h, m2, p) then 1 else 0 {
      assert (L + multiset{o})[p] == if NeedsList(h, m, p) then 1 else 0;
    }
  }

  // ---- How one traversal ends

  /** Where a traversal leaves the object: black, or gray on one of the other lists. */
  datatype Dest = Finished | Again | ToWeak | ToAllweak | ToEphemeron

  function Put(l: Lists, o: Ref, d: Dest): Lists {
    match d
    case Finished => l
    case Again => l.(again := [o] + l.again)
    case ToWeak => l.(weak := [o] + l.weak)
    case ToAllweak => l.(allweak := [o] + l.allweak)
    case ToEphemeron => l.(ephemeron := [o] + l.ephemeron)
  }

  /**
   * What the place an object was left in stands for.  A thread is visited again in the atomic step, where its dead
   * slots are cleared.
   */
  ghost predicate Outcome(h: Heap, m: Colors, o: Ref, d: Dest, atomic: bool) {
    && o in h && o in m && (if d.Finished? then m[o].Black? else m[o].Gray?)
    && match d
       case Finished => AllHeldMarked(h, m, o) && !h[o].Thread? && !h[o].OpenUp?
       case Again => AllHeldMarked(h, m, o) || (!atomic && h[o].Thread?)
       case ToWeak => WeakListed(h, m, o)
       case ToAllweak => ValuesDone(h, m, o)
       case ToEphemeron => EphDone(h, m, o)
  }

  lemma Cons(o: Ref, l: seq<Ref>)
    ensures multiset([o] + l) == multiset{o} + multiset(l)
  {
  }

  lemma OneMore(a: multiset<Ref>, b: multiset<Ref>, c: multiset<Ref>, d: multiset<Ref>, x: multiset<Ref>)
    ensures (x + a) + b + c + d == a + b + c + d + x && a + (x + b) + c + d == a + b + c + d + x
    ensures a + b + (x + c) + d == a + b + c + d + x && a + b + c + (x + d) == a + b + c + d + x
  {
  }

  lemma PutLinked(l: Lists, o: Ref, d: Dest)
    ensures Linked(Put(l, o, d)) == Linked(l) + if d.Finished? then multiset{} else multiset{o}
  {
    Cons(o, l.again);
    Cons(o, l.weak);
    Cons(o, l.allweak);
    Cons(o, l.ephemeron);
    OneMore(multiset(l.again), multiset(l.weak), multiset(l.allweak), multiset(l.ephemeron), multiset{o});
    match d {
      case Finished =>
      case Again =>
      case ToWeak =>
      case ToAllweak =>
      case ToEphemeron =>
    }
  }

  /** The members of the lists have what their list stands for. */
  ghost predicate ListsDone(h: Heap, m: Colors, l: Lists) {
    && (forall i :: 0 <= i < |l.again| ==> l.again[i] in h && AllHeldMarked(h, m, l.again[i]))
    && (forall i :: 0 <= i < |l.weak| ==> WeakListed(h, m, l.weak[i]))
    && (forall i :: 0 <= i < |l.ephemeron| ==> EphDone(h, m, l.ephemeron[i]))
    && OpenDone(h, m)
  }

  /** Marked open upvalues have their values marked. */
  ghost predicate OpenDone(h: Heap, m: Colors) {
    forall o :: o in h && h[o].OpenUp? && Marked(m, o) ==> AllHeldMarked(h, m, o)
  }

  ghost predicate AllweakMeta(h: Heap, m: Colors, aw: seq<Ref>) {
    forall i :: 0 <= i < |aw| ==> MetaDone(h, m, aw[i])
  }

  ghost predicate AllweakValues(h: Heap, m: Colors, aw: seq<Ref>) {
    forall i :: 0 <= i < |aw| ==> ValuesDone(h, m, aw[i])
  }

  /** More marking and fewer references keep what the lists stand for. */
  lemma DoneMono(a: Heap, m: Colors, b: Heap, m2: Colors, o: Ref)
    requires Shrinks(a, b) && Grows(m, m2) && o in a
    ensures AllHeldMarked(a, m, o) ==> AllHeldMarked(b, m2, o)
    ensures MetaDone(a, m, o) ==> MetaDone(b, m2, o)
    ensures WeakDone(a, m, o) ==> WeakDone(b, m2, o)
    ensures WeakListed(a, m, o) ==> WeakListed(b, m2, o)
    ensures EphDone(a, m, o) ==> EphDone(b, m2, o)
    ensures ValuesMarked(a, m, o) ==> ValuesMarked(b, m2, o)
    ensures ValuesDone(a, m, o) ==> ValuesDone(b, m2, o)
  {
    ShrinkKinds(a, b, o);
    assert ObjShrinks(a[o], b[o]);
    assert forall v :: ValMarked(m, v) ==> ValMarked(m2, v);
    if AllHeldMarked(a, m, o) { ShrinkHeld(a, b, m, o); }
    if b[o].Table? {
      forall i | 0 <= i < |b[o].node| ensures KeyMarked(m, a[o].node[i]) ==> KeyMarked(m2, b[o].node[i]) {
        assert NodeShrinks(a[o].node[i], b[o].node[i]);
      }
      forall i | 0 <= i < |b[o].node| ensures ValueMarked(m, a[o].node[i]) ==> ValueMarked(m2, b[o].node[i]) {
        assert NodeShrinks(a[o].node[i], b[o].node[i]);
      }
      assert AllMarked(m, a[o].arr) ==> AllMarked(m2, b[o].arr);
    }
  }

  lemma ListsMono(a: Heap, m: Colors, g: seq<Ref>, b: Heap, m2: Colors, g2: seq<Ref>, T: set<Ref>, l: Lists)
    requires Shrinks(a, b) && Marks(a, m, g, m2, g2, T)
    ensures ListsDone(a, m, l) ==> ListsDone(b, m2, l)
    ensures AllweakMeta(a, m, l.allweak) ==> AllweakMeta(b, m2, l.allweak)
    ensures AllweakValues(a, m, l.allweak) ==> AllweakValues(b, m2, l.allweak)
    ensures OpenDone(a, m) ==> OpenDone(b, m2)
  {
    assert Grows(m, m2);
    forall o | o in a
      ensures AllHeldMarked(a, m, o) ==> AllHeldMarked(b, m2, o)
      ensures WeakListed(a, m, o) ==> WeakListed(b, m2, o)
      ensures MetaDone(a, m, o) ==> MetaDone(b, m2, o)
      ensures EphDone(a, m, o) ==> EphDone(b, m2, o)
      ensures ValuesDone(a, m, o) ==> ValuesDone(b, m2, o)
    {
      DoneMono(a, m, b, m2, o);
    }
    forall o | OpenDone(a, m) && o in b && b[o].OpenUp? && Marked(m2, o) ensures AllHeldMarked(b, m2, o) {
      ShrinkKinds(a, b, o);
      if m[o].White? {
        assert FreshlyMarked(a, m2, o);
        ShrinkHeld(a, b, m2, o);
      } else {
        assert Marked(m, o);
      }
    }
  }

  lemma OutcomeLists(h: Heap, m: Colors, o: Ref, l: Lists, d: Dest, atomic: bool)
    requires Outcome(h, m, o, d, atomic)
    ensures ListsOk(h, l) ==> ListsOk(h, Put(l, o, d))
    ensures atomic && ListsDone(h, m, l) ==> ListsDone(h, m, Put(l, o, d))
    ensures AllweakMeta(h, m, l.allweak) ==> AllweakMeta(h, m, Put(l, o, d).allweak)
    ensures AllweakValues(h, m, l.allweak) ==> AllweakValues(h, m, Put(l, o, d).allweak)
  {
    match d {
      case Finished =>
      case Again =>
      case ToWeak =>
      case ToAllweak =>
      case ToEphemeron =>
    }
  }

  /** One traversal keeps the main invariant: o left the gray list, others were marked, references of o were lost. */
  lemma Traversed(h: Heap, m: Colors, g: seq<Ref>, b: Heap, m2: Colors, g2: seq<Ref>, o: Ref, l: Lists, d: Dest,
                  atomic: bool, T: set<Ref>, pend: multiset<Ref>)
    requires Tri(h, m, multiset(g) + Linked(l) + pend + multiset{o}) && o in h && m[o].Gray? && !h[o].OpenUp?
    requires Marks(h, m, g, m2[o := Gray], g2, T) && Shrinks(h, b)
    requires Outcome(b, m2, o, d, atomic)
    ensures Tri(b, m2, multiset(g2) + Linked(Put(l, o, d)) + pend)
  {
    var mg := m2[o := Gray];
    var R := Linked(l) + pend + multiset{o};
    assert multiset(g) + Linked(l) + pend + multiset{o} == multiset(g) + R;
    TraversedGray(h, m, g, b, mg, g2, T, R);
    assert multiset(g2) + R == multiset(g2) + Linked(l) + pend + multiset{o};
    TraversedEnd(b, m2, g2, o, l, d, atomic, pend);
  }

  lemma TraversedEnd(h: Heap, m: Colors, g: seq<Ref>, o: Ref, l: Lists, d: Dest, atomic: bool, pend: multiset<Ref>)
    requires o in h && Tri(h, m[o := Gray], multiset(g) + Linked(l) + pend + multiset{o})
    requires Outcome(h, m, o, d, atomic) && !h[o].OpenUp?
    ensures Tri(h, m, multiset(g) + Linked(Put(l, o, d)) + pend)
  {
    PutLinked(l, o, d);
    var mg := m[o := Gray];
    if d.Finished? {
      assert Grows(m, mg);
      Blacken(h, mg, o, multiset(g) + Linked(l) + pend);
      assert mg[o := Black] == m;
    } else {
      assert mg == m;
      assert multiset(g) + Linked(Put(l, o, d)) + pend == multiset(g) + Linked(l) + pend + multiset{o};
    }
  }

  lemma TraversedGray(h: Heap, m: Colors, g: seq<Ref>, b: Heap, m2: Colors, g2: seq<Ref>, T: set<Ref>, R: multiset<Ref>)
    requires Tri(h, m, multiset(g) + R) && Marks(h, m, g, m2, g2, T) && Shrinks(h, b)
    ensures Tri(b, m2, multiset(g2) + R)
  {
    MarksTri(h, m, g, m2, g2, T, R);
    ShrinkTri(h, b, m2, multiset(g2) + R);
  }

  // ---- The end of the atomic step

  predicate Suffix(a: seq<Ref>, b: seq<Ref>) {
    |a| <= |b| && b[|b| - |a|..] == a
  }

  lemma SuffixTrans(a: seq<Ref>, b: seq<Ref>, c: seq<Ref>)
    requires Suffix(a, b) && Suffix(b, c)
    ensures Suffix(a, c)
  {
    assert c[|c| - |a|..] == c[|c| - |b|..][|b| - |a|..];
  }

  /** A settled entry stays settled while only strings are marked and references are lost. */
  lemma SettledMono(a: Heap, m: Colors, b: Heap, m2: Colors, o: Ref)
    requires Shrinks(a, b) && Quiet(a, m, m2) && EphSettled(a, m, o)
    ensures EphSettled(b, m2, o)
  {
    QuietMarks(a, m, m2, [], {});
    assert Grows(m, m2);
    DoneMono(a, m, b, m2, o);
    assert ObjShrinks(a[o], b[o]);
    forall i | 0 <= i < |b[o].node| ensures Settled(b, m2, b[o].node[i]) {
      var n := b[o].node[i];
      assert NodeShrinks(a[o].node[i], n);
      if n.val != Nil {
        assert Settled(a, m, n);
        if n.key.v.Coll? && n.key.v.ref in a { ShrinkKinds(a, b, n.key.v.ref); }
      }
    }
  }

  lemma WeakTableClosed(h: Heap, m: Colors, o: Ref)
    requires o in h && h[o].Table? && NodesOk(h[o].node) && MetaDone(h, m, o) && ValuesMarked(h, m, o)
        && WeakDone(h, m, o)
    ensures AllHeldMarked(h, m, o)
  {
    forall j | 0 <= j < |h[o].node| ensures EntryMarked(m, h[o].node[j]) {
      assert KeyMarked(m, h[o].node[j]) && ValueMarked(m, h[o].node[j]);
    }
    TableMarked(h, m, o);
  }

  /** A settled ephemeron table without unmarked keys holds marked objects only. */
  lemma EphemeronClosed(h: Heap, m: Colors, o: Ref)
    requires o in h && h[o].Table? && NodesOk(h[o].node) && EphSettled(h, m, o) && WeakDone(h, m, o)
    ensures AllHeldMarked(h, m, o)
  {
    forall j | 0 <= j < |h[o].node| ensures EntryMarked(m, h[o].node[j]) {
      assert KeyMarked(m, h[o].node[j]) && Settled(h, m, h[o].node[j]);
    }
    TableMarked(h, m, o);
  }

  /** Clearing weak tables: references are lost, and strings are marked. */
  ghost predicate Clears(a: Heap, m: Colors, b: Heap, m2: Colors) {
    Loses(a, m, b) && Quiet(a, m, m2)
  }

  lemma ClearsTrans(a: Heap, m: Colors, a1: Heap, m1: Colors, b: Heap, m2: Colors)
    requires Clears(a, m, a1, m1) && Clears(a1, m1, b, m2)
    ensures Clears(a, m, b, m2)
  {
    QuietMarks(a, m, m1, [], {});
    assert Grows(m, m1);
    LosesTrans(a, m, a1, m1, b);
    forall o | o in m ensures m2[o] == m[o] || (a[o].Str? && m[o].White? && m2[o].Black?) {
      ShrinkKinds(a, a1, o);
    }
  }

  lemma ClearsDone(a: Heap, m: Colors, b: Heap, m2: Colors, l: seq<Ref>)
    requires Clears(a, m, b, m2)
    ensures AllValuesMarked(a, m, l) ==> AllValuesMarked(b, m2, l)
    ensures AllKeysMarked(a, m, l) ==> AllKeysMarked(b, m2, l)
    ensures TableList(a, l) ==> TableList(b, l)
  {
    QuietMarks(a, m, m2, [], {});
    assert Grows(m, m2);
    forall o | o in a
      ensures a[o].Table? ==> b[o].Table?
      ensures ValuesMarked(a, m, o) ==> ValuesMarked(b, m2, o)
      ensures WeakDone(a, m, o) ==> WeakDone(b, m2, o)
    {
      DoneMono(a, m, b, m2, o);
      ShrinkKinds(a, b, o);
    }
  }

  ghost predicate AllValuesMarked(h: Heap, m: Colors, l: seq<Ref>) {
    forall i :: 0 <= i < |l| ==> ValuesMarked(h, m, l[i])
  }

  ghost predicate AllKeysMarked(h: Heap, m: Colors, l: seq<Ref>) {
    forall i :: 0 <= i < |l| ==> WeakDone(h, m, l[i])
  }
}
