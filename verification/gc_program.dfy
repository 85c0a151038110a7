/** A program whose registers are the stack of the running thread, in any interleaving with collector steps. */
module GcProgram {
  import opened GcState
  import opened GcPhases
  import opened GcCollector
  import opened GcMutator

  // ---- Writes to stacks, which need no barrier

  lemma StackStored(h: Heap, th: Ref, stack: seq<Value>, top: nat, vs: set<Value>)
    requires HeapShape(h) && th in h && h[th].Thread? && |stack| == |h[th].stack| && top <= |stack|
    requires forall i :: 0 <= i < |stack| ==> stack[i] == h[th].stack[i] || stack[i] in vs
    ensures Stored(h, h[th := Thread(stack, top)], th, vs)
  {
    var h2 := h[th := Thread(stack, top)];
    forall o, r | o in h && Holds(h2, o, r) ensures Holds(h, o, r) || (Coll(r) in vs && (o == th || h[o].OpenUp?)) {
      if o == th {
        var i :| 0 <= i < |stack| && stack[i] == Coll(r);
        assert stack[i] == h[th].stack[i] ==> Coll(r) in h[th].stack;
      } else if h[o].OpenUp? && h[o].th == th {
        assert stack[h[o].idx] == Coll(r);
      } else {
        assert h2[o] == h[o];
      }
    }
  }

  lemma StackMayStore(s: Snapshot, th: Ref, stack: seq<Value>, top: nat, vs: set<Value>)
    requires InvS(s) && th in s.obj && s.obj[th].Thread? && |stack| == |s.obj[th].stack| && top <= |stack|
    requires forall i :: 0 <= i < |stack| ==> stack[i] == s.obj[th].stack[i] || stack[i] in vs
    requires forall v :: v in vs ==> AliveS(s, v)
    ensures MayStore(s, th, Thread(stack, top), vs)
  {
    InvKeys(s);
    StackStored(s.obj, th, stack, top, vs);
    if s.phase.Propagate? { NoBlackThread(s, th); }
  }

  lemma NoBlackThread(s: Snapshot, th: Ref)
    requires InvS(s) && s.phase.Propagate? && th in s.obj && s.obj[th].Thread?
    ensures th in s.mark && !s.mark[th].Black?
  {
  }

  /** The registers: the stack of the running thread. */
  function Regs(g: Collector): (r: seq<Value>)
    reads g
  {
    if g.running in g.obj && g.obj[g.running].Thread? then g.obj[g.running].stack else []
  }

  lemma RegAlive(g: Collector, i: nat)
    requires g.Inv() && i < |Regs(g)|
    ensures AliveS(Snap(g), Regs(g)[i])
  {
    SnapInv(g);
    SlotAlive(Snap(g), i);
  }

  lemma SlotAlive(s: Snapshot, i: nat)
    requires InvS(s) && i < |s.obj[s.rs.running].stack|
    ensures AliveS(s, s.obj[s.rs.running].stack[i])
  {
    var v := s.obj[s.rs.running].stack[i];
    assert IsRoot(s.rs, s.rs.running);
    if v.Coll? { assert Holds(s.obj, s.rs.running, v.ref); }
  }

  lemma RunningThread(g: Collector)
    requires g.Inv()
    ensures g.running in g.obj && g.obj[g.running].Thread? && Regs(g) == g.obj[g.running].stack
        && g.obj[g.running].top <= |Regs(g)|
    ensures g.obj.Keys == g.mark.Keys
  {
    SnapInv(g);
    InvKeys(Snap(g));
  }

  lemma PrimAlive(s: Snapshot, v: Value)
    requires !v.Coll?
    ensures AliveS(s, v)
  {
  }

  /** Register i gets v, a value that is not dead. */
  method SetReg(g: Collector, i: nat, v: Value)
    requires g.Inv() && i < |Regs(g)| && AliveS(Snap(g), v)
    modifies g`obj
    ensures g.Inv() && g.obj == old(g.obj)[g.running := Thread(old(Regs(g))[i := v], old(g.obj)[g.running].top)]
  {
    hide *;
    RunningThread(g);
    SnapInv(g);
    var stack, top := g.obj[g.running].stack, g.obj[g.running].top;
    StackMayStore(Snap(g), g.running, stack[i := v], top, {v});
    Store(g, g.running, Thread(stack[i := v], top), {v});
  }

  // ---- Reads

  /** The value r held by an object o that is not dead. */
  lemma HeldAlive(s: Snapshot, o: Ref, r: Ref)
    requires InvS(s) && AliveS(s, Coll(o)) && o in s.obj && Holds(s.obj, o, r)
    ensures AliveS(s, Coll(r)) && r in s.obj
  {
  }

  /**
   * Register dst gets an object that the object in register src holds: any table access, upvalue, metatable, stack
   * slot.
   */
  method Follow(g: Collector, dst: nat, src: nat, r: Ref)
    requires g.Inv()
    modifies g`obj
    ensures g.Inv()
    ensures var regs := old(Regs(g));
      if dst < |regs| && src < |regs| && regs[src].Coll? && regs[src].ref in old(g.obj)
          && Holds(old(g.obj), regs[src].ref, r)
      then g.obj == old(g.obj)[g.running := Thread(regs[dst := Coll(r)], old(g.obj)[g.running].top)]
      else g.obj == old(g.obj)
  {
    hide *;
    RunningThread(g);
    var regs := g.obj[g.running].stack;
    if dst < |regs| && src < |regs| && regs[src].Coll? && regs[src].ref in g.obj && Holds(g.obj, regs[src].ref, r) {
      RegAlive(g, src);
      SnapInv(g);
      HeldAlive(Snap(g), regs[src].ref, r);
      SetReg(g, dst, Coll(r));
    }
  }

  // ---- Writes to objects with a forward barrier

  datatype Field = MetaField | EnvField | UpvalueField | SlotField(i: nat)

  predicate HasField(x: Obj, f: Field) {
    match f
    case MetaField => x.Udata?
    case EnvField => x.Udata?
    case UpvalueField => x.ClosedUp?
    case SlotField(i) => (x.Closure? && i < |x.slots|) || (x.Proto? && i < |x.consts|)
  }

  function WithField(x: Obj, f: Field, v: Value): (y: Obj)
    requires HasField(x, f)
  {
    match f
    case MetaField => Udata(v, x.env)
    case EnvField => Udata(x.metatable, v)
    case UpvalueField => ClosedUp(v)
    case SlotField(i) => if x.Closure? then Closure(x.slots[i := v]) else Proto(x.cache, x.consts[i := v])
  }

  /** An object other than a thread or an upvalue gets new contents, with nothing new in them but vs. */
  lemma PlainStored(h: Heap, o: Ref, x: Obj, vs: set<Value>)
    requires HeapShape(h) && o in h && SameKind(h[o], x) && !x.OpenUp? && !x.Thread? && (x.Table? ==> NodesOk(x.node))
    requires forall r :: Holds(h[o := x], o, r) ==> Holds(h, o, r) || Coll(r) in vs
    ensures Stored(h, h[o := x], o, vs)
  {
    var h2 := h[o := x];
    forall p, r | p in h && Holds(h2, p, r) ensures Holds(h, p, r) || (Coll(r) in vs && p == o) {
      if p != o { assert h2[p] == h[p]; }
    }
  }

  lemma FieldStored(h: Heap, o: Ref, f: Field, v: Value)
    requires HeapShape(h) && o in h && HasField(h[o], f)
    ensures Stored(h, h[o := WithField(h[o], f, v)], o, {v})
  {
    var x := WithField(h[o], f, v);
    forall r | Holds(h[o := x], o, r) ensures Holds(h, o, r) || Coll(r) in {v} {
      if f.SlotField? {
        var old_, new_ := if x.Closure? then h[o].slots else h[o].consts, if x.Closure? then x.slots else x.consts;
        if Coll(r) in new_ {
          var i :| 0 <= i < |new_| && new_[i] == Coll(r);
          assert i == f.i || old_[i] == Coll(r);
        }
      }
    }
    PlainStored(h, o, x, {v});
  }

  lemma FieldMayStore(s: Snapshot, o: Ref, f: Field, v: Value)
    requires InvS(s) && o in s.obj && HasField(s.obj[o], f) && AliveS(s, v) && o in s.mark
    requires s.phase.Propagate? && s.mark[o].Black? ==> ValMarked(s.mark, v)
    ensures MayStore(s, o, WithField(s.obj[o], f, v), {v})
  {
    InvKeys(s);
    FieldStored(s.obj, o, f, v);
  }

  /**
   * A field of the object in register o gets the value of register v: lua_setmetatable and lua_setuservalue on
   * userdata, SETUPVAL on a closed upvalue, and the slots of closures and prototypes.
   */
  method SetField(g: Collector, o: nat, f: Field, v: nat)
    requires g.Inv()
    modifies g`obj, g`mark, g`gray
    ensures g.Inv()
    ensures var regs := old(Regs(g));
      if o < |regs| && v < |regs| && regs[o].Coll? && regs[o].ref in old(g.obj) && HasField(old(g.obj)[regs[o].ref], f)
      then g.obj == old(g.obj)[regs[o].ref := WithField(old(g.obj)[regs[o].ref], f, regs[v])]
        && (regs[v].Coll? ==> Holds(g.obj, regs[o].ref, regs[v].ref))
      else g.obj == old(g.obj)
  {
    hide *;
    RunningThread(g);
    var regs := g.obj[g.running].stack;
    if o < |regs| && v < |regs| && regs[o].Coll? && regs[o].ref in g.obj && HasField(g.obj[regs[o].ref], f) {
      RegAlive(g, v);
      SnapInv(g);
      InObj(Snap(g), regs[v]);
      var p := regs[o].ref;
      ghost var s := Snap(g);
      Barrier(g, p, regs[v]);
      SnapInv(g);
      InvKeys(Snap(g));
      GrewAlive(s, Snap(g), regs[v]);
      FieldMayStore(Snap(g), p, f, regs[v]);
      FieldHeld(g.obj, p, f, regs[v]);
      Store(g, p, WithField(g.obj[p], f, regs[v]), {regs[v]});
    }
  }

  /** The value that was stored can be followed from the object. */
  lemma FieldHeld(h: Heap, o: Ref, f: Field, v: Value)
    requires o in h && HasField(h[o], f)
    ensures v.Coll? ==> Holds(h[o := WithField(h[o], f, v)], o, v.ref)
  {
    if f.SlotField? && h[o].Closure? {
      assert h[o].slots[f.i := v][f.i] == v;
    } else if f.SlotField? {
      assert h[o].consts[f.i := v][f.i] == v;
    }
  }

  lemma GrewAlive(s: Snapshot, s2: Snapshot, v: Value)
    requires Grew(s, s2) && AliveS(s, v)
    ensures AliveS(s2, v)
  {
  }

  lemma InObj(s: Snapshot, v: Value)
    requires InvS(s) && AliveS(s, v)
    ensures v.Coll? ==> v.ref in s.obj
  {
    InvKeys(s);
  }

  // ---- Writes to tables with the back barrier (ltable.c, lapi.c:lua_setmetatable)

  /** A table with other contents holds nothing new but vs. */
  lemma TableStored(h: Heap, o: Ref, x: Obj, vs: set<Value>)
    requires HeapShape(h) && o in h && h[o].Table? && x.Table? && NodesOk(x.node)
    requires x.meta == h[o].meta || x.meta in vs
    requires forall i :: 0 <= i < |x.arr| && x.arr[i].Coll? ==> x.arr[i] in vs || Holds(h, o, x.arr[i].ref)
    requires forall i :: 0 <= i < |x.node| && x.node[i].val != Nil && x.node[i].val.Coll? ==>
        x.node[i].val in vs || Holds(h, o, x.node[i].val.ref)
    requires forall i :: 0 <= i < |x.node| && x.node[i].val != Nil && x.node[i].key.v.Coll? ==>
        x.node[i].key.v in vs || Holds(h, o, x.node[i].key.v.ref)
    ensures Stored(h, h[o := x], o, vs)
  {
    forall r | Holds(h[o := x], o, r) ensures Holds(h, o, r) || Coll(r) in vs {
      if Coll(r) in x.arr {
        var i :| 0 <= i < |x.arr| && x.arr[i] == Coll(r);
      } else if x.meta != Coll(r) {
        var i :| 0 <= i < |x.node| && NodeHolds(x.node[i], r);
      }
    }
    PlainStored(h, o, x, vs);
  }

  lemma TableMayStore(s: Snapshot, o: Ref, x: Obj, vs: set<Value>)
    requires InvS(s) && o in s.obj && o in s.mark && s.obj[o].Table? && x.Table? && Stored(s.obj, s.obj[o := x], o, vs)
    requires forall v :: v in vs ==> AliveS(s, v)
    requires s.phase.Propagate? && s.mark[o].Black? ==> forall v :: v in vs ==> ValMarked(s.mark, v)
    requires s.phase.Propagate? && o in s.lists.allweak ==> x.meta == s.obj[o].meta || ValMarked(s.mark, x.meta)
    ensures MayStore(s, o, x, vs)
  {
    InvKeys(s);
    if s.phase.Propagate? && o in s.lists.allweak {
      var i :| 0 <= i < |s.lists.allweak| && s.lists.allweak[i] == o;
      assert MetaDone(s.obj, s.mark, s.lists.allweak[i]);
    }
  }

  /** The back barrier for each value of vs, then the store. */
  method WriteTable(g: Collector, o: Ref, x: Obj, v: Value, w: Value)
    requires g.Inv() && o in g.obj && g.obj[o].Table? && x.Table? && Stored(g.obj, g.obj[o := x], o, {v, w})
    requires AliveS(Snap(g), v) && AliveS(Snap(g), w)
    requires g.phase.Propagate? && o in g.allweak ==> x.meta == g.obj[o].meta || ValMarked(g.mark, x.meta)
    modifies g`obj, g`mark, g`grayagain
    ensures g.Inv() && g.obj == old(g.obj)[o := x]
  {
    hide *;
    ghost var s := Snap(g);
    SnapInv(g);
    InvKeys(s);
    TableKind(g.obj[o]);
    BarrierBack(g, o, v);
    ghost var s1 := Snap(g);
    SnapInv(g);
    InvKeys(s1);
    BarrierBack(g, o, w);
    SnapInv(g);
    InvKeys(Snap(g));
    ghost var s2 := Snap(g);
    BackKeeps(s, s1, s2, o, v, w, x.meta);
    TableMayStore(s2, o, x, {v, w});
    Store(g, o, x, {v, w});
  }

  lemma TableKind(x: Obj)
    requires x.Table?
    ensures Listable(x)
  {
  }

  /** Colours after two back barriers on o. */
  lemma BackKeeps(s: Snapshot, s1: Snapshot, s2: Snapshot, o: Ref, v: Value, w: Value, meta: Value)
    requires o in s.mark && s.obj.Keys == s.mark.Keys && AliveS(s, v) && AliveS(s, w)
    requires s1 == Backed(s, o, v) && s2 == Backed(s1, o, w)
    ensures AliveS(s2, v) && AliveS(s2, w)
    ensures o in s2.mark && (s2.mark[o].Black? ==> ValMarked(s2.mark, v) && ValMarked(s2.mark, w))
    ensures ValMarked(s.mark, meta) ==> ValMarked(s2.mark, meta)
    ensures s2.lists.allweak == s.lists.allweak
  {
  }

  /** The table that register t refers to. */
  predicate TableReg(g: Collector, t: nat)
    reads g
  {
    t < |Regs(g)| && Regs(g)[t].Coll? && Regs(g)[t].ref in g.obj && g.obj[Regs(g)[t].ref].Table?
  }

  lemma TableRegIs(g: Collector, t: nat)
    requires TableReg(g, t)
    ensures t < |Regs(g)| && Regs(g)[t].Coll? && Regs(g)[t].ref in g.obj && g.obj[Regs(g)[t].ref].Table?
  {
  }

  lemma ArrayStored(s: Snapshot, o: Ref, i: nat, v: Value)
    requires InvS(s) && o in s.obj && s.obj[o].Table? && i < |s.obj[o].arr|
    ensures var x := s.obj[o].(arr := s.obj[o].arr[i := v]); Stored(s.obj, s.obj[o := x], o, {v, v})
  {
    InvKeys(s);
    var x := s.obj[o].(arr := s.obj[o].arr[i := v]);
    assert s.obj[o].Table?;
    forall j | 0 <= j < |x.arr| && x.arr[j].Coll? ensures x.arr[j] in {v} || Holds(s.obj, o, x.arr[j].ref) {
      if j != i { assert x.arr[j] == s.obj[o].arr[j]; }
    }
    NodesHeld(s.obj, o);
    TableStored(s.obj, o, x, {v, v});
  }

  lemma NodesHeld(h: Heap, o: Ref)
    requires HeapShape(h) && o in h && h[o].Table?
    ensures NodesOk(h[o].node)
    ensures forall i ::
        0 <= i < |h[o].node| && h[o].node[i].val != Nil && h[o].node[i].val.Coll? ==> Holds(h, o, h[o].node[i].val.ref)
    ensures forall i :: 0 <= i < |h[o].node| && h[o].node[i].val != Nil && h[o].node[i].key.v.Coll? ==>
        Holds(h, o, h[o].node[i].key.v.ref)
  {
    assert h[o].Table?;
    forall i | 0 <= i < |h[o].node| && h[o].node[i].val != Nil
      ensures h[o].node[i].val.Coll? ==> Holds(h, o, h[o].node[i].val.ref)
      ensures h[o].node[i].key.v.Coll? ==> Holds(h, o, h[o].node[i].key.v.ref)
    {
      var n := h[o].node[i];
      if n.val.Coll? { assert NodeHolds(h[o].node[i], n.val.ref); }
      if n.key.v.Coll? { assert NodeHolds(h[o].node[i], n.key.v.ref); }
    }
  }

  lemma ArrayHeld(h: Heap, o: Ref, i: nat, v: Value)
    requires o in h && h[o].Table? && i < |h[o].arr|
    ensures v.Coll? ==> Holds(h[o := h[o].(arr := h[o].arr[i := v])], o, v.ref)
  {
    assert h[o].arr[i := v][i] == v;
  }

  lemma NodeHeld(h: Heap, o: Ref, i: nat, k: Value, v: Value)
    requires o in h && h[o].Table? && i < |h[o].node| && v != Nil
    ensures var h2 := h[o := h[o].(node := h[o].node[i := Node(Live(k), v)])];
      (k.Coll? ==> Holds(h2, o, k.ref)) && (v.Coll? ==> Holds(h2, o, v.ref))
  {
    var e := h[o].node[i := Node(Live(k), v)][i];
    if k.Coll? { assert NodeHolds(e, k.ref); }
    if v.Coll? { assert NodeHolds(e, v.ref); }
  }

  /** t[i] = v for an index in the array part. */
  method SetArray(g: Collector, t: nat, i: nat, v: nat)
    requires g.Inv()
    modifies g`obj, g`mark, g`grayagain
    ensures g.Inv()
    ensures if old(TableReg(g, t)) && v < old(|Regs(g)|) && i < |old(g.obj)[old(Regs(g))[t].ref].arr|
            then var o := old(Regs(g))[t].ref; var x := old(g.obj)[o];
              g.obj == old(g.obj)[o := x.(arr := x.arr[i := old(Regs(g))[v]])]
              && (old(Regs(g))[v].Coll? ==> Holds(g.obj, o, old(Regs(g))[v].ref))
            else g.obj == old(g.obj)
  {
    hide *;
    RunningThread(g);
    var regs := Regs(g);
    if TableReg(g, t) && v < |regs| {
      TableRegIs(g, t);
      var o := regs[t].ref;
      var x := g.obj[o];
      if i < |x.arr| {
        RegAlive(g, v);
        SnapInv(g);
        ArrayStored(Snap(g), o, i, regs[v]);
        ArrayHeld(g.obj, o, i, regs[v]);
        WriteTable(g, o, x.(arr := x.arr[i := regs[v]]), regs[v], regs[v]);
      }
    }
  }

  lemma NodeStored(s: Snapshot, o: Ref, i: nat, k: Value, v: Value)
    requires InvS(s) && o in s.obj && s.obj[o].Table? && i < |s.obj[o].node|
    ensures var x := s.obj[o].(node := s.obj[o].node[i := Node(Live(k), v)]); Stored(s.obj, s.obj[o := x], o, {k, v})
  {
    InvKeys(s);
    var x := s.obj[o].(node := s.obj[o].node[i := Node(Live(k), v)]);
    NodesHeld(s.obj, o);
    assert forall j :: 0 <= j < |x.arr| && x.arr[j].Coll? ==> Holds(s.obj, o, x.arr[j].ref);
    forall j | 0 <= j < |x.node| && x.node[j].val != Nil
      ensures x.node[j].val.Coll? ==> x.node[j].val in {k, v} || Holds(s.obj, o, x.node[j].val.ref)
      ensures x.node[j].key.v.Coll? ==> x.node[j].key.v in {k, v} || Holds(s.obj, o, x.node[j].key.v.ref)
    {
      if j != i { assert x.node[j] == s.obj[o].node[j]; }
    }
    TableStored(s.obj, o, x, {k, v});
  }

  /** t[k] = v in the hash part: node i has the key already, or is free and gets it. */
  method SetNode(g: Collector, t: nat, i: nat, k: nat, v: nat)
    requires g.Inv()
    modifies g`obj, g`mark, g`grayagain
    ensures g.Inv()
    ensures var regs := old(Regs(g));
      if old(TableReg(g, t)) && k < |regs| && v < |regs| && NodeFits(old(g.obj)[regs[t].ref], i, regs[k])
      then var x := old(g.obj)[regs[t].ref];
        g.obj == old(g.obj)[regs[t].ref := x.(node := x.node[i := Node(Live(regs[k]), regs[v])])]
        && (regs[k].Coll? && regs[v] != Nil ==> Holds(g.obj, regs[t].ref, regs[k].ref))
        && (regs[v].Coll? ==> Holds(g.obj, regs[t].ref, regs[v].ref))
      else g.obj == old(g.obj)
  {
    hide *;
    RunningThread(g);
    var regs := Regs(g);
    if TableReg(g, t) && k < |regs| && v < |regs| {
      TableRegIs(g, t);
      var o := regs[t].ref;
      var x := g.obj[o];
      if NodeFits(x, i, regs[k]) {
        NodeFitsIs(x, i, regs[k]);
        RegAlive(g, k);
        RegAlive(g, v);
        SnapInv(g);
        NodeStored(Snap(g), o, i, regs[k], regs[v]);
        if regs[v] != Nil { NodeHeld(g.obj, o, i, regs[k], regs[v]); }
        WriteTable(g, o, x.(node := x.node[i := Node(Live(regs[k]), regs[v])]), regs[k], regs[v]);
      }
    }
  }

  predicate NodeFits(x: Obj, i: nat, k: Value) {
    x.Table? && i < |x.node| && k != Nil && (x.node[i].val == Nil || x.node[i].key == Live(k))
  }

  lemma NodeFitsIs(x: Obj, i: nat, k: Value)
    requires NodeFits(x, i, k)
    ensures x.Table? && i < |x.node|
  {
  }

  /** The table's entries in other places, or fewer of them, as after a rehash. */
  predicate Rearranged(h: Heap, o: Ref, arr: seq<Value>, node: seq<Node>)
    requires o in h
  {
    && (forall i | 0 <= i < |arr| :: arr[i].Coll? ==> Holds(h, o, arr[i].ref))
    && (forall i | 0 <= i < |node| :: node[i].val != Nil ==>
          node[i].key.Live? && (node[i].val.Coll? ==> Holds(h, o, node[i].val.ref))
              && (node[i].key.v.Coll? ==> Holds(h, o, node[i].key.v.ref)))
  }

  lemma RearrangedStored(s: Snapshot, o: Ref, arr: seq<Value>, node: seq<Node>)
    requires InvS(s) && o in s.obj && s.obj[o].Table? && Rearranged(s.obj, o, arr, node)
    ensures var x := s.obj[o].(arr := arr, node := node); Stored(s.obj, s.obj[o := x], o, {Nil, Nil})
  {
    InvKeys(s);
    TableStored(s.obj, o, s.obj[o].(arr := arr, node := node), {Nil, Nil});
  }

  method Rearrange(g: Collector, t: nat, arr: seq<Value>, node: seq<Node>)
    requires g.Inv()
    modifies g`obj, g`mark, g`grayagain
    ensures g.Inv()
    ensures var regs := old(Regs(g));
      if old(TableReg(g, t)) && Rearranged(old(g.obj), regs[t].ref, arr, node)
      then g.obj == old(g.obj)[regs[t].ref := old(g.obj)[regs[t].ref].(arr := arr, node := node)]
      else g.obj == old(g.obj)
  {
    hide *;
    RunningThread(g);
    var regs := Regs(g);
    if TableReg(g, t) {
      TableRegIs(g, t);
      var o := regs[t].ref;
      if Rearranged(g.obj, o, arr, node) {
        SnapInv(g);
        RearrangedStored(Snap(g), o, arr, node);
        PrimAlive(Snap(g), Nil);
        WriteTable(g, o, g.obj[o].(arr := arr, node := node), Nil, Nil);
      }
    }
  }

  lemma MetaStored(s: Snapshot, o: Ref, mode: Mode, v: Value)
    requires InvS(s) && o in s.obj && s.obj[o].Table?
    ensures var x := s.obj[o].(meta := v, mode := mode); Stored(s.obj, s.obj[o := x], o, {v, v})
  {
    InvKeys(s);
    NodesHeld(s.obj, o);
    assert forall j :: 0 <= j < |s.obj[o].arr| && s.obj[o].arr[j].Coll? ==> Holds(s.obj, o, s.obj[o].arr[j].ref);
    TableStored(s.obj, o, s.obj[o].(meta := v, mode := mode), {v, v});
  }

  lemma MetaHeld(h: Heap, o: Ref, mode: Mode, v: Value)
    requires o in h && h[o].Table?
    ensures v.Coll? ==> Holds(h[o := h[o].(meta := v, mode := mode)], o, v.ref)
  {
  }

  /**
   * The metatable v may be given to table o: not to a table of the allweak list while v is not marked.  The program of
   * the repository does not check this, and that list is not visited again before the clearing (see SetMetaExact).
   */
  predicate MetaAllowed(g: Collector, o: Ref, v: Value)
    reads g
  {
    g.phase.Propagate? && o in g.allweak ==> !g.IsWhite(v)
  }

  /** lua_setmetatable on a table; mode is what the __mode field of the new metatable says. */
  method SetMeta(g: Collector, t: nat, v: nat, mode: Mode)
    requires g.Inv()
    modifies g`obj, g`mark, g`grayagain
    ensures g.Inv()
    ensures var regs := old(Regs(g));
      if old(TableReg(g, t)) && v < |regs| && old(MetaAllowed(g, Regs(g)[t].ref, Regs(g)[v]))
      then g.obj == old(g.obj)[regs[t].ref := old(g.obj)[regs[t].ref].(meta := regs[v], mode := mode)]
        && (regs[v].Coll? ==> Holds(g.obj, regs[t].ref, regs[v].ref))
      else g.obj == old(g.obj)
  {
    hide *;
    RunningThread(g);
    var regs := Regs(g);
    if TableReg(g, t) && v < |regs| {
      TableRegIs(g, t);
      var o := regs[t].ref;
      if MetaAllowed(g, o, regs[v]) {
        RegAlive(g, v);
        SnapInv(g);
        InObj(Snap(g), regs[v]);
        InvKeys(Snap(g));
        MetaAllowedIs(g, o, regs[v]);
        MetaStored(Snap(g), o, mode, regs[v]);
        MetaHeld(g.obj, o, mode, regs[v]);
        WriteTable(g, o, g.obj[o].(meta := regs[v], mode := mode), regs[v], regs[v]);
      }
    }
  }

  lemma MetaAllowedIs(g: Collector, o: Ref, v: Value)
    requires MetaAllowed(g, o, v) && (v.Coll? ==> v.ref in g.mark)
    ensures g.phase.Propagate? && o in g.allweak ==> ValMarked(g.mark, v)
  {
  }

  /** The __mode field of a table's metatable changes. */
  method SetMode(g: Collector, t: nat, mode: Mode)
    requires g.Inv()
    modifies g`obj, g`mark, g`grayagain
    ensures g.Inv()
    ensures if old(TableReg(g, t)) then var o := old(Regs(g))[t].ref;
        g.obj == old(g.obj)[o := old(g.obj)[o].(mode := mode)] else g.obj == old(g.obj)
  {
    hide *;
    RunningThread(g);
    var regs := Regs(g);
    if TableReg(g, t) {
      TableRegIs(g, t);
      var o := regs[t].ref;
      SnapInv(g);
      ModeStored(Snap(g), o, mode);
      PrimAlive(Snap(g), Nil);
      WriteTable(g, o, g.obj[o].(mode := mode), Nil, Nil);
    }
  }

  lemma ModeStored(s: Snapshot, o: Ref, mode: Mode)
    requires InvS(s) && o in s.obj && s.obj[o].Table?
    ensures Stored(s.obj, s.obj[o := s.obj[o].(mode := mode)], o, {Nil, Nil})
  {
    InvKeys(s);
    NodesHeld(s.obj, o);
    assert forall j :: 0 <= j < |s.obj[o].arr| && s.obj[o].arr[j].Coll? ==> Holds(s.obj, o, s.obj[o].arr[j].ref);
    TableStored(s.obj, o, s.obj[o].(mode := mode), {Nil, Nil});
  }

  /** The effect of lua_setmetatable on a table without the check: the back barrier, then the store. */
  ghost function MetaStore(s: Snapshot, o: Ref, v: Value, mode: Mode): Snapshot
    requires o in s.obj && s.obj[o].Table?
  {
    Backed(s, o, v).(obj := s.obj[o := s.obj[o].(meta := v, mode := mode)])
  }

  /**
   * lua_setmetatable on a table keeps the invariant if and only if the table is not on the allweak list of a running
   * mark phase, or the metatable is marked already.
   */
  lemma SetMetaExact(s: Snapshot, o: Ref, v: Value, mode: Mode)
    requires InvS(s) && o in s.obj && s.obj[o].Table? && AliveS(s, v)
    ensures InvS(MetaStore(s, o, v, mode)) <==> (s.phase.Propagate? && o in s.lists.allweak ==> ValMarked(s.mark, v))
  {
    hide Base, Tri, SweptWhite, ListsOk, Stored, RootsAlive, OneWhite;
    InvKeys(s);
    var x := s.obj[o].(meta := v, mode := mode);
    var s2 := MetaStore(s, o, v, mode);
    if s.phase.Propagate? && o in s.lists.allweak && !ValMarked(s.mark, v) {
      var i :| 0 <= i < |s.lists.allweak| && s.lists.allweak[i] == o;
      assert s2.lists.allweak[i] == o && s2.obj[o].meta == v && !ValMarked(s2.mark, v);
      assert !MetaDone(s2.obj, s2.mark, s2.lists.allweak[i]);
    } else {
      MetaStored(s, o, mode, v);
      var s1 := Backed(s, o, v);
      if BackNeeded(s.mark, o, v) { BackInv(s, o); }
      BackKeeps(s, s1, s1, o, v, v, v) by { assert Backed(s1, o, v) == s1; }
      TableMayStore(s1, o, x, {v, v});
      StoreInv(s1, o, x, {v, v});
      assert s1.obj[o := x] == s2.obj;
    }
  }

  // ---- The cache of a prototype (lgc.c:163-182)

  lemma CacheMayStore(s: Snapshot, o: Ref, v: Value)
    requires InvS(s) && o in s.obj && o in s.mark && s.obj[o].Proto? && AliveS(s, v)
    requires s.phase.Propagate? && s.mark[o].Black? ==> ValMarked(s.mark, v)
    ensures MayStore(s, o, Proto(v, s.obj[o].consts), {v})
  {
    InvKeys(s);
    PlainStored(s.obj, o, Proto(v, s.obj[o].consts), {v});
  }

  /** luaC_barrierproto: the first closure of a black prototype is marked; later ones make the prototype gray again. */
  method BarrierProto(g: Collector, p: Ref, v: Value)
    requires g.Inv() && p in g.obj && p in g.mark && g.obj[p].Proto? && AliveS(Snap(g), v)
    modifies g`mark, g`gray, g`grayagain
    ensures g.Inv() && AliveS(Snap(g), v) && p in g.mark
    ensures g.phase.Propagate? && g.mark[p].Black? ==> ValMarked(g.mark, v)
    ensures !old(g.mark[p].Black?) ==> g.mark == old(g.mark) && g.gray == old(g.gray)
    ensures old(g.mark[p].Black?) && g.obj[p].cache != Nil ==>
        g.mark == old(g.mark)[p := Gray] && g.gray == old(g.gray)
    ensures g.grayagain == if old(g.mark[p].Black?) && g.obj[p].cache != Nil then [p] + old(g.grayagain)
                           else old(g.grayagain)
  {
    hide *;
    SnapInv(g);
    ghost var s := Snap(g);
    InvKeys(s);
    if g.mark[p].Black? {
      if g.obj[p].cache == Nil {
        InObj(s, v);
        Barrier(g, p, v);
        SnapInv(g);
        InvKeys(Snap(g));
        GrewAlive(s, Snap(g), v);
      } else {  // the prototype waits for the atomic step
        ProtoKind(g.obj[p]);
        BackInv(s, p);
        g.mark := g.mark[p := Gray];
        g.grayagain := [p] + g.grayagain;
        SnapInv(g);
        GrayAlive(s, Snap(g), p, v);
      }
    }
  }

  lemma CacheHeld(h: Heap, o: Ref, v: Value)
    requires o in h && h[o].Proto?
    ensures v.Coll? ==> Holds(h[o := Proto(v, h[o].consts)], o, v.ref)
  {
  }

  lemma ProtoKind(x: Obj)
    requires x.Proto?
    ensures Listable(x)
  {
  }

  lemma GrayAlive(s: Snapshot, s2: Snapshot, p: Ref, v: Value)
    requires AliveS(s, v) && p in s.mark && s.mark[p].Black? && s2.mark == s.mark[p := Gray] && s2.cw == s.cw
        && s2.fixed == s.fixed
    ensures AliveS(s2, v)
  {
  }

  /** The closure in register v becomes the cached closure of the prototype in register p. */
  method SetCache(g: Collector, p: nat, v: nat)
    requires g.Inv()
    modifies g`obj, g`mark, g`gray, g`grayagain
    ensures g.Inv()
    ensures var regs := old(Regs(g));
      if p < |regs| && v < |regs| && regs[p].Coll? && regs[p].ref in old(g.obj) && old(g.obj)[regs[p].ref].Proto?
      then g.obj == old(g.obj)[regs[p].ref := Proto(regs[v], old(g.obj)[regs[p].ref].consts)]
        && (regs[v].Coll? ==> Holds(g.obj, regs[p].ref, regs[v].ref))
      else g.obj == old(g.obj)
  {
    hide *;
    RunningThread(g);
    var regs := Regs(g);
    if p < |regs| && v < |regs| && regs[p].Coll? && regs[p].ref in g.obj && g.obj[regs[p].ref].Proto? {
      RegAlive(g, v);
      var o := regs[p].ref;
      BarrierProto(g, o, regs[v]);
      SnapInv(g);
      CacheMayStore(Snap(g), o, regs[v]);
      CacheHeld(g.obj, o, regs[v]);
      Store(g, o, Proto(regs[v], g.obj[o].consts), {regs[v]});
    }
  }

  // ---- Stacks and roots

  /**
   * Slot i of the stack of the thread in register t gets the value of register v (lua_xmove, and SETUPVAL on an open
   * upvalue).
   */
  method SetSlot(g: Collector, t: nat, i: nat, v: nat)
    requires g.Inv()
    modifies g`obj
    ensures g.Inv()
    ensures var regs := old(Regs(g));
      if t < |regs| && v < |regs| && regs[t].Coll? && StackSlot(old(g.obj), regs[t].ref, i).0
      then var p := StackSlot(old(g.obj), regs[t].ref, i);
        p.1 in old(g.obj) && old(g.obj)[p.1].Thread? && p.2 < |old(g.obj)[p.1].stack| &&
        g.obj == old(g.obj)[p.1 := Thread(old(g.obj)[p.1].stack[p.2 := regs[v]], old(g.obj)[p.1].top)]
        && (regs[v].Coll? ==> regs[t].ref in g.obj && Holds(g.obj, regs[t].ref, regs[v].ref))
      else g.obj == old(g.obj)
  {
    hide *;
    RunningThread(g);
    var regs := Regs(g);
    if t < |regs| && v < |regs| && regs[t].Coll? {
      var (ok, th, j) := StackSlot(g.obj, regs[t].ref, i);
      if ok {
        SnapInv(g);
        InvKeys(Snap(g));
        SlotIs(g.obj, regs[t].ref, i);
        RegAlive(g, v);
        var stack, top := g.obj[th].stack, g.obj[th].top;
        TopIn(g.obj, th);
        StackMayStore(Snap(g), th, stack[j := regs[v]], top, {regs[v]});
        SlotHeld(g.obj, regs[t].ref, i, regs[v]);
        Store(g, th, Thread(stack[j := regs[v]], top), {regs[v]});
      }
    }
  }

  /** Where a write to o goes: slot i of a thread, or the slot that an open upvalue refers to. */
  function StackSlot(h: Heap, o: Ref, i: nat): (bool, Ref, nat) {
    if o !in h then (false, 0, 0)
    else if h[o].Thread? && i < |h[o].stack| then (true, o, i)
    else if h[o].OpenUp? then (true, h[o].th, h[o].idx)
    else (false, 0, 0)
  }

  lemma SlotIs(h: Heap, o: Ref, i: nat)
    requires HeapShape(h) && StackSlot(h, o, i).0
    ensures var p := StackSlot(h, o, i); p.1 in h && h[p.1].Thread? && p.2 < |h[p.1].stack|
  {
    if h[o].OpenUp? { assert h[h[o].th].Thread?; }
  }

  lemma SlotHeld(h: Heap, o: Ref, i: nat, v: Value)
    requires HeapShape(h) && StackSlot(h, o, i).0
    ensures var p := StackSlot(h, o, i);
      && p.1 in h && h[p.1].Thread? && p.2 < |h[p.1].stack| && o in h
      && (v.Coll? ==> Holds(h[p.1 := Thread(h[p.1].stack[p.2 := v], h[p.1].top)], o, v.ref))
  {
    SlotIs(h, o, i);
    var p := StackSlot(h, o, i);
    assert h[p.1].stack[p.2 := v][p.2] == v;
  }

  lemma TopIn(h: Heap, th: Ref)
    requires HeapShape(h) && th in h && h[th].Thread?
    ensures h[th].top <= |h[th].stack|
  {
  }

  method SetTop(g: Collector, top: nat)
    requires g.Inv()
    modifies g`obj
    ensures g.Inv()
    ensures g.obj == if top <= old(|Regs(g)|) then old(g.obj)[g.running := Thread(old(Regs(g)), top)] else old(g.obj)
  {
    hide *;
    RunningThread(g);
    var stack := Regs(g);
    if top <= |stack| {
      SnapInv(g);
      StackMayStore(Snap(g), g.running, stack, top, {});
      Store(g, g.running, Thread(stack, top), {});
    }
  }

  /** The roots may change without a barrier: the atomic step marks them again. */
  lemma RootsInv(s: Snapshot, rs: Roots)
    requires InvS(s) && rs.main == s.rs.main && RootsAlive(s.mark, s.cw, s.fixed, rs) && rs.running in s.obj
        && s.obj[rs.running].Thread?
    ensures InvS(s.(rs := rs))
  {
    hide Base, RootsAlive, Tri, ListsOk, OneWhite, AllweakMeta, SweptWhite, AllCurrent;
  }

  lemma RootsOf(s: Snapshot, rs: Roots, v: Value)
    requires InvS(s) && AliveS(s, v)
    requires rs.main == s.rs.main && (rs.running == s.rs.running || Coll(rs.running) == v)
    requires (rs.registry == s.rs.registry || rs.registry == v) && (forall w :: w in rs.mt ==> w in s.rs.mt || w == v)
    requires forall r :: r in rs.fnz ==> r in s.rs.fnz
    ensures RootsAlive(s.mark, s.cw, s.fixed, rs)
  {
    forall r | IsRoot(rs, r) ensures Alive(s.mark, s.cw, s.fixed, r) {
      if v != Coll(r) { assert IsRoot(s.rs, r); }
    }
  }

  method SetRegistry(g: Collector, v: nat)
    requires g.Inv()
    modifies g`registry
    ensures g.Inv() && g.registry == if v < old(|Regs(g)|) then old(Regs(g))[v] else old(g.registry)
  {
    hide *;
    RunningThread(g);
    var regs := Regs(g);
    if v < |regs| {
      RegAlive(g, v);
      SnapInv(g);
      ghost var s := Snap(g);
      ghost var rs := g.Rs().(registry := regs[v]);
      RootsOf(s, rs, regs[v]);
      RootsInv(s, rs);
      g.registry := regs[v];
      SnapInv(g);
    }
  }

  method SetBasicMeta(g: Collector, i: nat, v: nat)
    requires g.Inv()
    modifies g`mt
    ensures g.Inv() && g.mt == if v < old(|Regs(g)|) && i < |old(g.mt)| then old(g.mt)[i := old(Regs(g))[v]]
        else old(g.mt)
  {
    hide *;
    RunningThread(g);
    var regs := Regs(g);
    if v < |regs| && i < |g.mt| {
      RegAlive(g, v);
      SnapInv(g);
      ghost var s := Snap(g);
      ghost var rs := g.Rs().(mt := g.mt[i := regs[v]]);
      RootsOf(s, rs, regs[v]);
      RootsInv(s, rs);
      g.mt := g.mt[i := regs[v]];
      SnapInv(g);
    }
  }

  /** The thread in register v runs. */
  method Resume(g: Collector, v: nat)
    requires g.Inv()
    modifies g`running
    ensures g.Inv()
    ensures var regs := old(Regs(g));
      g.running == if v < |regs| && regs[v].Coll? && regs[v].ref in g.obj && g.obj[regs[v].ref].Thread? then regs[v].ref
          else old(g.running)
  {
    hide *;
    RunningThread(g);
    var regs := Regs(g);
    if v < |regs| && regs[v].Coll? && regs[v].ref in g.obj && g.obj[regs[v].ref].Thread? {
      RegAlive(g, v);
      SnapInv(g);
      ghost var s := Snap(g);
      ghost var rs := g.Rs().(running := regs[v].ref);
      RootsOf(s, rs, regs[v]);
      RootsInv(s, rs);
      g.running := regs[v].ref;
      SnapInv(g);
    }
  }

  datatype RootName = Registry | BasicMeta(i: nat) | ThisThread

  function RootValue(g: Collector, n: RootName): (v: Value)
    reads g
  {
    match n
    case Registry => g.registry
    case BasicMeta(i) => if i < |g.mt| then g.mt[i] else Nil
    case ThisThread => Coll(g.running)
  }

  lemma RootValueAlive(g: Collector, n: RootName)
    requires g.Inv()
    ensures AliveS(Snap(g), RootValue(g, n))
  {
    SnapInv(g);
    var v := RootValue(g, n);
    if v.Coll? { assert IsRoot(g.Rs(), v.ref); }
  }

  method LoadRoot(g: Collector, dst: nat, n: RootName)
    requires g.Inv()
    modifies g`obj
    ensures g.Inv()
    ensures g.obj == if dst < old(|Regs(g)|) then
        old(g.obj)[g.running := Thread(old(Regs(g))[dst := old(RootValue(g, n))], old(g.obj)[g.running].top)]
        else old(g.obj)
  {
    hide *;
    RunningThread(g);
    if dst < |Regs(g)| {
      RootValueAlive(g, n);
      SetReg(g, dst, RootValue(g, n));
    }
  }

  // ---- New objects (lgc.c:205-222)

  /** x holds nothing and is well-formed. */
  predicate Blank(x: Obj) {
    match x
    case Str => true
    case Udata(mt, env) => mt == Nil && env == Nil
    case OpenUp(_, _) => false
    case ClosedUp(v) => v == Nil
    case Closure(slots) => forall i :: 0 <= i < |slots| ==> slots[i] == Nil
    case Table(_, meta, arr, node) =>
      && meta == Nil && (forall i :: 0 <= i < |arr| ==> arr[i] == Nil)
      && forall i :: 0 <= i < |node| ==> node[i].val == Nil
    case Thread(stack, top) => top <= |stack| && forall i :: 0 <= i < |stack| ==> stack[i] == Nil
    case Proto(cache, consts) => cache == Nil && forall i :: 0 <= i < |consts| ==> consts[i] == Nil
  }

  lemma BlankHolds(h: Heap, r: Ref, x: Obj)
    requires HeapShape(h) && r !in h
        && (Blank(x) || (x.OpenUp? && x.th in h && h[x.th].Thread? && x.idx < |h[x.th].stack|))
    ensures HeapShape(h[r := x])
    ensures forall o, p :: o in h ==> (Holds(h[r := x], o, p) <==> Holds(h, o, p))
    ensures Blank(x) ==> forall p {:trigger Holds(h[r := x], r, p)} :: !Holds(h[r := x], r, p)
  {
    var h2 := h[r := x];
    forall o, p | o in h ensures Holds(h2, o, p) <==> Holds(h, o, p) {
      assert h2[o] == h[o];
      if h[o].OpenUp? { assert h2[h[o].th] == h[h[o].th]; }
    }
    assert h2[r] == x;
  }

  /** The state with a new white object r, at the head of strt, of allgc, or of the upvalues of its thread. */
  ghost function Added(s: Snapshot, r: Ref, x: Obj): Snapshot {
    s.(obj := s.obj[r := x], mark := s.mark[r := White(s.cw)],
       strt := if x.Str? then [r] + s.strt else s.strt,
       allgc := if x.Str? || x.OpenUp? then s.allgc else [r] + s.allgc)
  }

  lemma AddedBase(s: Snapshot, r: Ref, x: Obj)
    requires BaseS(s) && r !in s.obj && r !in s.fixed
    requires Blank(x) || (x.OpenUp? && x.th in s.obj && s.obj[x.th].Thread? && x.idx < |s.obj[x.th].stack|
        && AliveS(s, s.obj[x.th].stack[x.idx]))
    ensures BaseS(Added(s, r, x))
    ensures AliveS(Added(s, r, x), Coll(r))
  {
    hide HeapShape, Holds, AliveClosed, RootsAlive, Covered, StringsOk, Blank;
    var s2 := Added(s, r, x);
    BlankHolds(s.obj, r, x);
    AddedClosed(s, r, x);
    AddedCovered(s, r, x);
    RootsAdded(s, r, x);
    assert OpenNotBlack(s2.obj, s2.mark);
    assert FixedOk(s2.obj, s2.fixed);
  }

  lemma AddedClosed(s: Snapshot, r: Ref, x: Obj)
    requires HeapShape(s.obj) && s.obj.Keys == s.mark.Keys && AliveClosed(s.obj, s.mark, s.cw, s.fixed) && r !in s.obj
    requires Blank(x) || (x.OpenUp? && x.th in s.obj && s.obj[x.th].Thread? && x.idx < |s.obj[x.th].stack|
        && AliveS(s, s.obj[x.th].stack[x.idx]))
    ensures AliveClosed(s.obj[r := x], s.mark[r := White(s.cw)], s.cw, s.fixed)
  {
    hide HeapShape;
    var h2, m2 := s.obj[r := x], s.mark[r := White(s.cw)];
    BlankHolds(s.obj, r, x);
    forall o, p | o in h2 && Alive(m2, s.cw, s.fixed, o) && Holds(h2, o, p) ensures Alive(m2, s.cw, s.fixed, p) {
      if o != r { assert Alive(s.mark, s.cw, s.fixed, o) && Holds(s.obj, o, p) && Alive(s.mark, s.cw, s.fixed, p); }
      else { assert x.OpenUp? && s.obj[x.th].stack[x.idx] == Coll(p); assert Alive(s.mark, s.cw, s.fixed, p); }
    }
  }

  lemma RootsAdded(s: Snapshot, r: Ref, x: Obj)
    requires RootsAlive(s.mark, s.cw, s.fixed, s.rs) && r !in s.mark
    ensures RootsAlive(s.mark[r := White(s.cw)], s.cw, s.fixed, s.rs)
  {
    forall p | IsRoot(s.rs, p) ensures Alive(s.mark[r := White(s.cw)], s.cw, s.fixed, p) {
      assert Alive(s.mark, s.cw, s.fixed, p);
    }
  }

  lemma AddedCovered(s: Snapshot, r: Ref, x: Obj)
    requires Covered(s.obj, s.strt, s.allgc, s.rs.main) && StringsOk(s.obj, s.strt) && r !in s.obj && s.rs.main in s.obj
    ensures var s2 := Added(s, r, x); Covered(s2.obj, s2.strt, s2.allgc, s2.rs.main) && StringsOk(s2.obj, s2.strt)
  {
    hide StringsOk;
    var s2 := Added(s, r, x);
    AddedStrings(s, r, x);
    assert multiset([r] + s.strt) == multiset{r} + multiset(s.strt);
    assert multiset([r] + s.allgc) == multiset{r} + multiset(s.allgc);
    forall o: Ref ensures multiset(s2.strt)[o] + multiset(s2.allgc)[o] == if o in s2.obj && o != s2.rs.main
        && !s2.obj[o].OpenUp? then 1 else 0 {
      assert multiset(s.strt)[o] + multiset(s.allgc)[o] == if o in s.obj && o != s.rs.main && !s.obj[o].OpenUp? then 1
          else 0;
    }
  }

  lemma AddedStrings(s: Snapshot, r: Ref, x: Obj)
    requires StringsOk(s.obj, s.strt) && r !in s.obj
    ensures StringsOk(Added(s, r, x).obj, Added(s, r, x).strt)
  {
    var s2 := Added(s, r, x);
    forall i | 0 <= i < |s2.strt| ensures IsStr(s2.obj, s2.strt[i]) {
      if s2.strt[i] != r { assert s2.strt[i] in s.strt; }
    }
  }

  lemma AddedMark(s: Snapshot, r: Ref, x: Obj)
    requires MarkS(s) && r !in s.obj
    requires Blank(x) || (x.OpenUp? && x.th in s.obj && s.obj[x.th].Thread? && x.idx < |s.obj[x.th].stack|)
    ensures MarkS(Added(s, r, x))
  {
    hide Holds, HeapShape;
    var s2 := Added(s, r, x);
    var L := multiset(s.gray) + Linked(s.lists);
    BlankHolds(s.obj, r, x);
    assert Grows(s.mark, s2.mark);
    forall o | o in s2.obj && s2.mark[o].Black? ensures AllHeldMarked(s2.obj, s2.mark, o) && !s2.obj[o].Thread?
        && !s2.obj[o].OpenUp? {
      assert s.mark[o].Black? && AllHeldMarked(s.obj, s.mark, o);
    }
    forall o: Ref ensures L[o] == if NeedsList(s2.obj, s2.mark, o) then 1 else 0 {
      assert L[o] == if NeedsList(s.obj, s.mark, o) then 1 else 0;
    }
    assert HeapOk(s2.obj) by { AddedHeap(s, r, x); }
    MetaAdded(s, r, x);
  }

  lemma AddedHeap(s: Snapshot, r: Ref, x: Obj)
    requires HeapOk(s.obj) && r !in s.obj
    requires Blank(x) || (x.OpenUp? && x.th in s.obj && s.obj[x.th].Thread? && x.idx < |s.obj[x.th].stack|)
    ensures HeapOk(s.obj[r := x])
  {
    var h2 := s.obj[r := x];
    BlankHolds(s.obj, r, x);
    forall o, p | o in h2 && Holds(h2, o, p) ensures p in h2 {
      if o != r {
        assert Holds(s.obj, o, p);
      } else if x.OpenUp? {
        assert Holds(s.obj, x.th, p) by { assert s.obj[x.th].stack[x.idx] == Coll(p); }
      }
    }
  }

  lemma MetaAdded(s: Snapshot, r: Ref, x: Obj)
    requires AllweakMeta(s.obj, s.mark, s.lists.allweak) && r !in s.obj && r !in s.mark
    ensures AllweakMeta(s.obj[r := x], s.mark[r := White(s.cw)], s.lists.allweak)
  {
    forall i | 0 <= i < |s.lists.allweak|
        ensures MetaDone(s.obj[r := x], s.mark[r := White(s.cw)], s.lists.allweak[i]) {
      assert MetaDone(s.obj, s.mark, s.lists.allweak[i]);
      assert Grows(s.mark, s.mark[r := White(s.cw)]);
    }
  }

  lemma AddedSweep(s: Snapshot, r: Ref, x: Obj)
    requires SweepS(s) && r !in s.obj && s.obj.Keys == s.mark.Keys
    ensures SweepS(Added(s, r, x))
  {
    var s2 := Added(s, r, x);
    TailCons(r, s.strt, s.sweepstr);
    TailCons(r, s.allgc, s.sweepgc);
    forall o | o in s2.mark ensures s2.mark[o] == White(s.cw)
        || Unswept(s2.obj, Tail(s.strt, s.sweepstr), Tail(s.allgc, s.sweepgc), s.rs.main, o) {
      if o != r {
        assert s.mark[o] == White(s.cw) || Unswept(s.obj, Tail(s.strt, s.sweepstr), Tail(s.allgc, s.sweepgc),
            s.rs.main, o);
      }
    }
  }

  lemma AddedInv(s: Snapshot, r: Ref, x: Obj)
    requires InvS(s) && r !in s.obj && r !in s.fixed
    requires Blank(x) || (x.OpenUp? && x.th in s.obj && s.obj[x.th].Thread? && x.idx < |s.obj[x.th].stack|
        && AliveS(s, s.obj[x.th].stack[x.idx]))
    ensures InvS(Added(s, r, x)) && AliveS(Added(s, r, x), Coll(r))
  {
    hide BaseS, MarkS, SweepS;
    InvKeys(s);
    AddedBase(s, r, x);
    if s.phase.Propagate? { AddedMark(s, r, x); }
    if s.phase.SweepString? || s.phase.Sweep? { AddedSweep(s, r, x); }
  }

  /** luaC_newobj: r becomes a new object, of the current white, at the head of its list. */
  method Allocate(g: Collector, r: Ref, x: Obj)
    requires g.Inv() && r !in g.obj && r !in g.fixed && Blank(x)
    modifies g`obj, g`mark, g`allgc, g`strt
    ensures g.Inv() && g.obj == old(g.obj)[r := x] && g.mark == old(g.mark)[r := White(g.currentwhite)]
    ensures AliveS(Snap(g), Coll(r)) && g.running in old(g.obj) && g.running != r
    ensures g.strt == (if x.Str? then [r] else []) + old(g.strt) && g.allgc == (if x.Str? then [] else [r])
        + old(g.allgc)
  {
    hide *;
    RunningThread(g);
    SnapInv(g);
    ghost var s := Snap(g);
    AddedInv(s, r, x);
    AddedIs(s, r, x);
    BlankKind(x);
    g.obj := g.obj[r := x];
    g.mark := g.mark[r := White(g.currentwhite)];
    if x.Str? { g.strt := [r] + g.strt; } else { g.allgc := [r] + g.allgc; }
    SnapInv(g);
  }

  /** A new object, and register dst refers to it. */
  method New(g: Collector, dst: nat, r: Ref, x: Obj)
    requires g.Inv()
    modifies g`obj, g`mark, g`allgc, g`strt
    ensures g.Inv()
    ensures if dst < old(|Regs(g)|) && r !in old(g.obj) && r !in g.fixed && Blank(x)
            then g.obj == old(g.obj)[r := x][g.running := Thread(old(Regs(g))[dst := Coll(r)],
                old(g.obj)[g.running].top)] && g.mark == old(g.mark)[r := White(g.currentwhite)]
            else g.obj == old(g.obj) && g.mark == old(g.mark)
  {
    hide *;
    RunningThread(g);
    if dst < |Regs(g)| && r !in g.obj && r !in g.fixed && Blank(x) {
      Allocate(g, r, x);
      RunningThread(g);
      SetReg(g, dst, Coll(r));
    }
  }

  lemma BlankKind(x: Obj)
    requires Blank(x)
    ensures !x.OpenUp?
  {
  }

  lemma AddedIs(s: Snapshot, r: Ref, x: Obj)
    ensures Added(s, r, x) == s.(obj := s.obj[r := x], mark := s.mark[r := White(s.cw)],
       strt := if x.Str? then [r] + s.strt else s.strt,
       allgc := if x.Str? || x.OpenUp? then s.allgc else [r] + s.allgc)
  {
  }

  // ---- Strings and upvalues that come back to life (lstring.c:73-92, lfunc.c:47-72)

  lemma DeadPhase(s: Snapshot, o: Ref)
    requires InvS(s) && IsDead(s.mark, s.cw, s.fixed, o)
    ensures s.phase.SweepString? || s.phase.Sweep?
  {
  }

  /** changewhite on a dead object whose contents are not dead. */
  lemma ReviveInv(s: Snapshot, o: Ref)
    requires InvS(s) && IsDead(s.mark, s.cw, s.fixed, o) && o in s.obj
    requires forall r :: Holds(s.obj, o, r) ==> AliveS(s, Coll(r))
    ensures InvS(s.(mark := s.mark[o := White(s.cw)])) && AliveS(s.(mark := s.mark[o := White(s.cw)]), Coll(o))
  {
    hide SweptWhite, Covered, HeapShape, StringsOk, Holds, RootsAlive;
    var m2 := s.mark[o := White(s.cw)];
    DeadPhase(s, o);
    assert forall r :: Alive(s.mark, s.cw, s.fixed, r) ==> Alive(m2, s.cw, s.fixed, r);
    assert AliveClosed(s.obj, m2, s.cw, s.fixed) by {
      forall p, r | p in s.obj && Alive(m2, s.cw, s.fixed, p) && Holds(s.obj, p, r)
          ensures Alive(m2, s.cw, s.fixed, r) {
        if p == o { assert AliveS(s, Coll(r)); } else { assert Alive(s.mark, s.cw, s.fixed, p); }
      }
    }
    RootsSame(s.mark, m2, s.cw, s.fixed, s.rs);
    RecolorSwept(s.obj, s.mark, s.cw, Tail(s.strt, s.sweepstr), Tail(s.allgc, s.sweepgc), s.rs.main, o, White(s.cw));
  }

  /** A dead object whose contents are not dead changes its white; the object is not dead afterwards in any case. */
  method Revive(g: Collector, o: Ref)
    requires g.Inv() && o in g.obj && forall r :: Holds(g.obj, o, r) ==> AliveS(Snap(g), Coll(r))
    modifies g`mark
    ensures g.Inv() && AliveS(Snap(g), Coll(o))
    ensures g.mark == if IsDead(old(g.mark), g.currentwhite, g.fixed, o) then old(g.mark)[o := White(g.currentwhite)]
        else old(g.mark)
  {
    hide *;
    SnapInv(g);
    ghost var s := Snap(g);
    if IsDead(g.mark, g.currentwhite, g.fixed, o) {
      ReviveInv(s, o);
      g.mark := g.mark[o := White(g.currentwhite)];
    } else {
      InvKeys(s);
      NotDead(s, o);
    }
    SnapInv(g);
  }

  lemma NotDead(s: Snapshot, o: Ref)
    requires o in s.mark && !IsDead(s.mark, s.cw, s.fixed, o)
    ensures AliveS(s, Coll(o))
  {
  }

  /** internshrstr finds the string o by its contents: a dead string is resurrected. */
  method Intern(g: Collector, dst: nat, o: Ref)
    requires g.Inv()
    modifies g`obj, g`mark
    ensures g.Inv()
    ensures if dst < old(|Regs(g)|) && o in g.strt
            then g.obj == old(g.obj)[g.running := Thread(old(Regs(g))[dst := Coll(o)], old(g.obj)[g.running].top)] &&
              g.mark == if IsDead(old(g.mark), g.currentwhite, g.fixed, o) then old(g.mark)[o := White(g.currentwhite)]
                  else old(g.mark)
            else g.obj == old(g.obj) && g.mark == old(g.mark)
  {
    hide *;
    RunningThread(g);
    if dst < |Regs(g)| && o in g.strt {
      SnapInv(g);
      StringHolds(Snap(g), o);
      Revive(g, o);
      RunningThread(g);
      SetReg(g, dst, Coll(o));
    }
  }

  lemma StringHolds(s: Snapshot, o: Ref)
    requires InvS(s) && o in s.strt
    ensures o in s.obj && forall r :: !Holds(s.obj, o, r)
  {
    var i :| 0 <= i < |s.strt| && s.strt[i] == o;
    assert IsStr(s.obj, s.strt[i]);
  }

  /** The heap after register dst got a reference to u. */
  ghost function Referred(h: Heap, th: Ref, dst: nat, u: Ref): Heap
    requires th in h && h[th].Thread? && dst < |h[th].stack|
  {
    h[th := Thread(h[th].stack[dst := Coll(u)], h[th].top)]
  }

  /** Some open upvalue stands for the slot. */
  ghost predicate HasUpval(h: Heap, th: Ref, i: nat) { exists u :: u in h && h[u] == OpenUp(th, i) }

  /** No slot has two open upvalues. */
  ghost predicate OneUpval(h: Heap) {
    forall u, w {:trigger h[u], h[w]} :: u in h && w in h && h[u].OpenUp? && h[w] == h[u] ==> u == w
  }

  lemma AddedOne(h: Heap, r: Ref, th: Ref, i: nat)
    requires r !in h && !HasUpval(h, th, i)
    ensures OneUpval(h) ==> OneUpval(h[r := OpenUp(th, i)])
  {
  }

  /**
   * luaF_findupval: the open upvalue of register i, an old one that may be dead, or the new object r if there is none.
   */
  method FindUpval(g: Collector, dst: nat, i: nat, r: Ref)
    requires g.Inv()
    modifies g`obj, g`mark
    ensures g.Inv() && old(g.obj).Keys <= g.obj.Keys
    ensures old(dst < |Regs(g)| && i < |Regs(g)| && HasUpval(g.obj, g.running, i)) ==>
      exists u :: u in old(g.obj) && old(g.obj)[u] == OpenUp(g.running, i)
          && g.obj == Referred(old(g.obj), g.running, dst, u)
    ensures old(dst < |Regs(g)| && i < |Regs(g)| && !HasUpval(g.obj, g.running, i)) && r !in old(g.obj) && r !in g.fixed
        ==> g.obj == Referred(old(g.obj)[r := OpenUp(g.running, i)], g.running, dst, r)
    ensures old(dst >= |Regs(g)| || i >= |Regs(g)|) ==> g.obj == old(g.obj)
    ensures old(!HasUpval(g.obj, g.running, i) && (r in g.obj || r in g.fixed)) ==> g.obj == old(g.obj)
    ensures OneUpval(old(g.obj)) ==> OneUpval(g.obj)
  {
    hide *;
    RunningThread(g);
    if dst < |Regs(g)| && i < |Regs(g)| {
      var us := set u | u in g.obj && g.obj[u] == OpenUp(g.running, i);
      UpvalSet(g.obj, g.running, i, us);
      RegAlive(g, i);
      SnapInv(g);
      if us != {} {
        var u :| u in us;
        UpvalHolds(Snap(g), u, i);
        Revive(g, u);
        RunningThread(g);
        ReferredIs(g.obj, g.running, dst, u);
        RegsSet(g, dst, u);
      } else if r !in g.obj && r !in g.fixed {
        AddedOne(g.obj, r, g.running, i);
        AddUpval(g, r, i);
        RunningThread(g);
        ReferredIs(g.obj, g.running, dst, r);
        RegsSet(g, dst, r);
      }
    }
  }

  method RegsSet(g: Collector, dst: nat, u: Ref)
    requires g.Inv() && dst < |Regs(g)| && u in g.obj && g.obj[u].OpenUp? && AliveS(Snap(g), Coll(u))
    modifies g`obj
    ensures g.Inv() && old(g.obj).Keys <= g.obj.Keys
    ensures g.running in old(g.obj) && old(g.obj)[g.running].Thread? && dst < |old(g.obj)[g.running].stack|
        && g.obj == Referred(old(g.obj), g.running, dst, u)
  {
    hide *;
    RunningThread(g);
    ReferredIs(g.obj, g.running, dst, u);
    SetReg(g, dst, Coll(u));
  }

  lemma ReferredIs(h: Heap, th: Ref, dst: nat, u: Ref)
    requires th in h && h[th].Thread? && dst < |h[th].stack|
    ensures Referred(h, th, dst, u) == h[th := Thread(h[th].stack[dst := Coll(u)], h[th].top)]
    ensures Referred(h, th, dst, u).Keys == h.Keys && (OneUpval(h) ==> OneUpval(Referred(h, th, dst, u)))
  {
  }

  lemma UpvalSet(h: Heap, th: Ref, i: nat, us: set<Ref>)
    requires us == set u | u in h && h[u] == OpenUp(th, i)
    ensures us == {} <==> !HasUpval(h, th, i)
    ensures forall u :: u in us ==> u in h && h[u] == OpenUp(th, i)
  {
    assert forall u :: u in us <==> u in h && h[u] == OpenUp(th, i);
  }

  lemma UpvalHolds(s: Snapshot, u: Ref, i: nat)
    requires InvS(s) && u in s.obj && s.obj[u] == OpenUp(s.rs.running, i) && i < |s.obj[s.rs.running].stack|
    ensures forall r :: Holds(s.obj, u, r) ==> AliveS(s, Coll(r))
  {
    SlotAlive(s, i);
  }

  method AddUpval(g: Collector, r: Ref, i: nat)
    requires g.Inv() && r !in g.obj && r !in g.fixed && i < |Regs(g)|
    modifies g`obj, g`mark
    ensures g.Inv() && g.obj == old(g.obj)[r := OpenUp(g.running, i)]
        && g.mark == old(g.mark)[r := White(g.currentwhite)]
    ensures AliveS(Snap(g), Coll(r)) && Regs(g) == old(Regs(g))
  {
    hide *;
    RunningThread(g);
    RegAlive(g, i);
    SnapInv(g);
    ghost var s := Snap(g);
    AddedInv(s, r, OpenUp(g.running, i));
    AddedIs(s, r, OpenUp(g.running, i));
    g.obj := g.obj[r := OpenUp(g.running, i)];
    g.mark := g.mark[r := White(g.currentwhite)];
    SnapInv(g);
    RunningThread(g);
  }

  // ---- luaF_close (lfunc.c:91-105, lgc.c:188-202)

  /** The state after the open upvalue u got its own value and the colour c. */
  ghost function Closing(s: Snapshot, u: Ref, c: Color): Snapshot {
    if u in s.obj && s.obj[u].OpenUp?
    then s.(obj := s.obj[u := ClosedUp(StackAt(s.obj, s.obj[u].th, s.obj[u].idx))], mark := s.mark[u := c], allgc := [u]
        + s.allgc)
    else s
  }

  lemma ClosingBase(s: Snapshot, u: Ref, c: Color)
    requires BaseS(s) && u in s.obj && s.obj[u].OpenUp? && Alive(s.mark, s.cw, s.fixed, u)
        && (c.White? ==> c == White(s.cw))
    ensures BaseS(Closing(s, u, c))
  {
    hide Covered, AliveClosed, RootsAlive, StringsOk;
    var s2 := Closing(s, u, c);
    assert s.obj[s.obj[u].th].Thread? && s.obj[u].idx < |s.obj[s.obj[u].th].stack|;
    ClosedBase(s.obj, s2.obj, s.mark, s2.mark, s.cw, s.fixed, s.strt, s.allgc, s.rs.main, u);
    RootsSame(s.mark, s2.mark, s.cw, s.fixed, s.rs);
  }

  /** While marking: u is white, or it turns from gray to black with its value marked. */
  lemma ClosingMark(s: Snapshot, u: Ref, c: Color)
    requires MarkS(s) && u in s.obj && s.obj[u].OpenUp? && s.rs.main != u
    requires (s.mark[u].White? && c == s.mark[u]) || (s.mark[u].Gray? && c == Black && AllHeldMarked(s.obj, s.mark, u))
    ensures MarkS(Closing(s, u, c))
  {
    hide Holds, Linked, Marked;
    var s2 := Closing(s, u, c);
    var L := multiset(s.gray) + Linked(s.lists);
    assert s.obj[s.obj[u].th].Thread? && s.obj[u].idx < |s.obj[s.obj[u].th].stack|;
    CloseHolds(s.obj, u);
    ClosingMarks(s, u, c);
    forall o | o in s2.obj && s2.mark[o].Black? ensures AllHeldMarked(s2.obj, s2.mark, o) && !s2.obj[o].Thread?
        && !s2.obj[o].OpenUp? {
      assert AllHeldMarked(s.obj, s.mark, o);
      forall r | Holds(s2.obj, o, r) ensures Marked(s2.mark, r) { assert Holds(s.obj, o, r) && Marked(s.mark, r); }
    }
    forall o: Ref ensures L[o] == if NeedsList(s2.obj, s2.mark, o) then 1 else 0 {
      assert L[o] == if NeedsList(s.obj, s.mark, o) then 1 else 0;
    }
    assert HeapOk(s2.obj) by {
      forall o, r | o in s2.obj && Holds(s2.obj, o, r) ensures r in s2.obj { assert Holds(s.obj, o, r); }
    }
  }

  lemma ClosingMarks(s: Snapshot, u: Ref, c: Color)
    requires MarkS(s) && u in s.obj && s.obj[u].OpenUp? && s.rs.main != u && (c.White? ==> c == s.mark[u])
    ensures var s2 := Closing(s, u, c);
      Grows(s.mark, s2.mark) && Marked(s2.mark, s.rs.main) && OneWhite(s2.mark, s.cw) && ListsOk(s2.obj, s.lists)
          && AllweakMeta(s2.obj, s2.mark, s.lists.allweak)
  {
    hide Tri;
    var s2 := Closing(s, u, c);
    TriParts(s.obj, s.mark, multiset(s.gray) + Linked(s.lists));
    assert Grows(s.mark, s2.mark);
    MetaMono(s.obj, s.mark, s2.mark, s.lists.allweak);
    forall i | 0 <= i < |s.lists.allweak| ensures MetaDone(s2.obj, s2.mark, s.lists.allweak[i]) {
      assert MetaDone(s.obj, s2.mark, s.lists.allweak[i]);
    }
  }

  lemma ClosingInv(s: Snapshot, u: Ref, c: Color)
    requires InvS(s) && (s.phase.Propagate? || s.phase.Pause?) && u in s.obj && s.obj[u].OpenUp?
    requires (s.mark[u].White? && c == s.mark[u]) || (s.phase.Propagate? && s.mark[u].Gray? && c == Black
        && AllHeldMarked(s.obj, s.mark, u))
    ensures InvS(Closing(s, u, c))
  {
    hide Base, Tri, ListsOk, AllweakMeta, RootsAlive;
    InvKeys(s);
    assert Alive(s.mark, s.cw, s.fixed, u) && (c.White? ==> c == White(s.cw));
    ClosingBase(s, u, c);
    if s.phase.Propagate? { ClosingMark(s, u, c); }
  }

  /**
   * One round of luaF_close: a dead upvalue is freed; a live one goes to allgc with its own value, and
   * luaC_checkupvalcolor turns a gray one black with its value marked while marking, and white while sweeping.
   */
  method CloseOne(g: Collector, u: Ref)
    requires g.Inv() && u in g.obj && g.obj[u].OpenUp?
    modifies g`obj, g`mark, g`gray, g`allgc
    ensures g.Inv()
    ensures g.obj == if IsDead(old(g.mark), g.currentwhite, g.fixed, u) then old(g.obj) - {u}
                     else old(g.obj)[u := ClosedUp(old(StackAt(g.obj, g.obj[u].th, g.obj[u].idx)))]
    ensures g.OnlyDeadFreed(old(g.mark), g.mark)
  {
    hide *;
    SnapInv(g);
    ghost var s := Snap(g);
    InvKeys(s);
    g.InvUnfold();
    if g.phase.Propagate? || g.phase.Pause? {
      OpenColor(s, u);
      CloseMarking(g, u);
      SnapInv(g);
      NoneDead(g, s, Snap(g));
    } else {
      g.SameStart(g.obj, g.mark);
      if IsDead(g.mark, g.currentwhite, g.fixed, u) {
        g.FreeUpval(u);
        g.FreedDead(s.obj, s.mark, s.obj, s.mark, u);
      } else {
        g.AliveOf(u);
        g.CloseSweeping(u);
        UpThread(s, u);
        g.ClosedSame(s.obj, s.mark, s.obj, s.mark, u, g.obj, g.mark);
      }
      g.InvFold();
    }
  }

  lemma NoneDead(g: Collector, s: Snapshot, s2: Snapshot)
    requires InvS(s) && InvS(s2) && (s.phase.Propagate? || s.phase.Pause?) && s2.phase == s.phase
        && s2.obj.Keys == s.obj.Keys
    requires s.cw == s2.cw == g.currentwhite && s.fixed == s2.fixed == g.fixed
    ensures g.OnlyDeadFreed(s.mark, s2.mark)
  {
  }

  lemma UpThread(s: Snapshot, u: Ref)
    requires InvS(s) && u in s.obj && s.obj[u].OpenUp?
    ensures s.obj[u].th in s.obj && s.obj[s.obj[u].th].Thread?
  {
  }

  lemma OpenColor(s: Snapshot, u: Ref)
    requires InvS(s) && u in s.obj && s.obj[u].OpenUp? && (s.phase.Propagate? || s.phase.Pause?)
    ensures u in s.mark && !s.mark[u].Black? && !IsDead(s.mark, s.cw, s.fixed, u)
        && (s.phase.Pause? ==> s.mark[u].White?)
    ensures s.obj[u].th in s.obj && s.obj[s.obj[u].th].Thread? && s.obj[u].idx < |s.obj[s.obj[u].th].stack|
    ensures StackAt(s.obj, s.obj[u].th, s.obj[u].idx) == s.obj[s.obj[u].th].stack[s.obj[u].idx]
  {
  }

  method CloseMarking(g: Collector, u: Ref)
    requires g.Inv() && u in g.obj && g.obj[u].OpenUp? && (g.phase.Propagate? || g.phase.Pause?)
    modifies g`obj, g`mark, g`gray, g`allgc
    ensures g.Inv() && g.obj == old(g.obj)[u := ClosedUp(old(StackAt(g.obj, g.obj[u].th, g.obj[u].idx)))]
  {
    hide *;
    SnapInv(g);
    OpenColor(Snap(g), u);
    var v := g.obj[g.obj[u].th].stack[g.obj[u].idx];
    var c := g.mark[u];
    if g.mark[u].Gray? {
      c := Black;
      UpvalMarked(g, u, v);
    }
    ghost var s := Snap(g);
    SnapInv(g);
    ClosingIs(s, u, c);
    OpenColor(s, u);
    ClosingInv(s, u, c);
    g.obj := g.obj[u := ClosedUp(v)];
    g.mark := g.mark[u := c];
    g.allgc := [u] + g.allgc;
    SnapInv(g);
  }

  lemma ClosingIs(s: Snapshot, u: Ref, c: Color)
    requires u in s.obj && s.obj[u].OpenUp?
    ensures Closing(s, u, c) == s.(obj := s.obj[u := ClosedUp(StackAt(s.obj, s.obj[u].th, s.obj[u].idx))],
        mark := s.mark[u := c], allgc := [u] + s.allgc)
  {
  }

  /** markvalue on the value of a gray open upvalue. */
  method UpvalMarked(g: Collector, u: Ref, v: Value)
    requires g.Inv() && g.phase.Propagate? && u in g.obj && g.obj[u].OpenUp? && u in g.mark && g.mark[u].Gray?
    requires v == StackAt(g.obj, g.obj[u].th, g.obj[u].idx)
    modifies g`mark, g`gray
    ensures g.Inv() && u in g.mark && g.mark[u].Gray? && AllHeldMarked(g.obj, g.mark, u)
  {
    hide *;
    SnapInv(g);
    ghost var s := Snap(g);
    MarkReady(g);
    UpvalValue(s, u, v);
    g.MarkValue(v, g.obj.Keys);
    UpvalStays(s, g.mark, g.gray, u, v, g.obj.Keys);
    MarkedInv(s, g.mark, g.gray, g.obj.Keys);
    SnapInv(g);
  }

  lemma UpvalValue(s: Snapshot, u: Ref, v: Value)
    requires InvS(s) && s.phase.Propagate? && u in s.obj && s.obj[u].OpenUp?
        && v == StackAt(s.obj, s.obj[u].th, s.obj[u].idx)
    ensures v.Coll? ==> v.ref in s.obj
  {
    if v.Coll? { assert Holds(s.obj, u, v.ref); }
  }

  lemma UpvalStays(s: Snapshot, m2: Colors, g2: seq<Ref>, u: Ref, v: Value, T: set<Ref>)
    requires Marks(s.obj, s.mark, s.gray, m2, g2, T) && u in s.obj && u in s.mark && s.mark[u].Gray? && ValMarked(m2, v)
    requires s.obj[u].OpenUp? && v == StackAt(s.obj, s.obj[u].th, s.obj[u].idx)
    ensures u in m2 && m2[u].Gray? && AllHeldMarked(s.obj, m2, u)
  {
  }

  /**
   * luaF_close: no open upvalue of the running thread at or above the level is left: dead ones are freed, the others
   * have the value of their slot as their own.  Nothing else changes.
   */
  method Close(g: Collector, level: nat)
    requires g.Inv()
    modifies g`obj, g`mark, g`gray, g`allgc
    ensures g.Inv()
    ensures forall u :: u in g.obj && g.obj[u].OpenUp? && g.obj[u].th == g.running ==> g.obj[u].idx < level
    ensures g.OnlyDeadFreed(old(g.mark), g.mark) && g.obj.Keys <= old(g.obj).Keys
    ensures forall u :: u in old(g.obj) ==> (u in g.obj || AtLevel(old(g.obj), g.running, level, u))
    ensures forall u :: u in g.obj ==> g.obj[u] == ClosedAt(old(g.obj), g.running, level, u)
  {
    hide *;
    RunningThread(g);
    ghost var h0 := g.obj;
    var us := set u | u in g.obj && g.obj[u].OpenUp? && g.obj[u].th == g.running && g.obj[u].idx >= level;
    ghost var m0 := g.mark;
    g.SameStart(g.obj, m0);
    AboveStart(g.obj, g.running, level, us);
    while us != {}
      invariant g.Inv() && Above(g.obj, g.running, level, us) && ClosedExcept(h0, g.obj, g.running, level, us)
      invariant g.OnlyDeadFreed(m0, g.mark)
      decreases us
    {
      var u :| u in us;
      ghost var h, m := g.obj, g.mark;
      AboveAt(g.obj, g.running, level, us, u);
      CloseOne(g, u);
      assert us == (us - {u}) + {u};
      us := us - {u};
      RunningThread(g);
      AboveNext(h, g.obj, g.running, level, us, u);
      ClosedNext(h0, h, g.obj, g.running, level, us, u);
      FreedTrans(g, m0, m, g.mark);
    }
    AboveEnd(g.obj, g.running, level);
    ClosedEnd(h0, g.obj, g.running, level);
  }

  /** An open upvalue of the thread, at or above the level. */
  ghost predicate AtLevel(h: Heap, th: Ref, level: nat, u: Ref) {
    u in h && h[u].OpenUp? && h[u].th == th && h[u].idx >= level
  }

  /** What u is after luaF_close, if it is still there. */
  ghost function ClosedAt(h: Heap, th: Ref, level: nat, u: Ref): Obj
    requires u in h
  {
    if AtLevel(h, th, level, u) then ClosedUp(StackAt(h, th, h[u].idx)) else h[u]
  }

  /** All are closed but those of us. */
  ghost predicate ClosedExcept(h0: Heap, h: Heap, th: Ref, level: nat, us: set<Ref>) {
    && h.Keys <= h0.Keys && (forall u :: u in h0 ==> u in h || AtLevel(h0, th, level, u))
    && forall u :: u in h ==> h[u] == if u in us then h0[u] else ClosedAt(h0, th, level, u)
  }

  lemma ClosedNext(h0: Heap, h: Heap, h2: Heap, th: Ref, level: nat, us: set<Ref>, u: Ref)
    requires ClosedExcept(h0, h, th, level, us + {u}) && Above(h, th, level, us + {u}) && u !in us
    requires th in h && h[th].Thread?
    requires u in h && (h2 == h - {u} || h2 == h[u := ClosedUp(StackAt(h, h[u].th, h[u].idx))])
    ensures ClosedExcept(h0, h2, th, level, us)
  {
    assert AtLevel(h0, th, level, u) && h[th] == h0[th];
    hide Above;
  }

  lemma ClosedEnd(h0: Heap, h: Heap, th: Ref, level: nat)
    requires ClosedExcept(h0, h, th, level, {})
    ensures h.Keys <= h0.Keys && (forall u :: u in h0 ==> u in h || AtLevel(h0, th, level, u))
    ensures forall u :: u in h ==> h[u] == ClosedAt(h0, th, level, u)
  {
  }

  /** us are the open upvalues of th at or above the level. */
  ghost predicate Above(h: Heap, th: Ref, level: nat, us: set<Ref>) {
    forall u :: u in us <==> u in h && h[u].OpenUp? && h[u].th == th && h[u].idx >= level
  }

  lemma AboveStart(h: Heap, th: Ref, level: nat, us: set<Ref>)
    requires us == set u | u in h && h[u].OpenUp? && h[u].th == th && h[u].idx >= level
    ensures Above(h, th, level, us) && ClosedExcept(h, h, th, level, us)
  {
    assert forall u :: u in us <==> AtLevel(h, th, level, u);
  }

  lemma AboveAt(h: Heap, th: Ref, level: nat, us: set<Ref>, u: Ref)
    requires Above(h, th, level, us) && u in us
    ensures u in h && h[u].OpenUp?
  {
  }

  lemma AboveNext(h: Heap, h2: Heap, th: Ref, level: nat, us: set<Ref>, u: Ref)
    requires Above(h, th, level, us + {u}) && u !in us
    requires h2 == h - {u} || (u in h2 && h2 == h[u := h2[u]] && h2[u].ClosedUp?)
    ensures Above(h2, th, level, us)
  {
    forall w ensures w in us <==> w in h2 && h2[w].OpenUp? && h2[w].th == th && h2[w].idx >= level {
      assert w in us + {u} <==> w in h && h[w].OpenUp? && h[w].th == th && h[w].idx >= level;
    }
  }

  lemma AboveEnd(h: Heap, th: Ref, level: nat)
    requires Above(h, th, level, {})
    ensures forall u :: u in h && h[u].OpenUp? && h[u].th == th ==> h[u].idx < level
  {
    var none: set<Ref> := {};
    forall u | u in h && h[u].OpenUp? && h[u].th == th ensures h[u].idx < level { assert u !in none; }
  }

  lemma FreedTrans(g: Collector, m0: Colors, m: Colors, m2: Colors)
    requires g.OnlyDeadFreed(m0, m) && g.OnlyDeadFreed(m, m2)
    ensures g.OnlyDeadFreed(m0, m2)
  {
  }

  // ---- Objects being finalized

  /** udata2finalize: the first object being finalized goes back to the program, white if no marking goes on. */
  method PopFinalizer(g: Collector, dst: nat)
    requires g.Inv()
    modifies g`obj, g`mark, g`tobefnz
    ensures g.Inv()
    ensures if dst < old(|Regs(g)|) && old(g.tobefnz) != []
            then var o := old(g.tobefnz)[0];
              && g.obj == old(g.obj)[g.running := Thread(old(Regs(g))[dst := Coll(o)], old(g.obj)[g.running].top)]
              && g.tobefnz == old(g.tobefnz)[1..]
              && g.mark == if g.phase.Propagate? then old(g.mark) else old(g.mark)[o := White(g.currentwhite)]
            else g.obj == old(g.obj) && g.mark == old(g.mark) && g.tobefnz == old(g.tobefnz)
  {
    hide *;
    RunningThread(g);
    if dst < |Regs(g)| && g.tobefnz != [] {
      var o := g.tobefnz[0];
      SnapInv(g);
      FinalizerAlive(g, o);
      SetReg(g, dst, Coll(o));
      SnapInv(g);
      ghost var s := Snap(g);
      ghost var rs := g.Rs().(fnz := g.tobefnz[1..]);
      FewerRoots(s, rs);
      RootsInv(s, rs);
      g.tobefnz := g.tobefnz[1..];
      SnapInv(g);
      if !g.phase.Propagate? {
        ghost var s1 := Snap(g);
        StillAlive(s, s1, o);
        WhitenInv(s1, o);
        g.mark := g.mark[o := White(g.currentwhite)];
        SnapInv(g);
      }
    }
  }

  lemma FinalizerAlive(g: Collector, o: Ref)
    requires g.Inv() && g.tobefnz != [] && o == g.tobefnz[0]
    ensures AliveS(Snap(g), Coll(o))
  {
    SnapInv(g);
    assert IsRoot(g.Rs(), o);
  }

  lemma FewerRoots(s: Snapshot, rs: Roots)
    requires InvS(s) && s.rs.fnz != [] && rs == s.rs.(fnz := s.rs.fnz[1..])
    ensures RootsAlive(s.mark, s.cw, s.fixed, rs) && rs.running in s.obj && s.obj[rs.running].Thread?
        && rs.main == s.rs.main
    ensures Alive(s.mark, s.cw, s.fixed, s.rs.fnz[0])
  {
    assert IsRoot(s.rs, s.rs.fnz[0]);
    forall r | IsRoot(rs, r) ensures Alive(s.mark, s.cw, s.fixed, r) { assert IsRoot(s.rs, r); }
  }

  lemma StillAlive(s: Snapshot, s1: Snapshot, o: Ref)
    requires s1.mark == s.mark && s1.cw == s.cw && s1.fixed == s.fixed && Alive(s.mark, s.cw, s.fixed, o)
    ensures Alive(s1.mark, s1.cw, s1.fixed, o)
  {
  }
}
