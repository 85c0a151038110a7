/**
 * The incremental collector (lgc.c): marking, traversal, the atomic step and the sweep, in place on the collector's
 * fields.
 */
module GcCollector {
  import opened GcState
  import opened GcPhases

  class Collector {
    var obj: Heap
    var mark: Colors
    var gray: seq<Ref>
    var grayagain: seq<Ref>
    var weak: seq<Ref>
    var allweak: seq<Ref>
    var ephemeron: seq<Ref>

    var phase: Phase
    var currentwhite: bool
    var mainthread: Ref
    var running: Ref
    var registry: Value
    var mt: seq<Value>
    var tobefnz: seq<Ref>
    var fixed: set<Ref>
    var strt: seq<Ref>
    var allgc: seq<Ref>
    var sweepstr: nat
    var sweepgc: nat

    /** Tables of the allweak list whose metatable may be anything: empty, except while the effect of an unguarded
        lua_setmetatable on the atomic step is followed. */
    ghost var skip: set<Ref>

    /** lua_newstate: the main thread is the only object, and the collector is in its pause. */
    constructor Start(main: Ref, size: nat)
      ensures Inv() && phase == Pause && obj == map[main := Thread(seq(size, _ => Nil), 0)] && tobefnz == []
      ensures mainthread == running == main && registry == Nil && fixed == {} && forall v :: v in mt ==> v == Nil
    {
      obj := map[main := Thread(seq(size, _ => Nil), 0)];
      mark := map[main := White(false)];
      gray, grayagain, weak, allweak, ephemeron := [], [], [], [], [];
      phase, currentwhite := Pause, false;
      mainthread, running, registry, mt, tobefnz := main, main, Nil, seq(9, _ => Nil), [];
      fixed, strt, allgc, sweepstr, sweepgc, skip := {}, [], [], 0, 0, {};
      new;
      forall r | IsRoot(Rs(), r) ensures r == main {}
    }

    ghost function SL(): Lists
      reads this`grayagain, this`weak, this`allweak, this`ephemeron
    {
      Lists(grayagain, weak, allweak, ephemeron)
    }

    // ---- Marking (lgc.c:239-293)

    /** What marking needs: a heap without dangling pointers, and a set T that holds all it may reach. */
    ghost predicate MarkOk(T: set<Ref>)
      reads this`obj, this`mark, this`skip
    {
      HeapOk(obj) && obj.Keys == mark.Keys && ClosedBut(obj, T, skip)
    }

    predicate IsWhite(v: Value)
      reads this`mark
    {
      v.Coll? && v.ref in mark && mark[v.ref].White?
    }

    /**
     * reallymarkobject: strings, userdata and closed upvalues are visited at once; other objects go to the gray list.
     */
    method ReallyMarkObject(o: Ref, ghost T: set<Ref>)
      requires MarkOk(T) && o in obj && mark[o].White? && (o in T || obj[o].Str?)
      modifies this`mark, this`gray
      ensures Marks(obj, old(mark), old(gray), mark, gray, T) && Marked(mark, o)
      ensures obj[o].Str? ==> Quiet(obj, old(mark), mark) && gray == old(gray)
      decreases |Whites(mark)|, 0
    {
      ghost var m := mark;
      mark := mark[o := Gray];
      ghost var m1, g1 := mark, gray;
      Grayed(obj, m, m1, o);
      if Listable(obj[o]) {
        gray := [o] + gray;
        return;
      }
      MarkFields(o, T);
      if obj[o].OpenUp? {
        MarkedGray(obj, m, g1, m1, mark, gray, o, T);
        return;
      }
      ghost var m2 := mark;
      mark := mark[o := Black];
      MarkedBlack(obj, m, g1, m1, m2, gray, mark, o, T);
    }

    /** The cases of reallymarkobject that visit what o holds at once. */
    method MarkFields(o: Ref, ghost T: set<Ref>)
      requires MarkOk(T) && o in obj && (o in T || obj[o].Str?) && !Listable(obj[o])
      modifies this`mark, this`gray
      ensures Marks(obj, old(mark), old(gray), mark, gray, T)
      ensures AllHeldMarked(obj, mark, o)
      ensures obj[o].Str? ==> mark == old(mark) && gray == old(gray)
      decreases |Whites(mark)|, 2
    {
      ghost var m, g := mark, gray;
      match obj[o] {
        case Str => MarksRefl(obj, m, g, T);
        case Udata(mt, env) =>
          assert mt.Coll? ==> StrongHolds(obj, o, mt.ref);
          assert env.Coll? ==> StrongHolds(obj, o, env.ref);
          MarkValue(mt, T);
          ghost var m1, g1 := mark, gray;
          MarksWhites(obj, m, g, m1, g1, T);
          MarkValue(env, T);
          MarksTrans(obj, m, g, m1, g1, mark, gray, T);
        case ClosedUp(v) =>
          assert v.Coll? ==> StrongHolds(obj, o, v.ref);
          MarkValue(v, T);
        case OpenUp(th, idx) =>
          var v := obj[th].stack[idx];
          assert v.Coll? ==> StrongHolds(obj, o, v.ref);
          MarkValue(v, T);
      }
    }

    /** markvalue, markobject */
    method MarkValue(v: Value, ghost T: set<Ref>)
      requires MarkOk(T)
      requires v.Coll? ==> v.ref in obj && (v.ref in T || obj[v.ref].Str?)
      modifies this`mark, this`gray
      ensures Marks(obj, old(mark), old(gray), mark, gray, T) && ValMarked(mark, v)
      decreases |Whites(mark)|, 1
    {
      MarksRefl(obj, mark, gray, T);
      if IsWhite(v) {
        ReallyMarkObject(v.ref, T);
      }
    }

    method MarkValues(vs: seq<Value>, ghost T: set<Ref>)
      requires MarkOk(T)
      requires forall i :: 0 <= i < |vs| && vs[i].Coll? ==> vs[i].ref in obj && (vs[i].ref in T || obj[vs[i].ref].Str?)
      modifies this`mark, this`gray
      ensures Marks(obj, old(mark), old(gray), mark, gray, T) && AllMarked(mark, vs)
    {
      ghost var m, g := mark, gray;
      MarksRefl(obj, m, g, T);
      for i := 0 to |vs|
        invariant Marks(obj, m, g, mark, gray, T)
        invariant forall j :: 0 <= j < i ==> ValMarked(mark, vs[j])
      {
        ghost var m1, g1 := mark, gray;
        MarkValue(vs[i], T);
        MarksTrans(obj, m, g, m1, g1, mark, gray, T);
      }
    }

    /** iscleared: strings are never weak, so a string is marked here and kept. */
    method IsCleared(v: Value, ghost T: set<Ref>) returns (cleared: bool)
      requires MarkOk(T) && (v.Coll? ==> v.ref in obj)
      modifies this`mark, this`gray
      ensures Quiet(obj, old(mark), mark) && gray == old(gray)
      ensures cleared <==> KeyCleared(obj, mark, v)
      ensures !cleared ==> ValMarked(mark, v)
    {
      if !v.Coll? {
        cleared := false;
      } else if obj[v.ref].Str? {
        if mark[v.ref].White? {
          ReallyMarkObject(v.ref, T);
        }
        cleared := false;
      } else {
        cleared := mark[v.ref].White?;
      }
    }

    /** removeentry: the unmarked key of an empty entry becomes a dead key. */
    function RemoveEntry(n: Node): (r: Node)
      reads this`mark
      ensures r.val == n.val && r.key.v == n.key.v && (r != n ==> n.key.Live? && r.key.DeadKey? && IsWhite(n.key.v))
    {
      if n.key.Live? && IsWhite(n.key.v) then n.(key := DeadKey(n.key.v)) else n
    }

    // ---- Traversal of tables (lgc.c:358-469)

    method TraverseStrongTable(h: Ref, ghost T: set<Ref>)
      requires MarkOk(T) && h in obj && obj[h].Table? && obj[h].mode.Strong? && h in T && h !in skip
          && ValMarked(mark, obj[h].meta)
      modifies this`obj, this`mark, this`gray
      ensures Trims(old(obj), obj) && Shrinks(old(obj), obj) && Marks(old(obj), old(mark), old(gray), mark, gray, T)
      ensures AllHeldMarked(obj, mark, h)
    {
      ghost var m, g := mark, gray;
      assert forall i :: 0 <= i < |obj[h].arr| && obj[h].arr[i].Coll? ==> StrongHolds(obj, h, obj[h].arr[i].ref);
      MarkValues(obj[h].arr, T);
      ghost var m1, g1 := mark, gray;
      var node := StrongNodes(h, T);
      MarksTrans(obj, m, g, m1, g1, mark, gray, T);
      ghost var a := obj;
      obj := obj[h := obj[h].(node := node)];
      NodesWritten(a, obj, h, node);
      TableMarked(obj, mark, h);
    }

    /** The loop of traversestrongtable over the hash part. */
    method StrongNodes(h: Ref, ghost T: set<Ref>) returns (node: seq<Node>)
      requires MarkOk(T) && h in obj && obj[h].Table? && obj[h].mode.Strong? && h in T && h !in skip
      modifies this`mark, this`gray
      ensures Marks(obj, old(mark), old(gray), mark, gray, T)
      ensures NodesTrim(obj[h].node, node)
      ensures forall j :: 0 <= j < |node| ==> EntryMarked(mark, node[j])
    {
      ghost var m, g := mark, gray;
      MarksRefl(obj, m, g, T);
      node := obj[h].node;
      for i := 0 to |node|
        invariant Marks(obj, m, g, mark, gray, T)
        invariant NodesTrim(obj[h].node, node) && forall j :: i <= j < |node| ==> node[j] == obj[h].node[j]
        invariant forall j :: 0 <= j < i ==> EntryMarked(mark, node[j])
      {
        if node[i].val == Nil {
          node := node[i := RemoveEntry(node[i])];
        } else {
          ghost var m1, g1 := mark, gray;
          EntryRefs(obj, h, i);
          assert node[i].key.v.Coll? ==> StrongHolds(obj, h, node[i].key.v.ref);
          assert node[i].val.Coll? ==> StrongHolds(obj, h, node[i].val.ref);
          MarkValue(node[i].key.v, T);
          ghost var m2, g2 := mark, gray;
          MarkValue(node[i].val, T);
          MarksTrans(obj, m1, g1, m2, g2, mark, gray, T);
          MarksTrans(obj, m, g, m1, g1, mark, gray, T);
        }
      }
    }

    /** traverseweakvalue: marks the keys and links the table to be cleared later, or to be visited again. */
    method TraverseWeakValue(h: Ref, ghost T: set<Ref>) returns (ghost d: Dest)
      requires MarkOk(T) && h in obj && obj[h].Table? && obj[h].mode.WeakValues? && h in T && h !in skip
          && ValMarked(mark, obj[h].meta) && mark[h].Gray?
      modifies this`obj, this`mark, this`gray, this`weak, this`grayagain
      ensures Trims(old(obj), obj) && Shrinks(old(obj), obj) && Marks(old(obj), old(mark), old(gray), mark, gray, T)
      ensures SL() == Put(old(SL()), h, d) && Outcome(obj, mark, h, d, phase.Atomic?)
    {
      var node, hasclears := WeakValueNodes(h, T);
      MarksWhites(obj, old(mark), old(gray), mark, gray, T);
      ghost var a := obj;
      obj := obj[h := obj[h].(node := node)];
      NodesWritten(a, obj, h, node);
      if hasclears {
        weak := [h] + weak;
        d := ToWeak;
      } else {
        TableMarked(obj, mark, h);
        grayagain := [h] + grayagain;
        d := Again;
      }
    }

    method WeakValueNodes(h: Ref, ghost T: set<Ref>) returns (node: seq<Node>, hasclears: bool)
      requires MarkOk(T) && h in obj && obj[h].Table? && obj[h].mode.WeakValues? && h in T && h !in skip
      modifies this`mark, this`gray
      ensures Marks(obj, old(mark), old(gray), mark, gray, T)
      ensures NodesTrim(obj[h].node, node)
      ensures forall j :: 0 <= j < |node| ==> KeyMarked(mark, node[j])
      ensures !hasclears ==> obj[h].arr == [] && forall j :: 0 <= j < |node| ==> EntryMarked(mark, node[j])
    {
      ghost var m, g := mark, gray;
      MarksRefl(obj, m, g, T);
      node := obj[h].node;
      hasclears := |obj[h].arr| > 0;  // the array part is not looked at
      for i := 0 to |node|
        invariant Marks(obj, m, g, mark, gray, T)
        invariant NodesTrim(obj[h].node, node) && forall j :: i <= j < |node| ==> node[j] == obj[h].node[j]
        invariant forall j :: 0 <= j < i ==> KeyMarked(mark, node[j])
        invariant !hasclears ==> obj[h].arr == [] && forall j :: 0 <= j < i ==> EntryMarked(mark, node[j])
      {
        if node[i].val == Nil {
          node := node[i := RemoveEntry(node[i])];
        } else {
          ghost var m1, g1 := mark, gray;
          EntryRefs(obj, h, i);
          assert node[i].key.v.Coll? ==> StrongHolds(obj, h, node[i].key.v.ref);
          MarkValue(node[i].key.v, T);
          ghost var m2 := mark;
          MarksTrans(obj, m, g, m1, g1, mark, gray, T);
          if !hasclears {
            hasclears := IsCleared(node[i].val, T);
            QuietMarks(obj, m2, mark, gray, T);
            MarksTrans(obj, m1, g1, m2, gray, mark, gray, T);
            MarksTrans(obj, m, g, m1, g1, mark, gray, T);
          }
        }
      }
    }

    /**
     * traverseephemeron: marks the array part and the values whose keys are kept, and links the table by what is left
     * to do. Returns whether an object was marked.
     */
    method TraverseEphemeron(h: Ref, ghost T: set<Ref>) returns (marked: bool, ghost d: Dest)
      requires MarkOk(T) && Within(obj, mark, T)
      requires h in obj && obj[h].Table? && obj[h].mode.EphemeronKeys? && h in T && h !in skip
          && ValMarked(mark, obj[h].meta) && mark[h].Gray?
      modifies this`obj, this`mark, this`gray, this`ephemeron, this`allweak, this`grayagain
      ensures Trims(old(obj), obj) && Shrinks(old(obj), obj) && Marks(old(obj), old(mark), old(gray), mark, gray, T)
      ensures !marked ==> Quiet(old(obj), old(mark), mark) && gray == old(gray)
      ensures marked ==> Whites(mark) != Whites(old(mark))
      ensures !marked && d.ToEphemeron? ==> EphSettled(obj, mark, h)
      ensures SL() == Put(old(SL()), h, d) && Outcome(obj, mark, h, d, phase.Atomic?)
    {
      var node, prop, hasclears;
      node, marked, prop, hasclears := EphemeronParts(h, T);
      ghost var a := obj;
      obj := obj[h := obj[h].(node := node)];
      NodesWritten(a, obj, h, node);
      assert MetaDone(obj, mark, h) && AllMarked(mark, obj[h].arr);
      if prop {
        forall i | 0 <= i < |node| && !marked ensures Settled(obj, mark, node[i]) {
          SettledShrink(a, obj, mark, node[i]);
        }
        ephemeron := [h] + ephemeron;
        d := ToEphemeron;
      } else if hasclears {
        allweak := [h] + allweak;
        d := ToAllweak;
      } else {
        TableMarked(obj, mark, h);
        grayagain := [h] + grayagain;
        d := Again;
      }
    }

    /** The array part, then the hash part. */
    method EphemeronParts(h: Ref, ghost T: set<Ref>)
        returns (node: seq<Node>, marked: bool, prop: bool, hasclears: bool)
      requires MarkOk(T) && Within(obj, mark, T) && h in obj && obj[h].Table? && obj[h].mode.EphemeronKeys? && h in T
          && h !in skip
      modifies this`mark, this`gray
      ensures Marks(obj, old(mark), old(gray), mark, gray, T) && Grows(old(mark), mark)
      ensures NodesTrim(obj[h].node, node) && AllMarked(mark, obj[h].arr)
      ensures !marked ==> Quiet(obj, old(mark), mark) && gray == old(gray)
      ensures marked ==> Whites(mark) != Whites(old(mark))
      ensures !marked ==> forall j :: 0 <= j < |node| ==> Settled(obj, mark, node[j])
      ensures !prop ==> forall j :: 0 <= j < |node| ==> ValueMarked(mark, node[j])
      ensures !hasclears ==> forall j :: 0 <= j < |node| ==> EntryMarked(mark, node[j])
    {
      ghost var m, g := mark, gray;
      var marked1 := EphemeronArray(h, T);
      ghost var m1, g1 := mark, gray;
      MarksWithin(obj, m, g, m1, g1, T);
      node, marked, prop, hasclears := EphemeronNodes(h, T);
      MarksWhites(obj, m, g, m1, g1, T);
      MarksWhites(obj, m1, g1, mark, gray, T);
      marked := marked1 || marked;
      MarksTrans(obj, m, g, m1, g1, mark, gray, T);
    }

    /** The array part of an ephemeron table: numeric keys are strong. */
    method EphemeronArray(h: Ref, ghost T: set<Ref>) returns (marked: bool)
      requires MarkOk(T) && h in obj && obj[h].Table? && obj[h].mode.EphemeronKeys? && h in T && h !in skip
      modifies this`mark, this`gray
      ensures Marks(obj, old(mark), old(gray), mark, gray, T)
      ensures AllMarked(mark, obj[h].arr)
      ensures !marked ==> mark == old(mark) && gray == old(gray)
      ensures marked ==> Whites(mark) != Whites(old(mark))
    {
      ghost var m, g := mark, gray;
      MarksRefl(obj, m, g, T);
      var arr := obj[h].arr;
      assert forall i ::
          0 <= i < |arr| && arr[i].Coll? ==> StrongHolds(obj, h, arr[i].ref) && Holds(obj, h, arr[i].ref);
      marked := false;
      for i := 0 to |arr|
        invariant Marks(obj, m, g, mark, gray, T)
        invariant forall j :: 0 <= j < i ==> ValMarked(mark, arr[j])
        invariant !marked ==> mark == m && gray == g
        invariant marked ==> Whites(mark) != Whites(m)
      {
        if IsWhite(arr[i]) {
          ghost var m1, g1 := mark, gray;
          marked := true;
          MarksWhites(obj, m, g, m1, g1, T);
          ReallyMarkObject(arr[i].ref, T);
          assert arr[i].ref in Whites(m) && arr[i].ref !in Whites(mark);
          MarksTrans(obj, m, g, m1, g1, mark, gray, T);
        }
      }
    }

    /**
     * The hash part: a value is marked when its key is kept; prop says that some white key still hides a white value.
     */
    method EphemeronNodes(h: Ref, ghost T: set<Ref>)
        returns (node: seq<Node>, marked: bool, prop: bool, hasclears: bool)
      requires MarkOk(T) && Within(obj, mark, T) && h in obj && obj[h].Table? && obj[h].mode.EphemeronKeys? && h in T
          && h !in skip
      modifies this`mark, this`gray
      ensures Marks(obj, old(mark), old(gray), mark, gray, T)
      ensures NodesTrim(obj[h].node, node)
      ensures !marked ==> Quiet(obj, old(mark), mark) && gray == old(gray)
      ensures marked ==> Whites(mark) != Whites(old(mark))
      ensures !marked ==> forall j :: 0 <= j < |node| ==> Settled(obj, mark, node[j])
      ensures !prop ==> forall j :: 0 <= j < |node| ==> ValueMarked(mark, node[j])
      ensures !hasclears ==> forall j :: 0 <= j < |node| ==> EntryMarked(mark, node[j])
    {
      ghost var m, g := mark, gray;
      MarksRefl(obj, m, g, T);
      node := obj[h].node;
      marked, prop, hasclears := false, false, false;
      for i := 0 to |node|
        invariant Marks(obj, m, g, mark, gray, T) && MarkedSome(obj, m, mark, marked) && (!marked ==> gray == g)
        invariant NodesTrim(obj[h].node, node) && forall j :: i <= j < |node| ==> node[j] == obj[h].node[j]
        invariant EphSoFar(obj, mark, node, i, marked, prop, hasclears)
      {
        if node[i].val == Nil {
          node := node[i := RemoveEntry(node[i])];
        } else {
          ghost var m1, g1 := mark, gray;
          MarksWithin(obj, m, g, m1, g1, T);
          var mk, c, p := EphemeronStep(h, i, T);
          EphAdvance(obj, m1, mark, node, i, marked, prop, hasclears, mk, c, p)
              by { MarksTrans(obj, m, g, m1, g1, mark, gray, T); }
          SomeTrans(obj, m, g, m1, g1, mark, gray, T, marked, mk);
          marked, hasclears, prop := marked || mk, hasclears || c, prop || p;
        }
      }
    }

    /** One non-empty entry: was an object marked, is the key white, does a white key hide a white value. */
    method EphemeronStep(h: Ref, i: nat, ghost T: set<Ref>) returns (mk: bool, c: bool, p: bool)
      requires MarkOk(T) && Within(obj, mark, T) && h in obj && obj[h].Table? && obj[h].mode.EphemeronKeys? && h in T
          && h !in skip
      requires i < |obj[h].node| && obj[h].node[i].val != Nil
      modifies this`mark, this`gray
      ensures Marks(obj, old(mark), old(gray), mark, gray, T)
      ensures !mk ==> Quiet(obj, old(mark), mark) && gray == old(gray) && Settled(obj, mark, obj[h].node[i])
      ensures mk ==> Whites(mark) != Whites(old(mark))
      ensures !p ==> ValueMarked(mark, obj[h].node[i])
      ensures !c ==> EntryMarked(mark, obj[h].node[i])
    {
      ghost var m, g := mark, gray;
      var n := obj[h].node[i];
      EntryRefs(obj, h, i);
      mk, p := false, false;
      c := IsCleared(n.key.v, T);
      ghost var m1 := mark;
      QuietMarks(obj, m, m1, g, T);
      if c {
        p := IsWhite(n.val);
      } else if IsWhite(n.val) {
        mk := true;
        MarksWithin(obj, m, g, m1, g, T);
        assert EphemeronEntry(obj, h, i);
        assert n.key.v.Coll? ==> Marked(m1, n.key.v.ref);
        assert KeyIn(obj, n.key.v, T);
        ReallyMarkObject(n.val.ref, T);
        assert n.val.ref in Whites(m) && n.val.ref !in Whites(mark);
        MarksTrans(obj, m, g, m1, g, mark, gray, T);
      }
    }

    /** traversetable: a table with weak keys or values stays gray. */
    method TraverseTable(h: Ref, ghost T: set<Ref>) returns (ghost d: Dest)
      requires MarkOk(T) && Within(obj, mark, T) && h in obj && obj[h].Table? && h in T && h !in skip && mark[h].Black?
      modifies this`obj, this`mark, this`gray, this`grayagain, this`weak, this`allweak, this`ephemeron
      ensures Trims(old(obj), obj) && Shrinks(old(obj), obj) && h in mark
      ensures Marks(old(obj), old(mark)[h := Gray], old(gray), mark[h := Gray], gray, T)
      ensures SL() == Put(old(SL()), h, d) && Outcome(obj, mark, h, d, phase.Atomic?)
    {
      ghost var m, g := mark, gray;
      MarkMeta(h, T);
      ghost var m1, g1 := mark, gray;
      if obj[h].mode.Strong? {
        StrongCase(h, T);
        d := Finished;
        Recolor(old(obj), m1, g1, mark, gray, h, Gray, T);
        MarksTrans(old(obj), m[h := Gray], g, m1[h := Gray], g1, mark[h := Gray], gray, T);
      } else {
        mark := mark[h := Gray];  // on a list of its own from here on
        ghost var m2 := mark;
        assert forall r :: Marked(m1, r) == Marked(m2, r);
        d := WeakCase(h, T);
        MarksTrans(old(obj), m[h := Gray], g, m2, g1, mark, gray, T);
        assert mark[h := Gray] == mark;
      }
    }

    method MarkMeta(h: Ref, ghost T: set<Ref>)
      requires MarkOk(T) && Within(obj, mark, T) && h in obj && obj[h].Table? && h in T && h !in skip && mark[h].Black?
      modifies this`mark, this`gray
      ensures h in mark && mark[h].Black? && ValMarked(mark, obj[h].meta) && Within(obj, mark[h := Gray], T)
      ensures Marks(obj, old(mark), old(gray), mark, gray, T)
      ensures Marks(obj, old(mark)[h := Gray], old(gray), mark[h := Gray], gray, T)
    {
      ghost var m, g := mark, gray;
      assert obj[h].meta.Coll? ==> StrongHolds(obj, h, obj[h].meta.ref) && Holds(obj, h, obj[h].meta.ref);
      MarkValue(obj[h].meta, T);
      Recolor(obj, m, g, mark, gray, h, Gray, T);
      MarksWithin(obj, m, g, mark, gray, T);
      ghost var mg := mark[h := Gray];
      assert mark[h] == m[h];
      forall r | Marked(mg, r) ensures r in T || IsStr(obj, r) { assert Marked(mark, r); }
    }

    method StrongCase(h: Ref, ghost T: set<Ref>)
      requires MarkOk(T) && h in obj && obj[h].Table? && obj[h].mode.Strong? && h in T && h !in skip
          && ValMarked(mark, obj[h].meta) && mark[h].Black?
      modifies this`obj, this`mark, this`gray
      ensures Trims(old(obj), obj) && Shrinks(old(obj), obj) && Marks(old(obj), old(mark), old(gray), mark, gray, T)
      ensures Outcome(obj, mark, h, Finished, phase.Atomic?)
    {
      ghost var a := obj;
      TraverseStrongTable(h, T);
      ShrinkKinds(a, obj, h);
    }

    method WeakCase(h: Ref, ghost T: set<Ref>) returns (ghost d: Dest)
      requires MarkOk(T) && Within(obj, mark, T) && h in obj && obj[h].Table? && !obj[h].mode.Strong? && h in T
          && h !in skip
      requires ValMarked(mark, obj[h].meta) && mark[h].Gray?
      modifies this`obj, this`mark, this`gray, this`grayagain, this`weak, this`allweak, this`ephemeron
      ensures Trims(old(obj), obj) && Shrinks(old(obj), obj) && Marks(old(obj), old(mark), old(gray), mark, gray, T)
      ensures SL() == Put(old(SL()), h, d) && Outcome(obj, mark, h, d, phase.Atomic?)
    {
      if obj[h].mode.WeakValues? {
        d := TraverseWeakValue(h, T);
      } else if obj[h].mode.EphemeronKeys? {
        var marked;
        marked, d := TraverseEphemeron(h, T);
      } else {
        MarksRefl(obj, mark, gray, T);
        TrimsRefl(obj);
        allweak := [h] + allweak;
        d := ToAllweak;
      }
    }

    // ---- Traversal of other objects (lgc.c:472-529)

    method TraverseClosure(h: Ref, ghost T: set<Ref>)
      requires MarkOk(T) && h in obj && obj[h].Closure? && h in T
      modifies this`mark, this`gray
      ensures Marks(obj, old(mark), old(gray), mark, gray, T)
      ensures AllHeldMarked(obj, mark, h)
    {
      var slots := obj[h].slots;
      assert forall i ::
          0 <= i < |slots| && slots[i].Coll? ==> StrongHolds(obj, h, slots[i].ref) && Holds(obj, h, slots[i].ref);
      MarkValues(slots, T);
      forall r | Holds(obj, h, r) ensures Marked(mark, r) {
        var i :| 0 <= i < |slots| && slots[i] == Coll(r);
        assert ValMarked(mark, slots[i]);
      }
    }

    /** traverseproto: an unmarked cache is dropped, the constants, names and nested prototypes are marked. */
    method TraverseProto(h: Ref, ghost T: set<Ref>)
      requires MarkOk(T) && h in obj && obj[h].Proto? && h in T
      modifies this`obj, this`mark, this`gray
      ensures Trims(old(obj), obj) && Shrinks(old(obj), obj) && Marks(old(obj), old(mark), old(gray), mark, gray, T)
      ensures AllHeldMarked(obj, mark, h)
    {
      ghost var a, m, g := obj, mark, gray;
      var consts := obj[h].consts;
      assert forall i ::
          0 <= i < |consts| && consts[i].Coll? ==> StrongHolds(obj, h, consts[i].ref) && Holds(obj, h, consts[i].ref);
      var drop := IsWhite(obj[h].cache);
      MarkValues(consts, T);
      assert Grows(m, mark) by { MarksTrans(a, m, g, m, g, mark, gray, T) by { MarksRefl(a, m, g, T); } }
      if drop {
        obj := obj[h := Proto(Nil, consts)];
      }
      TrimsAt(a, obj, h);
      assert !drop && a[h].cache.Coll? ==> Holds(a, h, a[h].cache.ref) && Marked(m, a[h].cache.ref);
      forall r | Holds(obj, h, r) ensures Marked(mark, r) {
        if Coll(r) in consts {
          var i :| 0 <= i < |consts| && consts[i] == Coll(r);
          assert ValMarked(mark, consts[i]);
        } else {
          assert Marked(m, r);
        }
      }
    }

    /** traversestack: the live slots are marked; in the atomic step the slots above the top are cleared. */
    method TraverseStack(h: Ref, ghost T: set<Ref>)
      requires MarkOk(T) && h in obj && obj[h].Thread? && h in T
      modifies this`obj, this`mark, this`gray
      ensures Trims(old(obj), obj) && Shrinks(old(obj), obj) && Marks(old(obj), old(mark), old(gray), mark, gray, T)
      ensures phase.Atomic? ==> AllHeldMarked(obj, mark, h)
    {
      ghost var a := obj;
      var stack, top := obj[h].stack, obj[h].top;
      forall i | 0 <= i < top && stack[..top][i].Coll? ensures StrongHolds(obj, h, stack[..top][i].ref)
          && Holds(obj, h, stack[..top][i].ref) {
        assert stack[..top][i] == Coll(stack[..top][i].ref);
        assert stack[i] == stack[..top][i];
      }
      MarkValues(stack[..top], T);
      if phase.Atomic? {
        obj := obj[h := Thread(stack[..top] + seq(|stack| - top, _ => Nil), top)];
            // AllHeldMarked needs the dead slots gone
        forall r | Holds(obj, h, r) ensures Marked(mark, r) {
          var i :| 0 <= i < |stack| && obj[h].stack[i] == Coll(r);
          assert ValMarked(mark, stack[..top][i]);
        }
      }
      TrimsAt(a, obj, h);
    }

    // ---- Propagation (lgc.c:532-609)

    /** The main invariant with the collector's own lists; pend are gray objects held in local lists meanwhile. */
    ghost predicate TriOk(pend: multiset<Ref>)
      reads this`obj, this`mark, this`gray, this`grayagain, this`weak, this`allweak, this`ephemeron
    {
      Tri(obj, mark, multiset(gray) + Linked(SL()) + pend) && ListsOk(obj, SL())
    }

    /** The state of a marking phase that reaches nothing outside T. */
    ghost predicate MarkingOk(T: set<Ref>, pend: multiset<Ref>)
      reads this`obj, this`mark, this`gray, this`grayagain, this`weak, this`allweak, this`ephemeron, this`skip
    {
      TriOk(pend) && ClosedBut(obj, T, skip) && Within(obj, mark, T) && Spare(skip, allweak)
    }

    lemma Unfold(T: set<Ref>, pend: multiset<Ref>)
      requires MarkingOk(T, pend)
      ensures Tri(obj, mark, multiset(gray) + Linked(SL()) + pend) && ListsOk(obj, SL()) && ClosedBut(obj, T, skip)
          && Within(obj, mark, T) && Spare(skip, allweak)
    {
    }

    lemma SLIs()
      ensures SL() == Lists(grayagain, weak, allweak, ephemeron)
    {
    }

    lemma Ready(T: set<Ref>)
      requires HeapOk(obj) && obj.Keys == mark.Keys && ClosedBut(obj, T, skip)
      ensures MarkOk(T)
    {
    }

    lemma Fold(T: set<Ref>, pend: multiset<Ref>)
      requires Tri(obj, mark, multiset(gray) + Linked(SL()) + pend) && ListsOk(obj, SL()) && ClosedBut(obj, T, skip)
          && Within(obj, mark, T) && Spare(skip, allweak)
      ensures MarkingOk(T, pend)
    {
    }

    /**
     * propagatemark: traverses one gray object, turning it black, except for threads and weak tables, which stay gray.
     */
    method PropagateMark(ghost T: set<Ref>, ghost pend: multiset<Ref>)
      requires MarkingOk(T, pend) && gray != []
      modifies this`obj, this`mark, this`gray, this`grayagain, this`weak, this`allweak, this`ephemeron
      ensures MarkingOk(T, pend)
      ensures Progress(old(obj), old(mark), old(SL()), obj, mark, SL(), phase.Atomic?)
      ensures Visited(old(gray)[0], old(SL()), SL(), obj, mark, phase.Atomic?) && forall r ::
          r in old(gray)[1..] ==> r in gray
      ensures Whites(mark) <= Whites(old(mark)) && (Whites(mark) == Whites(old(mark)) ==> |gray| < |old(gray)|)
    {
      hide *;
      ghost var a, m, l := obj, mark, SL();
      SLIs();
      Unfold(T, pend);
      var o := gray[0];
      PopGray(obj, mark, gray, l, T, pend, skip);
      mark := mark[o := Black];
      gray := gray[1..];
      ghost var g := gray;
      assert [o] + g == old(gray) && mark[o := Gray] == m;
      Ready(T);
      ghost var d := Traverse(o, T);
      AfterTraversal(a, m, g, obj, mark, gray, o, l, SL(), d, phase.Atomic?, T, pend, skip);
      SLIs();
      Fold(T, pend);
      VisitedIs(o, l, SL(), obj, mark, phase.Atomic?, d);
      StillGray(a, m, g, mark[o := Gray], gray, T);
    }

    method Traverse(o: Ref, ghost T: set<Ref>) returns (ghost d: Dest)
      requires MarkOk(T) && Within(obj, mark[o := Gray], T) && o in obj && Listable(obj[o]) && o in T && o !in skip
          && mark[o].Black?
      modifies this`obj, this`mark, this`gray, this`grayagain, this`weak, this`allweak, this`ephemeron
      ensures Trims(old(obj), obj) && Shrinks(old(obj), obj) && o in mark
      ensures Marks(old(obj), old(mark)[o := Gray], old(gray), mark[o := Gray], gray, T)
      ensures SL() == Put(old(SL()), o, d) && Outcome(obj, mark, o, d, phase.Atomic?)
    {
      ghost var a, m, g := obj, mark, gray;
      assert Within(obj, mark, T) by { assert forall r :: Marked(mark, r) ==> Marked(mark[o := Gray], r); }
      if obj[o].Table? {
        d := TraverseTable(o, T);
        return;
      }
      if obj[o].Thread? {
        mark := mark[o := Gray];  // no barrier protects stacks
        grayagain := [o] + grayagain;
        TraverseStack(o, T);
        d := Again;
      } else {
        if obj[o].Closure? {
          TraverseClosure(o, T);
          TrimsRefl(obj);
        } else {
          TraverseProto(o, T);
        }
        d := Finished;
        Recolor(a, m, g, mark, gray, o, Gray, T);
      }
      ShrinkKinds(a, obj, o);
      assert mark[o].Gray? ==> mark[o := Gray] == mark;
    }

    method PropagateAll(ghost T: set<Ref>, ghost pend: multiset<Ref>)
      requires MarkingOk(T, pend)
      modifies this`obj, this`mark, this`gray, this`grayagain, this`weak, this`allweak, this`ephemeron
      ensures MarkingOk(T, pend) && gray == []
      ensures Progress(old(obj), old(mark), old(SL()), obj, mark, SL(), phase.Atomic?)
      ensures |Whites(mark)| <= |Whites(old(mark))|
    {
      hide *;
      ghost var a, m, l := obj, mark, SL();
      ProgressRefl(a, m, l, phase.Atomic?);
      while gray != []
        invariant MarkingOk(T, pend)
        invariant Progress(a, m, l, obj, mark, SL(), phase.Atomic?)
        invariant |Whites(mark)| <= |Whites(m)|
        decreases |Whites(mark)|, |gray|
      {
        ghost var a1, m1, l1 := obj, mark, SL();
        PropagateMark(T, pend);
        SubsetSize(Whites(mark), Whites(m1));
        ProgressTrans(a, m, l, a1, m1, l1, obj, mark, SL(), phase.Atomic?);
      }
    }

    method PropagateList(l: seq<Ref>, ghost T: set<Ref>, ghost pend: multiset<Ref>)
      requires MarkingOk(T, multiset(l) + pend) && gray == []
      modifies this`obj, this`mark, this`gray, this`grayagain, this`weak, this`allweak, this`ephemeron
      ensures MarkingOk(T, pend) && gray == []
      ensures Progress(old(obj), old(mark), old(SL()), obj, mark, SL(), phase.Atomic?)
      ensures |Whites(mark)| <= |Whites(old(mark))|
    {
      hide *;
      Unfold(T, multiset(l) + pend);
      Attach(obj, mark, gray, l, SL(), pend);
      gray := l;
      Fold(T, pend);
      PropagateAll(T, pend);
    }

    /** retraversegrays: every gray object is visited again, except the tables of the allweak list. */
    method RetraverseGrays(ghost T: set<Ref>)
      requires MarkingOk(T, multiset{}) && phase.Atomic? && OpenDone(obj, mark)
      modifies this`obj, this`mark, this`gray, this`grayagain, this`weak, this`allweak, this`ephemeron
      ensures MarkingOk(T, multiset{}) && gray == [] && ListsDone(obj, mark, SL())
      ensures Progress(old(obj), old(mark), Lists([], [], old(allweak), []), obj, mark, SL(), true)
    {
      hide *;
      var w, ga, ep := weak, grayagain, ephemeron;
      ghost var P1 := multiset(ep) + multiset{};
      ghost var P2 := multiset(w) + P1;
      ghost var P3 := multiset(ga) + P2;
      SLIs();
      Unfold(T, multiset{});
      DetachAll(obj, mark, gray, SL());
      weak, grayagain, ephemeron := [], [], [];
      SLIs();
      ghost var a, m, l := obj, mark, SL();
      Fold(T, P3);
      PropagateAll(T, P3);
      ghost var a1, m1, l1 := obj, mark, SL();
      PropagateList(ga, T, P2);
      ProgressTrans(a, m, l, a1, m1, l1, obj, mark, SL(), true);
      ghost var a2, m2, l2 := obj, mark, SL();
      PropagateList(w, T, P1);
      ProgressTrans(a, m, l, a2, m2, l2, obj, mark, SL(), true);
      ghost var a3, m3, l3 := obj, mark, SL();
      PropagateList(ep, T, multiset{});
      ProgressTrans(a, m, l, a3, m3, l3, obj, mark, SL(), true);
      ProgressAdvance(a, m, l, obj, mark, SL(), true);
      DoneAfter(a, m, l, obj, mark, SL());
    }

    /** convergeephemerons: visits the tables of the ephemeron list until a whole pass marks nothing. */
    method ConvergeEphemerons(ghost T: set<Ref>)
      requires MarkingOk(T, multiset{}) && gray == [] && phase.Atomic? && ListsDone(obj, mark, SL())
      modifies this`obj, this`mark, this`gray, this`grayagain, this`weak, this`allweak, this`ephemeron
      ensures MarkingOk(T, multiset{}) && gray == [] && ListsDone(obj, mark, SL())
      ensures Progress(old(obj), old(mark), old(SL()), obj, mark, SL(), true)
      ensures Converged(obj, mark, ephemeron)
    {
      hide *;
      ghost var a, m, l := obj, mark, SL();
      ProgressRefl(a, m, l, true);
      var changed := true;
      while changed
        invariant MarkingOk(T, multiset{}) && gray == [] && ListsDone(obj, mark, SL())
        invariant Progress(a, m, l, obj, mark, SL(), true)
        invariant !changed ==> Converged(obj, mark, ephemeron)
        decreases |Whites(mark)|, changed
      {
        ghost var a1, m1, l1 := obj, mark, SL();
        changed := ConvergePass(T);
        ProgressTrans(a, m, l, a1, m1, l1, obj, mark, SL(), true);
      }
    }

    /** One pass of convergeephemerons over the list. */
    method ConvergePass(ghost T: set<Ref>) returns (changed: bool)
      requires MarkingOk(T, multiset{}) && gray == [] && phase.Atomic? && ListsDone(obj, mark, SL())
      modifies this`obj, this`mark, this`gray, this`grayagain, this`weak, this`allweak, this`ephemeron
      ensures MarkingOk(T, multiset{}) && gray == [] && ListsDone(obj, mark, SL())
      ensures Progress(old(obj), old(mark), old(SL()), obj, mark, SL(), true)
      ensures !changed ==> Converged(obj, mark, ephemeron)
      ensures |Whites(mark)| <= |Whites(old(mark))| && (changed ==> |Whites(mark)| < |Whites(old(mark))|)
    {
      hide *;
      var next := ephemeron;
      ghost var a, m, l0 := obj, mark, SL();
      SLIs();
      Unfold(T, multiset{});
      ghost var l := DetachEphemerons(obj, mark, gray, l0);
      ephemeron := [];
      SLIs();
      Fold(T, multiset(next));
      changed := false;
      while next != []
        invariant MarkingOk(T, multiset(next)) && gray == [] && ListsDone(obj, mark, SL())
            && AllEphDone(obj, mark, next)
        invariant Progress(a, m, l, obj, mark, SL(), true)
        invariant !changed ==> Converged(obj, mark, ephemeron)
        invariant |Whites(mark)| <= |Whites(m)| && (changed ==> |Whites(mark)| < |Whites(m)|)
        decreases |next|
      {
        ghost var a1, m1, l1 := obj, mark, SL();
        var w := next[0];
        assert next == [w] + next[1..];
        next := next[1..];
        var marked := ConvergeOne(w, next, T);
        ProgressTrans(a, m, l, a1, m1, l1, obj, mark, SL(), true);
        KeepDone(a1, m1, l1, obj, mark, SL(), w, next);
        if marked { changed := true; }
      }
      PassProgress(a, m, l0, l, obj, mark, SL());
    }

    /** One table of a pass, and what its traversal reached. */
    method ConvergeOne(w: Ref, next: seq<Ref>, ghost T: set<Ref>) returns (marked: bool)
      requires MarkingOk(T, multiset([w] + next)) && gray == [] && phase.Atomic? && ListsDone(obj, mark, SL())
          && AllEphDone(obj, mark, [w] + next)
      modifies this`obj, this`mark, this`gray, this`grayagain, this`weak, this`allweak, this`ephemeron
      ensures MarkingOk(T, multiset(next)) && gray == [] && ListsDone(obj, mark, SL())
      ensures Progress(old(obj), old(mark), old(SL()), obj, mark, SL(), true)
      ensures !marked && Converged(old(obj), old(mark), old(ephemeron)) ==> Converged(obj, mark, ephemeron)
      ensures |Whites(mark)| <= |Whites(old(mark))| && (marked ==> |Whites(mark)| < |Whites(old(mark))|)
    {
      hide *;
      ghost var a, m, l, g := obj, mark, SL(), gray;
      SLIs();
      Unfold(T, multiset([w] + next));
      Detached(a, m, w, next, l, g, T, skip);
      ghost var d;
      Ready(T);
      marked, d := TraverseEphemeron(w, T);
      ghost var a1, m1, l1, g1 := obj, mark, SL(), gray;
      EphemeronTraversed(a, m, a1, m1, g1, w, l, l1, d, T, next, skip);
      SLIs();
      Fold(T, multiset(next));
      if marked {
        PropagateAll(T, multiset(next));
        ProgressAdvance(a1, m1, l1, obj, mark, SL(), true);
        DoneAfter(a1, m1, l1, obj, mark, SL());
        ProgressTrans(a, m, l, a1, m1, l1, obj, mark, SL(), true);
      } else {
        SLIs();
        PassKeeps(a, m, l, a1, m1, l1, w, d);
      }
    }

    // ---- Roots and open upvalues in the atomic step (lgc.c:297-334)

    method MarkRoots(ghost T: set<Ref>, ghost pend: multiset<Ref>)
      requires MarkingOk(T, pend) && RootsIn(obj, T)
      modifies this`mark, this`gray
      ensures MarkingOk(T, pend)
      ensures Progress(obj, old(mark), SL(), obj, mark, SL(), true)
      ensures Marked(mark, running) && ValMarked(mark, registry) && AllMarked(mark, mt)
    {
      hide *;
      ghost var m, g := mark, gray;
      Unfold(T, pend);
      RootsFacts(T);
      Ready(T);
      MarkValue(Coll(running), T);
      ghost var m1, g1 := mark, gray;
      AfterMarks(obj, m, g, m1, g1, SL(), T, pend);
      Ready(T);
      MarkValue(registry, T);
      ghost var m2, g2 := mark, gray;
      AfterMarks(obj, m1, g1, m2, g2, SL(), T, pend);
      Ready(T);
      MarkValues(mt, T);
      AfterMarks(obj, m2, g2, mark, gray, SL(), T, pend);
      ProgressTrans(obj, m, SL(), obj, m1, SL(), obj, m2, SL(), true);
      ProgressTrans(obj, m, SL(), obj, m2, SL(), obj, mark, SL(), true);
      ProgressAdvance(obj, m1, SL(), obj, m2, SL(), true);
      ProgressAdvance(obj, m2, SL(), obj, mark, SL(), true);
      StillMarked(m1, m2, mark, Coll(running));
      GrowsRefl(m2);
      StillMarked(m2, m2, mark, registry);
      Fold(T, pend);
    }

    ghost predicate RootsIn(h: Heap, T: set<Ref>)
      reads this`running, this`registry, this`mt, this`mainthread
    {
      && running in h && running in T && mainthread in h && mainthread in T
      && (registry.Coll? ==> registry.ref in h && registry.ref in T)
      && (forall i :: 0 <= i < |mt| && mt[i].Coll? ==> mt[i].ref in h && mt[i].ref in T)
    }

    lemma RootsFacts(T: set<Ref>)
      requires RootsIn(obj, T)
      ensures running in obj && running in T && (registry.Coll? ==> registry.ref in obj && registry.ref in T)
      ensures forall i :: 0 <= i < |mt| && mt[i].Coll? ==> mt[i].ref in obj && (mt[i].ref in T || obj[mt[i].ref].Str?)
    {
    }

    /**
     * remarkupvals: the values of marked open upvalues, whose threads may be dead.  The order of the list is left open.
     */
    method RemarkUpvals(ghost T: set<Ref>, ghost pend: multiset<Ref>)
      requires MarkingOk(T, pend)
      modifies this`mark, this`gray
      ensures MarkingOk(T, pend) && OpenDone(obj, mark)
      ensures Progress(obj, old(mark), SL(), obj, mark, SL(), true)
    {
      hide *;
      ghost var m := mark;
      var us := set u | u in obj && obj[u].OpenUp?;
      AllOpenStart(obj, mark, us);
      ProgressRefl(obj, m, SL(), true);
      while us != {}
        invariant MarkingOk(T, pend) && AllOpen(obj, mark, us)
        invariant Progress(obj, m, SL(), obj, mark, SL(), true)
        decreases us
      {
        ghost var m1 := mark;
        var u :| u in us;
        AllOpenAt(obj, mark, us, u);
        RemarkOne(u, T, pend);
        us := us - {u};
        ProgressTrans(obj, m, SL(), obj, m1, SL(), obj, mark, SL(), true);
      }
      AllOpenEnd(obj, mark);
    }

    method RemarkOne(u: Ref, ghost T: set<Ref>, ghost pend: multiset<Ref>)
      requires MarkingOk(T, pend) && u in obj && obj[u].OpenUp?
      modifies this`mark, this`gray
      ensures MarkingOk(T, pend)
      ensures Progress(obj, old(mark), SL(), obj, mark, SL(), true)
      ensures forall us :: AllOpen(obj, old(mark), us) ==> AllOpen(obj, mark, us - {u})
    {
      ghost var m, g := mark, gray;
      Unfold(T, pend);
      OpenValue(obj, m, u, T, skip);
      if mark[u].Gray? {
        MarkValue(obj[obj[u].th].stack[obj[u].idx], T);
      } else {
        MarksRefl(obj, m, g, T);
      }
      OpenAdvance(obj, m, g, mark, gray, u, T);
      hide *;
      AfterMarks(obj, m, g, mark, gray, SL(), T, pend);
      Fold(T, pend);
    }

    // ---- Clearing weak tables (lgc.c:621-662)

    method ClearTableValues(h: Ref, ghost T: set<Ref>)
      requires MarkOk(T) && h in obj && obj[h].Table?
      modifies this`obj, this`mark, this`gray
      ensures Clears(old(obj), old(mark), obj, mark) && gray == old(gray) && ValuesMarked(obj, mark, h)
    {
      ghost var a, m := obj, mark;
      var arr := ClearedArray(h, T);
      ghost var m1 := mark;
      var node := ClearedValues(h, T);
      ClearedBack(a, m, m1, a[h].node, node);
      QuietTrans(a, m, m1, mark);
      QuietMarks(a, m1, mark, [], T);
      obj := obj[h := obj[h].(arr := arr, node := node)];
      LosesAt(a, m, obj, h);
      QuietMarks(a, m, mark, [], T);
    }

    method ClearedArray(h: Ref, ghost T: set<Ref>) returns (arr: seq<Value>)
      requires MarkOk(T) && h in obj && obj[h].Table?
      modifies this`mark, this`gray
      ensures Quiet(obj, old(mark), mark) && gray == old(gray)
      ensures ValuesCleared(obj, old(mark), obj[h].arr, arr) && AllMarked(mark, arr)
    {
      ghost var m, g := mark, gray;
      arr := obj[h].arr;
      assert forall j :: 0 <= j < |arr| && arr[j].Coll? ==> Holds(obj, h, arr[j].ref);
      for i := 0 to |arr|
        invariant Quiet(obj, m, mark) && gray == g
        invariant ValuesCleared(obj, m, obj[h].arr, arr) && forall j :: i <= j < |arr| ==> arr[j] == obj[h].arr[j]
        invariant forall j :: 0 <= j < i ==> ValMarked(mark, arr[j])
      {
        var c := IsCleared(arr[i], T);
        if c { arr := arr[i := Nil]; }
      }
    }

    method ClearedValues(h: Ref, ghost T: set<Ref>) returns (node: seq<Node>)
      requires MarkOk(T) && h in obj && obj[h].Table?
      modifies this`mark, this`gray
      ensures Quiet(obj, old(mark), mark) && gray == old(gray)
      ensures NodesCleared(obj, old(mark), obj[h].node, node) && forall j ::
          0 <= j < |node| ==> ValueMarked(mark, node[j])
    {
      ghost var m, g := mark, gray;
      node := obj[h].node;
      for i := 0 to |node|
        invariant Quiet(obj, m, mark) && gray == g
        invariant NodesCleared(obj, m, obj[h].node, node) && forall j :: i <= j < |node| ==> node[j] == obj[h].node[j]
        invariant forall j :: 0 <= j < i ==> ValueMarked(mark, node[j])
      {
        if node[i].val != Nil {
          EntryRefs(obj, h, i);
          var c := IsCleared(node[i].val, T);
          if c { node := node[i := RemoveEntry(node[i].(val := Nil))]; }
        }
      }
    }

    method ClearTableKeys(h: Ref, ghost T: set<Ref>)
      requires MarkOk(T) && h in obj && obj[h].Table?
      modifies this`obj, this`mark, this`gray
      ensures Clears(old(obj), old(mark), obj, mark) && gray == old(gray) && WeakDone(obj, mark, h)
    {
      ghost var a, m, g := obj, mark, gray;
      var node := obj[h].node;
      for i := 0 to |node|
        invariant obj == a && Quiet(obj, m, mark) && gray == g
        invariant NodesCleared(obj, m, obj[h].node, node) && forall j :: i <= j < |node| ==> node[j] == obj[h].node[j]
        invariant forall j :: 0 <= j < i ==> KeyMarked(mark, node[j])
      {
        if node[i].val != Nil {
          EntryRefs(obj, h, i);
          var c := IsCleared(node[i].key.v, T);
          if c { node := node[i := RemoveEntry(node[i].(val := Nil))]; }
        }
      }
      QuietMarks(a, m, mark, [], T);
      obj := obj[h := obj[h].(node := node)];
      LosesAt(a, m, obj, h);
    }

    /** clearvalues over the tables of l. */
    method ClearValues(l: seq<Ref>, ghost T: set<Ref>)
      requires MarkOk(T) && TableList(obj, l)
      modifies this`obj, this`mark, this`gray
      ensures MarkOk(T) && Clears(old(obj), old(mark), obj, mark) && gray == old(gray) && AllValuesMarked(obj, mark, l)
    {
      hide *;
      ghost var a, m, g := obj, mark, gray;
      Unready(T);
      ClearStart(a, m, l, T);
      for i := 0 to |l|
        invariant MarkOk(T) && TableList(obj, l) && Clears(a, m, obj, mark) && gray == g
        invariant AllValuesMarked(obj, mark, l[..i])
      {
        ghost var a1, m1 := obj, mark;
        TableAt(obj, l, i);
        Unready(T);
        ClearTableValues(l[i], T);
        ClearsTrans(a, m, a1, m1, obj, mark);
        ClearsOk(a1, m1, T);
        ClearsDone(a1, m1, obj, mark, l);
        ClearsDone(a1, m1, obj, mark, l[..i]);
        OneMoreValues(obj, mark, l, i);
      }
    }

    /** clearkeys over the tables of l. */
    method ClearKeys(l: seq<Ref>, ghost T: set<Ref>)
      requires MarkOk(T) && TableList(obj, l)
      modifies this`obj, this`mark, this`gray
      ensures MarkOk(T) && Clears(old(obj), old(mark), obj, mark) && gray == old(gray) && AllKeysMarked(obj, mark, l)
    {
      hide *;
      ghost var a, m, g := obj, mark, gray;
      Unready(T);
      ClearStart(a, m, l, T);
      for i := 0 to |l|
        invariant MarkOk(T) && TableList(obj, l) && Clears(a, m, obj, mark) && gray == g
        invariant AllKeysMarked(obj, mark, l[..i])
      {
        ghost var a1, m1 := obj, mark;
        TableAt(obj, l, i);
        Unready(T);
        ClearTableKeys(l[i], T);
        ClearsTrans(a, m, a1, m1, obj, mark);
        ClearsOk(a1, m1, T);
        ClearsDone(a1, m1, obj, mark, l);
        ClearsDone(a1, m1, obj, mark, l[..i]);
        OneMoreKeys(obj, mark, l, i);
      }
    }

    lemma Unready(T: set<Ref>)
      requires MarkOk(T)
      ensures HeapOk(obj) && obj.Keys == mark.Keys && ClosedBut(obj, T, skip)
    {
    }

    lemma ClearsOk(a: Heap, m: Colors, T: set<Ref>)
      requires Clears(a, m, obj, mark) && HeapOk(a) && a.Keys == m.Keys && ClosedBut(a, T, skip)
      ensures MarkOk(T)
    {
      hide Clears, Shrinks, HeapOk, ClosedBut;
      assert Shrinks(a, obj) && obj.Keys == mark.Keys by { ClearsFacts(a, m, obj, mark); }
      ShrinkHeap(a, obj);
      ShrinkClosedBut(a, obj, T, skip);
    }

    // ---- The atomic step (lgc.c:999-1041)

    /** The first half of atomic: what is kept alive is marked when it ends. */
    method AtomicMark(ghost T: set<Ref>)
      requires MarkingOk(T, multiset{}) && phase.Atomic? && RootsIn(obj, T)
      modifies this`obj, this`mark, this`gray, this`grayagain, this`weak, this`allweak, this`ephemeron
      ensures MarkingOk(T, multiset{}) && gray == [] && ListsDone(obj, mark, SL()) && Converged(obj, mark, ephemeron)
      ensures Marked(mark, running) && ValMarked(mark, registry) && AllMarked(mark, mt)
      ensures Progress(old(obj), old(mark), Lists([], [], old(allweak), []), obj, mark, SL(), true)
    {
      hide *;
      ghost var a, m, l := obj, mark, SL();
      SLIs();
      MarkRoots(T, multiset{});
      ghost var mr := mark;
      RemarkUpvals(T, multiset{});
      ghost var m1 := mark;
      ProgressTrans(a, m, l, a, mr, l, a, m1, l, true);
      PropagateAll(T, multiset{});
      ghost var a2, m2, l2 := obj, mark, SL();
      ProgressTrans(a, m, l, a, m1, l, a2, m2, l2, true);
      SLIs();
      OpenKept(a, m1, l, a2, m2, l2);
      RetraverseGrays(T);  // all lists but allweak
      ghost var a3, m3, l3 := obj, mark, SL();
      ConvergeEphemerons(T);
      ProgressDrop(a, m, l, a2, m2, l2);
      ghost var e, e2 := Lists([], [], l.allweak, []), Lists([], [], l2.allweak, []);
      ProgressTrans(a, m, e, a2, m2, e2, a3, m3, l3, true);
      ProgressTrans(a, m, e, a3, m3, l3, obj, mark, SL(), true);
      ProgressTrans(a, mr, l, a, m1, l, a2, m2, l2, true);
      ProgressDrop(a, mr, l, a2, m2, l2);
      ProgressTrans(a, mr, e, a2, m2, e2, a3, m3, l3, true);
      ProgressTrans(a, mr, e, a3, m3, l3, obj, mark, SL(), true);
      RootsKept(a, mr, e, obj, mark, SL());
    }

    /**
     * The second half of atomic: weak values are cleared, the objects to be finalized are marked with what they hold,
     * weak keys and the weak tables that came alive again are cleared, and the current white is flipped.
     */
    method AtomicClear(separated: seq<Ref>, ghost T: set<Ref>)
      requires MarkingOk(T, multiset{}) && phase.Atomic? && gray == [] && ListsDone(obj, mark, SL())
          && Converged(obj, mark, ephemeron)
      requires RefsIn(obj, tobefnz + separated, T)
      modifies this`obj, this`mark, this`gray, this`grayagain, this`weak, this`allweak, this`ephemeron, this`tobefnz,
          this`currentwhite
      ensures MarkingOk(T, multiset{}) && gray == []
          && (AllweakMeta(old(obj), old(mark), old(allweak)) ==> MarkedClosed(obj, mark))
      ensures Loses(old(obj), old(mark), obj) && Grows(old(mark), mark) && Kept(old(mark), mark)
          && old(mark).Keys == mark.Keys
      ensures tobefnz == old(tobefnz) + separated && AllRefsMarked(mark, tobefnz)
      ensures currentwhite == !old(currentwhite)
    {
      hide *;
      ghost var a, m, l := obj, mark, SL();
      SLIs();
      Tabled(T);
      ClearValuesStep(weak, T);
      ghost var a1, m1 := obj, mark;
      KeptLists(a, m, l, a1, m1, l, [], []);
      Tabled(T);
      ClearValuesStep(allweak, T);
      ghost var a2, m2, ow, oa := obj, mark, weak, allweak;
      AdvanceTrans(a, m, l, a1, m1, l, a2, m2, l, true);
      KeptLists(a1, m1, l, a2, m2, l, ow, []);
      KeptLists(a, m, l, a2, m2, l, [], []);
      var origweak, origall := weak, allweak;
      RefsKept(a, m, l, a2, m2, l, tobefnz + separated, T);
      tobefnz := tobefnz + separated;
      Resurrect(T);
      ghost var a3, m3, l3 := obj, mark, SL();
      SLIs();
      ProgressAdvance(a2, m2, l, a3, m3, l3, true);
      KeptLists(a2, m2, l, a3, m3, l3, ow, oa);
      AdvanceTrans(a, m, l, a2, m2, l, a3, m3, l3, true);
      ClearDead(|weak| - |origweak|, |allweak| - |origall|, T);
      AdvanceTrans(a, m, l, a3, m3, l3, obj, mark, l3, true);
      Outer(a, m, l, obj, mark, l3);
      KeptRefs(a3, m3, l3, obj, mark, l3, tobefnz);
      currentwhite := !currentwhite;  // what is white now is dead
    }

    /** markbeingfnz, propagateall, convergeephemerons: what the objects being finalized hold is kept. */
    method Resurrect(ghost T: set<Ref>)
      requires MarkingOk(T, multiset{}) && phase.Atomic? && gray == [] && ListsDone(obj, mark, SL())
          && RefsIn(obj, tobefnz, T)
      modifies this`obj, this`mark, this`gray, this`grayagain, this`weak, this`allweak, this`ephemeron
      ensures MarkingOk(T, multiset{}) && gray == [] && ListsDone(obj, mark, SL()) && Converged(obj, mark, ephemeron)
      ensures Progress(old(obj), old(mark), old(SL()), obj, mark, SL(), true)
      ensures AllRefsMarked(mark, tobefnz)
    {
      hide *;
      ghost var a, m, l := obj, mark, SL();
      MarkBeingFnz(T);
      ghost var m1 := mark;
      PropagateAll(T, multiset{});
      ghost var a2, m2, l2 := obj, mark, SL();
      ProgressTrans(a, m, l, a, m1, l, a2, m2, l2, true);
      ProgressAdvance(a, m, l, a2, m2, l2, true);
      DoneAfter(a, m, l, a2, m2, l2);
      ProgressAdvance(a, m1, l, a2, m2, l2, true);
      KeptRefs(a, m1, l, a2, m2, l2, tobefnz);
      ConvergeEphemerons(T);
      ProgressTrans(a, m, l, a2, m2, l2, obj, mark, SL(), true);
      ProgressAdvance(a2, m2, l2, obj, mark, SL(), true);
      KeptRefs(a2, m2, l2, obj, mark, SL(), tobefnz);
    }

    /** markbeingfnz */
    method MarkBeingFnz(ghost T: set<Ref>)
      requires MarkingOk(T, multiset{}) && RefsIn(obj, tobefnz, T)
      modifies this`mark, this`gray
      ensures MarkingOk(T, multiset{})
      ensures Progress(obj, old(mark), SL(), obj, mark, SL(), true)
      ensures AllRefsMarked(mark, tobefnz)
    {
      hide *;
      ghost var m, g := mark, gray;
      Unfold(T, multiset{});
      TriHeap(obj, m, multiset(gray) + Linked(SL()) + multiset{});
      Ready(T);
      MarkRefs(tobefnz, T);
      AfterMarks(obj, m, g, mark, gray, SL(), T, multiset{});
      Fold(T, multiset{});
    }

    method MarkRefs(l: seq<Ref>, ghost T: set<Ref>)
      requires MarkOk(T) && RefsIn(obj, l, T)
      modifies this`mark, this`gray
      ensures Marks(obj, old(mark), old(gray), mark, gray, T)
      ensures AllRefsMarked(mark, l)
    {
      hide StrongHolds, Holds, FreshlyMarked, HeapOk, Closed;
      ghost var m, g := mark, gray;
      MarksRefl(obj, m, g, T);
      for i := 0 to |l|
        invariant Marks(obj, m, g, mark, gray, T)
        invariant forall j :: 0 <= j < i ==> Marked(mark, l[j])
      {
        ghost var m1, g1 := mark, gray;
        MarkValue(Coll(l[i]), T);
        MarksTrans(obj, m, g, m1, g1, mark, gray, T);
      }
    }

    /**
     * The clearing after resurrection: keys of ephemeron and allweak tables, values of the first nw weak and na allweak
     * tables.
     */
    method ClearDead(nw: nat, na: nat, ghost T: set<Ref>)
      requires MarkingOk(T, multiset{}) && phase.Atomic? && gray == [] && ListsDone(obj, mark, SL())
          && Converged(obj, mark, ephemeron)
      requires nw <= |weak| && na <= |allweak|
      requires AllValuesMarked(obj, mark, weak[nw..]) && AllValuesMarked(obj, mark, allweak[na..])
      modifies this`obj, this`mark, this`gray
      ensures MarkingOk(T, multiset{}) && gray == []
      ensures AllweakMeta(old(obj), old(mark), allweak) ==> MarkedClosed(obj, mark)
      ensures Advance(old(obj), old(mark), SL(), obj, mark, SL(), true)
    {
      hide *;
      ghost var a, m, l := obj, mark, SL();
      SLIs();
      Tabled(T);
      ClearKeysStep(ephemeron, T);
      ghost var a1, m1 := obj, mark;
      KeptLists(a, m, l, a1, m1, l, weak[nw..], allweak[na..]);
      Tabled(T);
      ClearKeysStep(allweak, T);
      ghost var a2, m2 := obj, mark;
      KeptLists(a1, m1, l, a2, m2, l, weak[nw..], allweak[na..]);
      KeptKeys(a1, m1, l, a2, m2, l, ephemeron);
      Tabled(T);
      TablePrefix(obj, weak, nw);
      ClearValuesStep(weak[..nw], T);
      ghost var a3, m3 := obj, mark;
      KeptLists(a2, m2, l, a3, m3, l, weak[nw..], allweak[na..]);
      KeptKeys(a2, m2, l, a3, m3, l, ephemeron);
      KeptKeys(a2, m2, l, a3, m3, l, allweak);
      Tabled(T);
      TablePrefix(obj, allweak, na);
      ClearValuesStep(allweak[..na], T);
      KeptLists(a3, m3, l, obj, mark, l, weak[..nw], []);
      KeptLists(a3, m3, l, obj, mark, l, weak[nw..], allweak[na..]);
      KeptKeys(a3, m3, l, obj, mark, l, ephemeron);
      KeptKeys(a3, m3, l, obj, mark, l, allweak);
      AdvanceTrans(a, m, l, a1, m1, l, a2, m2, l, true);
      AdvanceTrans(a, m, l, a2, m2, l, a3, m3, l, true);
      AdvanceTrans(a, m, l, a3, m3, l, obj, mark, l, true);
      DoneAfter(a, m, l, obj, mark, l);
      JoinValues(obj, mark, weak, nw);
      JoinValues(obj, mark, allweak, na);
      Unfold(T, multiset{});
      if AllweakMeta(a, m, allweak) {
        MetaKept(a, m, l, obj, mark, l);
        FinalClosed(obj, mark, gray, l);
      }
    }

    lemma Tabled(T: set<Ref>)
      requires MarkingOk(T, multiset{})
      ensures TableList(obj, weak) && TableList(obj, allweak) && TableList(obj, ephemeron)
    {
      ListTables(obj, SL());
    }

    /** clearvalues as a step of the atomic phase. */
    method ClearValuesStep(l: seq<Ref>, ghost T: set<Ref>)
      requires MarkingOk(T, multiset{}) && gray == [] && TableList(obj, l)
      modifies this`obj, this`mark, this`gray
      ensures MarkingOk(T, multiset{}) && gray == [] && AllValuesMarked(obj, mark, l)
      ensures Advance(old(obj), old(mark), SL(), obj, mark, SL(), true)
      ensures Converged(old(obj), old(mark), ephemeron) ==> Converged(obj, mark, ephemeron)
    {
      hide *;
      ghost var a, m := obj, mark;
      SLIs();
      Unfold(T, multiset{});
      TriHeap(a, m, multiset(gray) + Linked(SL()) + multiset{});
      Ready(T);
      ClearValues(l, T);
      ClearsProgress(a, m, gray, obj, mark, SL(), T, skip);
      Fold(T, multiset{});
    }

    /** clearkeys as a step of the atomic phase. */
    method ClearKeysStep(l: seq<Ref>, ghost T: set<Ref>)
      requires MarkingOk(T, multiset{}) && gray == [] && TableList(obj, l)
      modifies this`obj, this`mark, this`gray
      ensures MarkingOk(T, multiset{}) && gray == [] && AllKeysMarked(obj, mark, l)
      ensures Advance(old(obj), old(mark), SL(), obj, mark, SL(), true)
      ensures Converged(old(obj), old(mark), ephemeron) ==> Converged(obj, mark, ephemeron)
    {
      hide *;
      ghost var a, m := obj, mark;
      SLIs();
      Unfold(T, multiset{});
      TriHeap(a, m, multiset(gray) + Linked(SL()) + multiset{});
      Ready(T);
      ClearKeys(l, T);
      ClearsProgress(a, m, gray, obj, mark, SL(), T, skip);
      Fold(T, multiset{});
    }

    lemma RootsKept(a: Heap, m: Colors, l: Lists, b: Heap, m2: Colors, l2: Lists)
      requires Progress(a, m, l, b, m2, l2, true)
      requires Marked(m, running) && ValMarked(m, registry) && AllMarked(m, mt)
      ensures Marked(m2, running) && ValMarked(m2, registry) && AllMarked(m2, mt)
    {
    }

    // ---- The invariant of the whole cycle

    ghost function Rs(): Roots
      reads this`mainthread, this`running, this`registry, this`mt, this`tobefnz
    {
      Roots(mainthread, running, registry, mt, tobefnz)
    }

    /** What holds in every phase: live objects hold live objects, and every object is in its place. */
    ghost predicate BaseI()
      reads this`obj, this`mark, this`currentwhite, this`fixed, this`strt, this`allgc, this`mainthread, this`sweepstr,
          this`sweepgc
      reads this`running, this`registry, this`mt, this`tobefnz
    {
      && Base(obj, mark, currentwhite, fixed, strt, allgc, mainthread) && sweepstr <= |strt| && sweepgc <= |allgc|
      && RootsAlive(mark, currentwhite, fixed, Rs())
      && mainthread in obj && obj[mainthread].Thread? && running in obj && obj[running].Thread?
    }

    /** While marking: the main invariant, and no object is dead. */
    ghost predicate MarkI()
      reads this`obj, this`mark, this`gray, this`grayagain, this`weak, this`allweak, this`ephemeron, this`currentwhite,
          this`mainthread
    {
      && TriOk(multiset{}) && OneWhite(mark, currentwhite) && Marked(mark, mainthread)
        && AllweakMeta(obj, mark, allweak)
    }

    /** While sweeping: what has been swept is white again. */
    ghost predicate SweepI()
      reads this`obj, this`mark, this`currentwhite, this`strt, this`allgc, this`sweepstr, this`sweepgc, this`mainthread
    {
      && sweepstr <= |strt| && sweepgc <= |allgc|
      && SweptWhite(obj, mark, currentwhite, Tail(strt, sweepstr), Tail(allgc, sweepgc), mainthread)
    }

    ghost predicate Inv()
      reads this
    {
      && BaseI() && skip == {}
      && match phase
         case Propagate => MarkI()
         case Atomic => false
         case SweepString => SweepI()
         case Sweep => SweepI() && sweepstr == 0
         case Pause => AllCurrent(mark, currentwhite)
    }

    // ---- Upvalues (lfunc.c:47-105, lgc.c:188-202)

    lemma BaseUnfold()
      requires BaseI()
      ensures Base(obj, mark, currentwhite, fixed, strt, allgc, mainthread) && sweepstr <= |strt| && sweepgc <= |allgc|
      ensures RootsAlive(mark, currentwhite, fixed, Rs())
      ensures mainthread in obj && obj[mainthread].Thread? && running in obj && obj[running].Thread?
          && obj.Keys == mark.Keys
    {
    }

    lemma BaseFold()
      requires Base(obj, mark, currentwhite, fixed, strt, allgc, mainthread) && sweepstr <= |strt| && sweepgc <= |allgc|
      requires RootsAlive(mark, currentwhite, fixed, Rs())
      requires mainthread in obj && obj[mainthread].Thread? && running in obj && obj[running].Thread?
      ensures BaseI()
    {
    }

    lemma SweepUnfold()
      requires SweepI()
      ensures sweepstr <= |strt| && sweepgc <= |allgc|
      ensures SweptWhite(obj, mark, currentwhite, Tail(strt, sweepstr), Tail(allgc, sweepgc), mainthread)
    {
    }

    lemma SweepFold()
      requires sweepstr <= |strt| && sweepgc <= |allgc|
      requires SweptWhite(obj, mark, currentwhite, Tail(strt, sweepstr), Tail(allgc, sweepgc), mainthread)
      ensures SweepI()
    {
    }

    /** luaF_freeupval: the open upvalue was dead. */
    method FreeUpval(u: Ref)
      requires BaseI() && SweepI() && u in obj && obj[u].OpenUp? && IsDead(mark, currentwhite, fixed, u)
      modifies this`obj, this`mark
      ensures BaseI() && SweepI() && obj == old(obj) - {u} && mark == old(mark) - {u}
    {
      hide *;
      ghost var h, m := obj, mark;
      BaseUnfold();
      SweepUnfold();
      OpenFacts(h, m, u);
      FreedBase(h, m, currentwhite, fixed, strt, allgc, strt, allgc, mainthread, u);
      FreedRoots(m, currentwhite, fixed, Rs(), u);
      obj := obj - {u};
      mark := mark - {u};
      SweptFreed(h, m, u, Tail(strt, sweepstr), Tail(allgc, sweepgc));
      BaseFold();
      SweepFold();
    }

    lemma SweptFreed(h: Heap, m: Colors, u: Ref, st: seq<Ref>, gt: seq<Ref>)
      requires SweptWhite(h, m, currentwhite, st, gt, mainthread)
      ensures SweptWhite(h - {u}, m - {u}, currentwhite, st, gt, mainthread)
    {
      forall o | o in m - {u} ensures m[o] == White(currentwhite) || Unswept(h - {u}, st, gt, mainthread, o) {
        assert m[o] == White(currentwhite) || Unswept(h, st, gt, mainthread, o);
      }
    }

    /** The live upvalue u is closed while sweeping: it goes to the head of allgc, white. */
    method CloseSweeping(u: Ref)
      requires BaseI() && SweepI() && u in obj && obj[u].OpenUp? && Alive(mark, currentwhite, fixed, u)
      modifies this`obj, this`mark, this`allgc
      ensures BaseI() && SweepI()
      ensures obj == old(obj)[u := ClosedUp(old(StackAt(obj, obj[u].th, obj[u].idx)))]
          && mark == old(mark)[u := White(currentwhite)]
      ensures allgc == [u] + old(allgc)
    {
      hide *;
      ghost var h, m := obj, mark;
      BaseUnfold();
      SweepUnfold();
      OpenFacts(h, m, u);
      var v := obj[obj[u].th].stack[obj[u].idx];
      var white := if mark[u].Gray? then White(currentwhite) else mark[u];  // makewhite
      LiveWhite(m, u);
      ClosedBase(h, obj[u := ClosedUp(v)], m, mark[u := white], currentwhite, fixed, strt, allgc, mainthread, u);
      RootsSame(m, mark[u := white], currentwhite, fixed, Rs());
      obj := obj[u := ClosedUp(v)];
      allgc := [u] + allgc;
      mark := mark[u := white];
      TailCons(u, old(allgc), sweepgc);
      SweptClosed(h, m, u, obj, mark, Tail(strt, sweepstr), Tail(allgc, sweepgc));
      BaseFold();
      SweepFold();
    }

    lemma LiveWhite(m: Colors, u: Ref)
      requires Alive(m, currentwhite, fixed, u) && u !in fixed
      ensures m[u].White? ==> m[u] == White(currentwhite)
      ensures Alive(m[u := White(currentwhite)], currentwhite, fixed, u)
    {
    }

    lemma SweptClosed(h: Heap, m: Colors, u: Ref, h2: Heap, m2: Colors, st: seq<Ref>, gt: seq<Ref>)
      requires SweptWhite(h, m, currentwhite, st, gt, mainthread) && u in h && u in h2 && h2 == h[u := h2[u]]
          && m2 == m[u := White(currentwhite)]
      ensures SweptWhite(h2, m2, currentwhite, st, gt, mainthread)
    {
      forall o | o in m2 ensures m2[o] == White(currentwhite) || Unswept(h2, st, gt, mainthread, o) {
        if o != u { assert m[o] == White(currentwhite) || Unswept(h, st, gt, mainthread, o); }
      }
    }

    lemma OpenFacts(h: Heap, m: Colors, u: Ref)
      requires Base(h, m, currentwhite, fixed, strt, allgc, mainthread) && u in h && h[u].OpenUp?
      ensures h[u].th in h && h[h[u].th].Thread? && h[u].idx < |h[h[u].th].stack|
      ensures u in m && !m[u].Black? && u !in fixed && StackAt(h, h[u].th, h[u].idx) == h[h[u].th].stack[h[u].idx]
      ensures forall v :: v in h && h[v].OpenUp? ==> h[v].th != u
    {
    }

    // ---- Sweeping (lgc.c:665-765)

    /**
     * luaE_freethread closes the upvalues of the dead thread o: the dead ones are freed, the others get their own
     * value.
     */
    method CloseThread(o: Ref)
      requires BaseI() && SweepI() && o in obj && obj[o].Thread? && IsDead(mark, currentwhite, fixed, o)
      modifies this`obj, this`mark, this`allgc
      ensures BaseI() && SweepI() && o in obj && obj[o] == old(obj[o]) && o in mark && mark[o] == old(mark[o])
      ensures forall u :: u in obj && obj[u].OpenUp? ==> obj[u].th != o
      ensures Suffix(old(allgc), allgc)
      ensures OnlyDeadFreed(old(mark), mark) && SameObjects(old(obj), obj)
    {
      hide *;
      ghost var h0, m0 := obj, mark;
      var us := set u | u in obj && obj[u].OpenUp? && obj[u].th == o;
      BaseUnfold();
      UpsOfStart(h0, m0, us, o);
      SuffixRefl(allgc);
      while us != {}
        invariant BaseI() && SweepI() && UpsOf(obj, us, o) && o in obj && obj[o] == old(obj[o]) && o in mark
            && mark[o] == old(mark[o])
        invariant obj[o].Thread? && Suffix(old(allgc), allgc)
        invariant OnlyDeadFreed(m0, mark) && SameObjects(h0, obj)
        decreases us
      {
        ghost var h, m, g := obj, mark, allgc;
        var u :| u in us;
        UpsOfAt(h, us, o, u);
        BaseUnfold();
        if IsDead(mark, currentwhite, fixed, u) {
          FreeUpval(u);
          FreedDead(h0, m0, h, m, u);
        } else {
          AliveOf(u);
          CloseSweeping(u);
          SuffixCons(old(allgc), g, u);
          ClosedSame(h0, m0, h, m, u, obj, mark);
        }
        assert us == (us - {u}) + {u};
        us := us - {u};
        UpsOfNext(h, us, o, u, obj);
      }
      UpsOfEnd(obj, o);
    }

    lemma UpsOfStart(h: Heap, m: Colors, us: set<Ref>, o: Ref)
      requires us == set u | u in h && h[u].OpenUp? && h[u].th == o
      ensures UpsOf(h, us, o) && OnlyDeadFreed(m, m) && SameObjects(h, h)
      ensures h.Keys == m.Keys ==> WhiteUps(h, m, us, o)
    {
    }

    lemma SameStart(h: Heap, m: Colors)
      ensures OnlyDeadFreed(m, m) && SameObjects(h, h)
    {
    }

    lemma AliveOf(u: Ref)
      requires u in obj && obj.Keys == mark.Keys && !IsDead(mark, currentwhite, fixed, u)
      ensures Alive(mark, currentwhite, fixed, u)
    {
    }

    /** Only dead objects were freed, and no colour became dead. */
    ghost predicate OnlyDeadFreed(m: Colors, m2: Colors)
      reads this`currentwhite, this`fixed
    {
      && (forall r :: r in m && r !in m2 ==> IsDead(m, currentwhite, fixed, r))
      && (forall r :: r in m2 ==> r in m && (IsDead(m2, currentwhite, fixed, r) <==> IsDead(m, currentwhite, fixed, r)))
    }

    /** Objects that were not freed have their contents, but upvalues may have been closed. */
    ghost predicate SameObjects(h: Heap, h2: Heap) {
      forall r :: r in h2 ==>
          r in h && (h2[r] == h[r] || (h[r].OpenUp? && h2[r] == ClosedUp(StackAt(h, h[r].th, h[r].idx))))
    }

    lemma FreedDead(h0: Heap, m0: Colors, h: Heap, m: Colors, u: Ref)
      requires OnlyDeadFreed(m0, m) && SameObjects(h0, h) && IsDead(m, currentwhite, fixed, u)
      ensures OnlyDeadFreed(m0, m - {u}) && SameObjects(h0, h - {u})
    {
    }

    lemma ClosedSame(h0: Heap, m0: Colors, h: Heap, m: Colors, u: Ref, h2: Heap, m2: Colors)
      requires OnlyDeadFreed(m0, m) && SameObjects(h0, h) && Alive(m, currentwhite, fixed, u) && u in h && h[u].OpenUp?
      requires m2 == m[u := White(currentwhite)] && h2 == h[u := ClosedUp(StackAt(h, h[u].th, h[u].idx))]
      requires h[u].th in h && h[h[u].th].Thread?
      ensures OnlyDeadFreed(m0, m2) && SameObjects(h0, h2)
    {
      assert h[u] == h0[u] && h[h[u].th] == h0[h[u].th];
    }

    /** sweepthread: the open upvalues of a live thread; dead ones are freed, the others become white. */
    method SweepThread(o: Ref)
      requires BaseI() && SweepI() && o in obj && obj[o].Thread?
      modifies this`obj, this`mark
      ensures BaseI() && SweepI() && o in obj && obj[o] == old(obj[o]) && o in mark && mark[o] == old(mark[o])
      ensures forall u :: u in obj && obj[u].OpenUp? && obj[u].th == o ==> mark[u] == White(currentwhite)
      ensures OnlyDeadFreed(old(mark), mark) && SameObjects(old(obj), obj)
    {
      hide *;
      ghost var h0, m0 := obj, mark;
      var us := set u | u in obj && obj[u].OpenUp? && obj[u].th == o;
      BaseUnfold();
      UpsOfStart(h0, m0, us, o);
      while us != {}
        invariant BaseI() && SweepI() && o in obj && obj[o] == old(obj[o]) && o in mark && mark[o] == old(mark[o])
        invariant obj[o].Thread? && obj.Keys == mark.Keys && WhiteUps(obj, mark, us, o)
        invariant OnlyDeadFreed(m0, mark) && SameObjects(h0, obj)
        decreases us
      {
        ghost var h, m := obj, mark;
        var u :| u in us;
        WhiteUpsAt(h, m, us, o, u);
        BaseUnfold();
        if IsDead(mark, currentwhite, fixed, u) {
          FreeUpval(u);
          FreedDead(h0, m0, h, m, u);
        } else {
          AliveOf(u);
          WhitenOne(u);
          WhitenedSame(h0, m0, m, u);
        }
        assert us == (us - {u}) + {u};
        us := us - {u};
        WhiteUpsNext(h, m, us, o, u, obj, mark);
        BaseUnfold();
      }
      WhiteUpsEnd(obj, mark, o);
    }

    /** makewhite on a live object while sweeping. */
    method WhitenOne(u: Ref)
      requires BaseI() && SweepI() && u in obj && Alive(mark, currentwhite, fixed, u)
      modifies this`mark
      ensures BaseI() && SweepI() && mark == old(mark)[u := White(currentwhite)]
    {
      hide *;
      ghost var m := mark;
      BaseUnfold();
      SweepUnfold();
      Whiten(obj, m, currentwhite, fixed, strt, allgc, mainthread, u);
      mark := mark[u := White(currentwhite)];
      RootsSame(m, mark, currentwhite, fixed, Rs());
      SweptWhitened(m, u, Tail(strt, sweepstr), Tail(allgc, sweepgc));
      BaseFold();
      SweepFold();
    }

    lemma SweptWhitened(m: Colors, u: Ref, st: seq<Ref>, gt: seq<Ref>)
      requires SweptWhite(obj, m, currentwhite, st, gt, mainthread) && mark == m[u := White(currentwhite)]
      ensures SweptWhite(obj, mark, currentwhite, st, gt, mainthread)
    {
    }

    lemma WhitenedSame(h0: Heap, m0: Colors, m: Colors, u: Ref)
      requires OnlyDeadFreed(m0, m) && Alive(m, currentwhite, fixed, u)
      ensures OnlyDeadFreed(m0, m[u := White(currentwhite)])
    {
    }

    ghost predicate WhiteUps(h: Heap, m: Colors, us: set<Ref>, o: Ref)
      requires h.Keys == m.Keys
      reads this`currentwhite
    {
      && (forall u :: u in us ==> u in h && h[u].OpenUp? && h[u].th == o)
      && (forall u :: u in h && h[u].OpenUp? && h[u].th == o && u !in us ==> m[u] == White(currentwhite))
    }

    lemma WhiteUpsAt(h: Heap, m: Colors, us: set<Ref>, o: Ref, u: Ref)
      requires h.Keys == m.Keys && WhiteUps(h, m, us, o) && u in us
      ensures u in h && h[u].OpenUp? && h[u].th == o && (o in h && h[o].Thread? ==> u != o)
    {
    }

    lemma WhiteUpsNext(h: Heap, m: Colors, us: set<Ref>, o: Ref, u: Ref, h2: Heap, m2: Colors)
      requires h.Keys == m.Keys && h2.Keys == m2.Keys && WhiteUps(h, m, us + {u}, o)
      requires (h2 == h - {u} && m2 == m - {u}) || (h2 == h && m2 == m[u := White(currentwhite)])
      requires u !in us
      ensures WhiteUps(h2, m2, us, o)
    {
    }

    lemma WhiteUpsEnd(h: Heap, m: Colors, o: Ref)
      requires h.Keys == m.Keys && WhiteUps(h, m, {}, o)
      ensures forall u :: u in h && h[u].OpenUp? && h[u].th == o ==> m[u] == White(currentwhite)
    {
    }

    /** One element of allgc in sweeplist: a dead object is freed, a live one becomes white. */
    method SweepOne() returns (live: bool)
      requires BaseI() && SweepI() && sweepgc > 0
      modifies this`obj, this`mark, this`allgc, this`sweepgc
      ensures BaseI() && SweepI() && sweepgc == old(sweepgc) - 1
      ensures OnlyDeadFreed(old(mark), mark) && SameObjects(old(obj), obj)
    {
      hide *;
      BaseUnfold();
      var o := allgc[|allgc| - sweepgc];
      InAllgc(obj, mark, currentwhite, fixed, strt, allgc, mainthread, |allgc| - sweepgc);
      live := !IsDead(mark, currentwhite, fixed, o);
      if live {
        AliveOf(o);
        SweepLive(o);
        SweepUnfold();
        BaseUnfold();
        TailStep(allgc, sweepgc);
        SweptDrop(obj, mark, currentwhite, Tail(strt, sweepstr), Tail(allgc, sweepgc), Tail(strt, sweepstr),
            Tail(allgc, sweepgc - 1), mainthread, o);
        sweepgc := sweepgc - 1;
        BaseFold();
        SweepFold();
      } else {
        SweepDead(o);
      }
    }

    /** The dead object at the head of the unswept part of allgc. */
    method SweepDead(o: Ref)
      requires BaseI() && SweepI() && sweepgc > 0 && o == allgc[|allgc| - sweepgc]
      requires o in obj && !obj[o].OpenUp? && IsDead(mark, currentwhite, fixed, o)
      modifies this`obj, this`mark, this`allgc, this`sweepgc
      ensures BaseI() && SweepI() && sweepgc == old(sweepgc) - 1
      ensures OnlyDeadFreed(old(mark), mark) && SameObjects(old(obj), obj)
    {
      hide *;
      ghost var h0, m0, g0 := obj, mark, allgc;
      SameStart(h0, m0);
      BaseUnfold();
      if obj[o].Thread? {
        CloseThread(o);
      } else {
        SuffixRefl(allgc);
        NoUps(o);
      }
      SuffixAt(g0, allgc, sweepgc);
      SameDead(m0, mark, o);
      ghost var h, m, g := obj, mark, allgc;
      FreeAt(|allgc| - sweepgc, o);
      FreedDead(h0, m0, h, m, o);
      CutTail(g, sweepgc);
      SweptDrop(obj, mark, currentwhite, Tail(strt, sweepstr), Tail(g, sweepgc), Tail(strt, sweepstr),
          Tail(allgc, sweepgc - 1), mainthread, o);
      sweepgc := sweepgc - 1;
      BaseFold();
      SweepFold();
    }

    lemma SameDead(m0: Colors, m: Colors, o: Ref)
      requires IsDead(m0, currentwhite, fixed, o) && o in m && m[o] == m0[o]
      ensures IsDead(m, currentwhite, fixed, o)
    {
    }

    /** Element k of allgc is freed; the counter is updated by the caller. */
    method FreeAt(k: nat, o: Ref)
      requires BaseI() && SweepI() && k < |allgc| && allgc[k] == o && IsDead(mark, currentwhite, fixed, o)
          && sweepgc == |allgc| - k
      requires forall u :: u in obj && obj[u].OpenUp? ==> obj[u].th != o
      modifies this`obj, this`mark, this`allgc
      ensures obj == old(obj) - {o} && mark == old(mark) - {o} && allgc == Cut(old(allgc), k)
      ensures Base(obj, mark, currentwhite, fixed, strt, allgc, mainthread) && sweepstr <= |strt|
          && sweepgc - 1 <= |allgc|
      ensures RootsAlive(mark, currentwhite, fixed, Rs())
      ensures mainthread in obj && obj[mainthread].Thread? && running in obj && obj[running].Thread?
      ensures obj.Keys == mark.Keys && o !in mark && forall u :: u in obj && obj[u].OpenUp? ==> obj[u].th != o
      ensures SweptWhite(obj, mark, currentwhite, Tail(strt, sweepstr), Tail(old(allgc), sweepgc), mainthread)
    {
      hide *;
      ghost var h, m, g := obj, mark, allgc;
      BaseUnfold();
      SweepUnfold();
      InAllgc(h, m, currentwhite, fixed, strt, allgc, mainthread, k);
      CutMultiset(g, k);
      FreedBase(h, m, currentwhite, fixed, strt, g, strt, Cut(g, k), mainthread, o);
      FreedRoots(m, currentwhite, fixed, Rs(), o);
      NotFreed(m, o);
      obj := obj - {o};
      mark := mark - {o};
      allgc := allgc[..k] + allgc[k + 1..];
      assert allgc == Cut(g, k) by { CutIs(g, k); }
      SweptFreed(h, m, o, Tail(strt, sweepstr), Tail(g, sweepgc));
    }

    lemma NotFreed(m: Colors, o: Ref)
      requires RootsAlive(m, currentwhite, fixed, Rs()) && IsDead(m, currentwhite, fixed, o)
      ensures running != o && mainthread != o
    {
      assert IsRoot(Rs(), running) && IsRoot(Rs(), mainthread);
    }

    lemma NoUps(o: Ref)
      requires BaseI() && o in obj && !obj[o].Thread?
      ensures forall u :: u in obj && obj[u].OpenUp? ==> obj[u].th != o
    {
    }

    /** A live object is swept: the upvalues of a thread, then its own mark. */
    method SweepLive(o: Ref)
      requires BaseI() && SweepI() && o in obj && Alive(mark, currentwhite, fixed, o) && !obj[o].OpenUp?
      modifies this`obj, this`mark
      ensures BaseI() && SweepI() && o in mark && mark[o] == White(currentwhite)
      ensures forall u :: u in obj && obj[u].OpenUp? && obj[u].th == o ==> mark[u] == White(currentwhite)
      ensures OnlyDeadFreed(old(mark), mark) && SameObjects(old(obj), obj)
    {
      hide *;
      ghost var h0, m0 := obj, mark;
      BaseUnfold();
      SameStart(h0, m0);
      if obj[o].Thread? {
        SweepThread(o);
      } else {
        NoUps(o);
      }
      ghost var m := mark;
      BaseUnfold();
      SameAlive(m0, m, o);
      WhitenOne(o);
      WhitenedSame(h0, m0, m, o);
    }

    lemma SameAlive(m0: Colors, m: Colors, o: Ref)
      requires Alive(m0, currentwhite, fixed, o) && o in m && m[o] == m0[o]
      ensures Alive(m, currentwhite, fixed, o)
    {
    }

    /** One string in sweeplist. */
    method SweepOneString()
      requires BaseI() && SweepI() && sweepstr > 0
      modifies this`obj, this`mark, this`strt, this`sweepstr
      ensures BaseI() && SweepI() && sweepstr == old(sweepstr) - 1
      ensures OnlyDeadFreed(old(mark), mark) && SameObjects(old(obj), obj)
    {
      hide *;
      ghost var h0, m0 := obj, mark;
      SameStart(h0, m0);
      BaseUnfold();
      var o := strt[|strt| - sweepstr];
      InStrt(obj, mark, currentwhite, fixed, strt, allgc, mainthread, |strt| - sweepstr);
      if IsDead(mark, currentwhite, fixed, o) {
        FreeString(o);
      } else {
        AliveOf(o);
        WhitenOne(o);
        WhitenedSame(h0, m0, m0, o);
        SweepUnfold();
        BaseUnfold();
        TailStep(strt, sweepstr);
        SweptDrop(obj, mark, currentwhite, Tail(strt, sweepstr), Tail(allgc, sweepgc), Tail(strt, sweepstr - 1),
            Tail(allgc, sweepgc), mainthread, o);
        sweepstr := sweepstr - 1;
        BaseFold();
        SweepFold();
      }
    }

    /** The dead string at the head of the unswept part. */
    method FreeString(o: Ref)
      requires BaseI() && SweepI() && sweepstr > 0 && o == strt[|strt| - sweepstr]
          && IsDead(mark, currentwhite, fixed, o)
      modifies this`obj, this`mark, this`strt, this`sweepstr
      ensures BaseI() && SweepI() && sweepstr == old(sweepstr) - 1
      ensures OnlyDeadFreed(old(mark), mark) && SameObjects(old(obj), obj)
    {
      hide *;
      ghost var h0, m0, t0 := obj, mark, strt;
      SameStart(h0, m0);
      BaseUnfold();
      FreedDead(h0, m0, h0, m0, o);
      UnlinkString(|strt| - sweepstr, o);
      CutTail(t0, sweepstr);
      SweptDrop(obj, mark, currentwhite, Tail(t0, sweepstr), Tail(allgc, sweepgc), Tail(strt, sweepstr - 1),
          Tail(allgc, sweepgc), mainthread, o);
      sweepstr := sweepstr - 1;
      BaseFold();
      SweepFold();
    }

    /** Element k of the string table is freed; the counter is updated by the caller. */
    method UnlinkString(k: nat, o: Ref)
      requires BaseI() && SweepI() && k < |strt| && strt[k] == o && IsDead(mark, currentwhite, fixed, o)
          && sweepstr == |strt| - k
      modifies this`obj, this`mark, this`strt
      ensures obj == old(obj) - {o} && mark == old(mark) - {o} && strt == Cut(old(strt), k)
      ensures Base(obj, mark, currentwhite, fixed, strt, allgc, mainthread) && sweepstr - 1 <= |strt|
          && sweepgc <= |allgc|
      ensures RootsAlive(mark, currentwhite, fixed, Rs())
      ensures mainthread in obj && obj[mainthread].Thread? && running in obj && obj[running].Thread?
      ensures obj.Keys == mark.Keys && o !in mark && forall u :: u in obj && obj[u].OpenUp? ==> obj[u].th != o
      ensures SweptWhite(obj, mark, currentwhite, Tail(old(strt), sweepstr), Tail(allgc, sweepgc), mainthread)
    {
      hide *;
      ghost var h, m, t := obj, mark, strt;
      BaseUnfold();
      SweepUnfold();
      InStrt(h, m, currentwhite, fixed, t, allgc, mainthread, k);
      CutMultiset(t, k);
      CutSubset(t, k);
      CutIs(t, k);
      FreedBase(h, m, currentwhite, fixed, t, allgc, Cut(t, k), allgc, mainthread, o);
      FreedRoots(m, currentwhite, fixed, Rs(), o);
      NotFreed(m, o);
      SweptFreed(h, m, o, Tail(t, sweepstr), Tail(allgc, sweepgc));
      obj := obj - {o};
      mark := mark - {o};
      strt := strt[..k] + strt[k + 1..];
    }

    lemma KeysOf()
      requires Base(obj, mark, currentwhite, fixed, strt, allgc, mainthread)
      ensures obj.Keys == mark.Keys
    {
    }

    /** entersweep: the pointers are set, and dead objects up to the first live one are freed (sweeptolive). */
    method EnterSweep()
      requires BaseI() && skip == {}
      modifies this`obj, this`mark, this`allgc, this`sweepgc, this`sweepstr, this`phase
      ensures Inv() && phase == SweepString
      ensures OnlyDeadFreed(old(mark), mark) && SameObjects(old(obj), obj)
    {
      hide *;
      BaseUnfold();
      AllUnswept(obj, mark, currentwhite, fixed, strt, allgc, mainthread);
      SameStart(obj, mark);
      phase := SweepString;
      sweepstr := |strt|;
      sweepgc := |allgc|;
      BaseFold();
      SweepFold();
      var live := false;
      while sweepgc > 0 && !live
        invariant BaseI() && SweepI() && phase == SweepString
        invariant OnlyDeadFreed(old(mark), mark) && SameObjects(old(obj), obj)
        decreases sweepgc
      {
        ghost var h, m := obj, mark;
        ShapeOf();
        live := SweepOne();
        FreedTrans(old(obj), old(mark), h, m);
      }
      InvFold();
    }

    lemma ShapeOf()
      requires BaseI()
      ensures HeapShape(obj)
    {
    }

    lemma InvFold()
      requires BaseI() && skip == {}
      requires match phase
               case Propagate => MarkI()
               case Atomic => false
               case SweepString => SweepI()
               case Sweep => SweepI() && sweepstr == 0
               case Pause => AllCurrent(mark, currentwhite)
      ensures Inv()
    {
    }

    lemma InvUnfold()
      requires Inv()
      ensures BaseI() && !phase.Atomic? && skip == {}
      ensures phase.Propagate? ==> MarkI()
      ensures phase.SweepString? || phase.Sweep? ==> SweepI()
      ensures phase.Sweep? ==> sweepstr == 0
      ensures phase.Pause? ==> AllCurrent(mark, currentwhite)
    {
    }

    lemma FreedTrans(h0: Heap, m0: Colors, h: Heap, m: Colors)
      requires OnlyDeadFreed(m0, m) && SameObjects(h0, h) && OnlyDeadFreed(m, mark) && SameObjects(h, obj)
      requires HeapShape(h)
      ensures OnlyDeadFreed(m0, mark) && SameObjects(h0, obj)
    {
      forall r | r in obj ensures r in h0
          && (obj[r] == h0[r] || (h0[r].OpenUp? && obj[r] == ClosedUp(StackAt(h0, h0[r].th, h0[r].idx)))) {
        assert r in h;
        if obj[r] != h[r] && h[r] == h0[r] {
          assert h[h[r].th] == h0[h[r].th];
        }
      }
    }

    // ---- The cycle (lgc.c:338-347, 999-1103)

    /** restartcollection: the gray lists are reset and the roots are marked. */
    method RestartCollection(ghost T: set<Ref>)
      requires BaseI() && AllCurrent(mark, currentwhite) && Closed(obj, T) && RootsIn(obj, T) && RefsIn(obj, tobefnz, T)
          && skip == {}
      modifies this`mark, this`gray, this`grayagain, this`weak, this`allweak, this`ephemeron
      ensures MarkingOk(T, multiset{}) && BaseI() && MarkI()
      ensures AllweakValues(obj, mark, allweak) && MarkedRoots(mark) && SL() == Lists([], [], [], [])
    {
      hide *;
      ghost var m := mark;
      BaseUnfold();
      ResetLists(T);
      ghost var l := SL();
      MarkAllRoots(T);
      MainMarked();
      SLIs();
      Stepped(obj, m, l, T, true);
    }

    method ResetLists(ghost T: set<Ref>)
      requires Base(obj, mark, currentwhite, fixed, strt, allgc, mainthread) && AllCurrent(mark, currentwhite)
          && Closed(obj, T) && skip == {}
      modifies this`gray, this`grayagain, this`weak, this`allweak, this`ephemeron
      ensures MarkingOk(T, multiset{}) && OneWhite(mark, currentwhite)
      ensures AllweakMeta(obj, mark, allweak) && AllweakValues(obj, mark, allweak) && SL() == Lists([], [], [], [])
    {
      hide *;
      PauseTri(obj, mark, currentwhite, fixed, strt, allgc, mainthread);
      KeysOf();
      gray, grayagain, weak, allweak, ephemeron := [], [], [], [], [];
      SLIs();
      FreshLists(T);
      ClosedImplies(obj, T, skip);
      NoneSpare(allweak);
      Fold(T, multiset{});
    }

    /** The main thread, the other roots and the objects being finalized. */
    method MarkAllRoots(ghost T: set<Ref>)
      requires MarkingOk(T, multiset{}) && RootsIn(obj, T) && RefsIn(obj, tobefnz, T)
      modifies this`mark, this`gray
      ensures MarkingOk(T, multiset{}) && MarkedRoots(mark)
      ensures Progress(obj, old(mark), SL(), obj, mark, SL(), true)
    {
      hide *;
      ghost var m := mark;
      MainFacts(T);
      MarkRoot(mainthread, T);
      ghost var m1 := mark;
      MarkRoots(T, multiset{});
      ghost var m2 := mark;
      ProgressTrans(obj, m, SL(), obj, m1, SL(), obj, m2, SL(), true);
      MarkBeingFnz(T);
      ProgressTrans(obj, m, SL(), obj, m2, SL(), obj, mark, SL(), true);
      RootsKept(obj, m2, SL(), obj, mark, SL());
      ProgressTrans(obj, m1, SL(), obj, m2, SL(), obj, mark, SL(), true);
      MainKept(obj, m1, SL(), obj, mark, SL());
      RootsTogether();
    }

    method MarkRoot(o: Ref, ghost T: set<Ref>)
      requires MarkingOk(T, multiset{}) && o in obj && o in T
      modifies this`mark, this`gray
      ensures MarkingOk(T, multiset{}) && Marked(mark, o)
      ensures Progress(obj, old(mark), SL(), obj, mark, SL(), true)
    {
      hide *;
      ghost var m, g := mark, gray;
      Unfold(T, multiset{});
      TriHeap(obj, m, multiset(gray) + Linked(SL()) + multiset{});
      Ready(T);
      MarkValue(Coll(o), T);
      StillMarked(mark, mark, mark, Coll(o)) by { GrowsRefl(mark); }
      AfterMarks(obj, m, g, mark, gray, SL(), T, multiset{});
      Fold(T, multiset{});
    }

    lemma MainFacts(T: set<Ref>)
      requires RootsIn(obj, T)
      ensures mainthread in obj && mainthread in T
    {
    }

    lemma FreshLists(T: set<Ref>)
      requires Tri(obj, mark, multiset{}) && AllCurrent(mark, currentwhite) && obj.Keys == mark.Keys
      requires gray == [] && SL() == Lists([], [], [], [])
      ensures Tri(obj, mark, multiset(gray) + Linked(SL()) + multiset{}) && ListsOk(obj, SL()) && Within(obj, mark, T)
      ensures AllweakMeta(obj, mark, allweak) && AllweakValues(obj, mark, allweak)
    {
      assert multiset(gray) + Linked(SL()) + multiset{} == multiset{};
    }

    lemma MainKept(a: Heap, m: Colors, l: Lists, b: Heap, m2: Colors, l2: Lists)
      requires Progress(a, m, l, b, m2, l2, true) && Marked(m, mainthread)
      ensures Marked(m2, mainthread)
    {
    }

    ghost predicate MarkedRoots(m: Colors)
      reads this`mainthread, this`running, this`registry, this`mt, this`tobefnz
    {
      Marked(m, mainthread) && Marked(m, running) && ValMarked(m, registry) && AllMarked(m, mt)
          && AllRefsMarked(m, tobefnz)
    }

    lemma MainMarked()
      requires MarkedRoots(mark)
      ensures Marked(mark, mainthread)
    {
    }

    lemma RootsTogether()
      requires Marked(mark, mainthread) && Marked(mark, running) && ValMarked(mark, registry) && AllMarked(mark, mt)
          && AllRefsMarked(mark, tobefnz)
      ensures MarkedRoots(mark)
    {
    }

    /** A step of the mark phase keeps the base invariant and the main invariant. */
    lemma Stepped(h: Heap, m: Colors, l: Lists, T: set<Ref>, atomic: bool)
      requires Base(h, m, currentwhite, fixed, strt, allgc, mainthread) && RootsAlive(m, currentwhite, fixed, Rs())
          && sweepstr <= |strt| && sweepgc <= |allgc|
      requires mainthread in h && h[mainthread].Thread? && running in h && h[running].Thread?
      requires OneWhite(m, currentwhite) && Progress(h, m, l, obj, mark, SL(), atomic) && MarkingOk(T, multiset{})
          && Marked(mark, mainthread)
      requires AllweakMeta(h, m, l.allweak)
      ensures BaseI() && MarkI()
      ensures AllweakValues(h, m, l.allweak) ==> AllweakValues(obj, mark, allweak)
    {
      hide Base, Tri, Closed, Within, AllweakMeta, AllweakValues, ListsOk, Shrinks, Trims, ListsDone, OpenDone, Loses,
          RootsAlive, OneWhite;
      ProgressAdvance(h, m, l, obj, mark, SL(), atomic);
      KeptWhite(m, mark, currentwhite);
      MarkBase(h, m, obj, mark, multiset(gray) + Linked(SL()) + multiset{}, currentwhite, fixed, strt, allgc,
          mainthread);
      RootsInKeys(m, mark, currentwhite, fixed, Rs());
      ShrinkKinds(h, obj, mainthread);
      ShrinkKinds(h, obj, running);
      KeysOf();
    }

    lemma MarkUnfold()
      requires MarkI()
      ensures TriOk(multiset{}) && OneWhite(mark, currentwhite) && Marked(mark, mainthread)
          && AllweakMeta(obj, mark, allweak)
      ensures HeapOk(obj) && obj.Keys == mark.Keys && Tri(obj, mark, multiset(gray) + Linked(SL()) + multiset{})
          && ListsOk(obj, SL())
    {
    }

    lemma MainStays(a: Heap, m: Colors, l: Lists, b: Heap, m2: Colors, l2: Lists, atomic: bool)
      requires Progress(a, m, l, b, m2, l2, atomic) && Marked(m, mainthread)
      ensures Marked(m2, mainthread)
    {
    }

    // ---- Single steps (lgc.c:1044-1103)

    /** T bounds what the rest of the mark phase may mark. */
    ghost predicate CanMark(T: set<Ref>)
      reads this
    {
      && (phase.Pause? || phase.Propagate? ==> RootsWithin(Rs(), T))
      && (phase.Pause? ==> Closed(obj, T))
      && (phase.Propagate? ==> MarkingOk(T, multiset{}))
    }

    /** All objects together are such a bound. */
    lemma AnyBound()
      requires Inv()
      ensures CanMark(obj.Keys)
    {
      hide *;
      InvUnfold();
      BaseUnfold();
      RootsBounded();
      if phase.Pause? {
        PauseTri(obj, mark, currentwhite, fixed, strt, allgc, mainthread);
        KeysClosed(obj, mark);
      } else if phase.Propagate? {
        MarkUnfold();
        KeysClosed(obj, mark);
        ClosedImplies(obj, obj.Keys, skip);
        NoneSpare(allweak);
        Fold(obj.Keys, multiset{});
      }
      CanMarkFold(obj.Keys);
    }

    lemma RootsBounded()
      requires RootsAlive(mark, currentwhite, fixed, Rs()) && obj.Keys == mark.Keys
      ensures RootsWithin(Rs(), obj.Keys)
    {
    }

    lemma CanMarkFold(T: set<Ref>)
      requires (phase.Pause? || phase.Propagate? ==> RootsWithin(Rs(), T)) && (phase.Pause? ==> Closed(obj, T))
          && (phase.Propagate? ==> MarkingOk(T, multiset{}))
      ensures CanMark(T)
    {
    }

    lemma CanMarkUnfold(T: set<Ref>)
      requires CanMark(T)
      ensures (phase.Pause? || phase.Propagate? ==> RootsWithin(Rs(), T)) && (phase.Pause? ==> Closed(obj, T))
          && (phase.Propagate? ==> MarkingOk(T, multiset{}))
    {
    }

    lemma RootsSplit(T: set<Ref>)
      requires RootsWithin(Rs(), T) && RootsAlive(mark, currentwhite, fixed, Rs()) && obj.Keys == mark.Keys
      ensures RootsIn(obj, T) && RefsIn(obj, tobefnz, T)
    {
      assert IsRoot(Rs(), mainthread) && IsRoot(Rs(), running);
      assert forall v: Value :: v.Coll? && (v == registry || v in mt) ==> IsRoot(Rs(), v.ref);
      forall i | 0 <= i < |tobefnz| ensures tobefnz[i] in obj && tobefnz[i] in T { assert IsRoot(Rs(), tobefnz[i]); }
    }

    method StepPause(ghost T: set<Ref>)
      requires Inv() && phase.Pause? && CanMark(T)
      modifies this`phase, this`mark, this`gray, this`grayagain, this`weak, this`allweak, this`ephemeron
      ensures Inv() && phase == Propagate && CanMark(T) && AllweakValues(obj, mark, allweak)
      ensures MarkedRoots(mark) && SL() == Lists([], [], [], [])
    {
      hide *;
      InvUnfold();
      BaseUnfold();
      CanMarkUnfold(T);
      RootsSplit(T);
      RestartCollection(T);
      phase := Propagate;
      InvFold();
      CanMarkFold(T);
    }

    method StepPropagate(ghost T: set<Ref>)
      requires Inv() && phase.Propagate? && gray != [] && CanMark(T)
      modifies this`obj, this`mark, this`gray, this`grayagain, this`weak, this`allweak, this`ephemeron
      ensures Inv() && CanMark(T)
      ensures Progress(old(obj), old(mark), old(SL()), obj, mark, SL(), false) && Trims(old(obj), obj)
      ensures old(AllweakValues(obj, mark, allweak)) ==> AllweakValues(obj, mark, allweak)
      ensures Visited(old(gray)[0], old(SL()), SL(), obj, mark, false) && forall r :: r in old(gray)[1..] ==> r in gray
      ensures Whites(mark) <= Whites(old(mark)) && (Whites(mark) == Whites(old(mark)) ==> |gray| < |old(gray)|)
    {
      hide *;
      ghost var h, m, l := obj, mark, SL();
      SLIs();
      InvUnfold();
      BaseUnfold();
      MarkUnfold();
      CanMarkUnfold(T);
      PropagateMark(T, multiset{});
      MainStays(h, m, l, obj, mark, SL(), false);
      ProgressAdvance(h, m, l, obj, mark, SL(), false);
      SLIs();
      Stepped(h, m, l, T, false);
      InvFold();
      CanMarkFold(T);
    }

    ghost function StrongRs(): Roots
      reads this`mainthread, this`running, this`registry, this`mt, this`tobefnz, this`mark
    {
      StrongOf(Rs(), mark)
    }

    /**
     * What atomic promises if the tables of the allweak list had their values marked: what is kept alive is marked, and
     * clearing drops nothing else.
     */
    ghost predicate KeepsAll(h: Heap, rs: Roots, h2: Heap, m2: Colors) {
      && (forall r :: KeptAlive(h, rs, r) ==> Marked(m2, r))
      && (forall o :: o in h && o in h2 ==> EntriesKept(h, rs, h[o], h2[o]))
    }

    /** What atomic promises in any case; aw is the allweak list at its start. */
    ghost predicate KeepsFirm(h: Heap, aw: seq<Ref>, rs: Roots, h2: Heap, m2: Colors) {
      && (forall r :: FirmAlive(h, aw, rs, r) ==> Marked(m2, r))
      && (forall o :: o in h && o in h2 ==> ObjShrinks(h[o], h2[o]) && EntriesFirm(h, aw, rs, h[o], h2[o]))
    }

    /** The atomic step up to the flip. */
    method AtomicPart(separated: seq<Ref>, ghost T: set<Ref>)
      requires Inv() && phase.Propagate? && gray == [] && CanMark(T) && RefsIn(obj, separated, T)
      modifies this`obj, this`mark, this`gray, this`grayagain, this`weak, this`allweak, this`ephemeron, this`tobefnz,
          this`currentwhite, this`phase
      ensures BaseI() && tobefnz == old(tobefnz) + separated && currentwhite == !old(currentwhite)
      ensures Within(obj, mark, T) && HeapShape(obj) && MarkedOnly()
      ensures old(AllweakValues(obj, mark, allweak) && UpsBelowTop(obj))
          ==> KeepsAll(old(obj), old(StrongRs()), obj, mark)
      ensures KeepsFirm(old(obj), old(allweak), old(StrongRs()), obj, mark)
      ensures Shrinks(old(obj), obj)
    {
      hide *;
      InvUnfold();
      MarkUnfold();
      CanMarkUnfold(T);
      BaseUnfold();
      AtomicCore(separated, T);
    }

    /** What the atomic step does also when the metatable of a table on the allweak list is not marked. */
    method AtomicCore(separated: seq<Ref>, ghost T: set<Ref>)
      requires BaseI() && phase.Propagate? && gray == [] && OneWhite(mark, currentwhite) && Marked(mark, mainthread)
      requires MarkingOk(T, multiset{}) && RootsWithin(Rs(), T) && RefsIn(obj, separated, T)
      modifies this`obj, this`mark, this`gray, this`grayagain, this`weak, this`allweak, this`ephemeron, this`tobefnz,
          this`currentwhite, this`phase
      ensures tobefnz == old(tobefnz) + separated && currentwhite == !old(currentwhite) && phase == Atomic
      ensures Within(obj, mark, T) && HeapShape(obj) && MarkedOnly() && Shrinks(old(obj), obj)
          && LiveSlotsStay(old(obj), obj) && obj.Keys == mark.Keys
      ensures OneWhite(mark, old(currentwhite))
      ensures old(AllweakMeta(obj, mark, allweak)) ==>
          BaseI() && KeepsFirm(old(obj), old(allweak), old(StrongRs()), obj, mark)
      ensures old(AllweakMeta(obj, mark, allweak) && AllweakValues(obj, mark, allweak) && UpsBelowTop(obj))
          ==> KeepsAll(old(obj), old(StrongRs()), obj, mark)
    {
      hide *;
      ghost var h, m := obj, mark;
      BaseUnfold();
      KeysOf();
      RootsSplit(T);
      Before();
      ghost var aw := allweak;
      SeparatedIn(h, tobefnz, separated, T);
      ghost var rs := StrongRs();
      StrongMarked(m);
      phase := Atomic;
      AtomicFirst(tobefnz + separated, T);
      ghost var h1, m1, l1 := obj, mark, SL();
      SLIs();
      StrongWithin(h, m, aw, h1, m1, l1, rs);
      AtomicClear(separated, T);
      AtomicAlways(h, m, aw, h1, m1, l1, T);
      if AllweakMeta(h, m, aw) { AtomicEnd(h, m, aw, h1, m1, l1, T, rs); }
    }

    lemma StrongMarked(m: Colors)
      requires m == mark
      ensures StrongRs() == Roots(mainthread, running, registry, mt, StrongRs().fnz) && AllRefsMarked(m, StrongRs().fnz)
    {
    }

    lemma StrongWithin(h: Heap, m: Colors, aw: seq<Ref>, h1: Heap, m1: Colors, l1: Lists, rs: Roots)
      requires HalfDone(h, m, aw, h1, m1, l1)
      requires rs == Roots(mainthread, running, registry, mt, rs.fnz) && AllRefsMarked(m, rs.fnz)
      ensures RootsWithin(rs, MarkedSet(m1))
    {
      hide Trims, Tri, ListsDone, Converged, AllweakValues, AllweakMeta, AllweakSince;
    }

    /** The slots of stacks below the top are not touched. */
    ghost predicate LiveSlotsStay(h: Heap, h2: Heap) {
      forall o {:trigger h2[o]} :: o in h && o in h2 && h[o].Thread? ==>
        h2[o].Thread? && h2[o].top == h[o].top && |h2[o].stack| == |h[o].stack| && forall i ::
            0 <= i < h[o].top && i < |h[o].stack| ==> h2[o].stack[i] == h[o].stack[i]
    }

    lemma AtomicAlways(h: Heap, m: Colors, aw: seq<Ref>, h1: Heap, m1: Colors, l1: Lists, T: set<Ref>)
      requires WasBase(h, m, !currentwhite) && HalfDone(h, m, aw, h1, m1, l1)
      requires Loses(h1, m1, obj) && Kept(m1, mark) && m1.Keys == mark.Keys && MarkingOk(T, multiset{})
      ensures Within(obj, mark, T) && HeapShape(obj) && MarkedOnly() && Shrinks(h, obj) && LiveSlotsStay(h, obj)
          && obj.Keys == mark.Keys && OneWhite(mark, !currentwhite)
    {
      hide Base, Tri, ClosedBut, Within, ListsOk, Shrinks, Trims, OneWhite, Kept, HeapShape, MarkedOnly, LiveSlotsStay,
          ListsDone, Converged, AllweakValues, AllweakMeta, AllweakSince;
      TrimShrinks(h, h1);
      assert Shrinks(h1, obj);
      ShrinksTrans(h, h1, obj);
      KeptWhite(m, m1, !currentwhite);
      KeptWhite(m1, mark, !currentwhite);
      TriHeap(obj, mark, multiset(gray) + Linked(SL()) + multiset{});
      OnlyMarked();
      SlotsStay(h, h1, m1);
      assert HeapShape(obj) by { assert HeapOk(obj); }
    }

    lemma SlotsStay(h: Heap, h1: Heap, m1: Colors)
      requires Trims(h, h1) && Loses(h1, m1, obj)
      ensures LiveSlotsStay(h, obj)
    {
      forall o {:trigger obj[o]} | o in h && o in obj && h[o].Thread?
        ensures obj[o].Thread? && obj[o].top == h[o].top && |obj[o].stack| == |h[o].stack| && forall i ::
            0 <= i < h[o].top && i < |h[o].stack| ==> obj[o].stack[i] == h[o].stack[i]
      {
        assert ObjTrims(h[o], h1[o]) && ObjLoses(h1, m1, h1[o], obj[o]);
      }
    }

    /** The first half of atomic, and what it keeps of the lists. */
    method AtomicFirst(ghost refs: seq<Ref>, ghost T: set<Ref>)
      requires MarkingOk(T, multiset{}) && phase.Atomic? && RootsIn(obj, T) && Marked(mark, mainthread)
      requires RefsIn(obj, refs, T)
      modifies this`obj, this`mark, this`gray, this`grayagain, this`weak, this`allweak, this`ephemeron
      ensures MarkingOk(T, multiset{}) && gray == [] && ListsDone(obj, mark, SL()) && Converged(obj, mark, ephemeron)
      ensures HalfDone(old(obj), old(mark), old(allweak), obj, mark, SL())
      ensures (AllweakMeta(old(obj), old(mark), old(allweak)) ==> AllweakMeta(obj, mark, allweak))
          && RefsIn(obj, refs, T)
    {
      hide *;
      ghost var h, m, aw, e := obj, mark, allweak, Lists([], [], allweak, []);
      AtomicMark(T);
      SLIs();
      MainStays(h, m, e, obj, mark, SL(), true);
      ProgressAdvance(h, m, e, obj, mark, SL(), true);
      ListsStay(h, m, e, obj, mark, SL());
      Unfold(T, multiset{});
      StrongRootsTogether(mark);
      SinceStart(h, m, e, obj, mark, SL());
      HalfFold(h, m, aw, obj, mark, SL());
      RefsKept(h, m, e, obj, mark, SL(), refs, T);
    }

    /** What the first half of atomic did from h and m, with aw the allweak list at its start. */
    ghost predicate HalfDone(h: Heap, m: Colors, aw: seq<Ref>, h1: Heap, m1: Colors, l1: Lists)
      reads this`mainthread, this`running, this`registry, this`mt
    {
      && Trims(h, h1) && Kept(m, m1) && m.Keys == m1.Keys && StrongRootsMarked(m1)
      && Tri(h1, m1, multiset([]) + Linked(l1) + multiset{}) && ListsDone(h1, m1, l1) && Converged(h1, m1, l1.ephemeron)
      && (AllweakValues(h, m, aw) ==> AllweakValues(h1, m1, l1.allweak))
        && (AllweakMeta(h, m, aw) ==> AllweakSince(h1, m1, aw, l1.allweak))
    }

    lemma HalfFold(h: Heap, m: Colors, aw: seq<Ref>, h1: Heap, m1: Colors, l1: Lists)
      requires Trims(h, h1) && Kept(m, m1) && m.Keys == m1.Keys && StrongRootsMarked(m1)
      requires Tri(h1, m1, multiset([]) + Linked(l1) + multiset{}) && ListsDone(h1, m1, l1)
          && Converged(h1, m1, l1.ephemeron)
      requires (AllweakValues(h, m, aw) ==> AllweakValues(h1, m1, l1.allweak))
          && (AllweakMeta(h, m, aw) ==> AllweakSince(h1, m1, aw, l1.allweak))
      ensures HalfDone(h, m, aw, h1, m1, l1)
    {
    }

    /** The base invariant as it was before the colours, the white or the heap changed. */
    ghost predicate WasBase(h: Heap, m: Colors, cw: bool)
      reads this`fixed, this`strt, this`allgc, this`mainthread, this`sweepstr, this`sweepgc, this`running
    {
      && Base(h, m, cw, fixed, strt, allgc, mainthread) && OneWhite(m, cw) && sweepstr <= |strt| && sweepgc <= |allgc|
      && mainthread in h && h[mainthread].Thread? && running in h && h[running].Thread?
    }

    lemma Before()
      requires BaseI() && OneWhite(mark, currentwhite)
      ensures WasBase(obj, mark, currentwhite)
    {
    }

    lemma AtomicEnd(h: Heap, m: Colors, aw: seq<Ref>, h1: Heap, m1: Colors, l1: Lists, T: set<Ref>, rs: Roots)
      requires WasBase(h, m, !currentwhite) && HalfDone(h, m, aw, h1, m1, l1) && AllweakMeta(h, m, aw)
      requires RootsWithin(rs, MarkedSet(m1))
      requires Loses(h1, m1, obj) && Grows(m1, mark) && Kept(m1, mark) && m1.Keys == mark.Keys
      requires MarkingOk(T, multiset{}) && MarkedClosed(obj, mark) && AllRefsMarked(mark, tobefnz)
      ensures BaseI() && Within(obj, mark, T) && HeapShape(obj) && Shrinks(h, obj) && MarkedOnly()
      ensures AllweakValues(h, m, aw) && UpsBelowTop(h) ==> KeepsAll(h, rs, obj, mark)
      ensures KeepsFirm(h, aw, rs, obj, mark)
    {
      hide AllweakSince, KeepsFirm, AllweakMeta;
      hide Base, Tri, ListsDone, Converged, AllweakValues, Trims, Kept, OneWhite, MarkingOk, MarkedClosed, HeapShape,
          Shrinks, StrongRootsMarked, KeepsAll, UpsBelowTop, MarkedOnly;
      hide Loses, Within, Grows, AllRefsMarked, BaseI, Closed, RootsWithin, MarkedSet;
      MarksStay(m1);
      AtomicBase(h, m, h1, m1, T);
      KeptOrNot(h, m, h1, m1, l1, rs);
      KeptFirm(h, aw, h1, m1, l1, rs);
    }

    ghost predicate StrongRootsMarked(m: Colors)
      reads this`mainthread, this`running, this`registry, this`mt
    {
      Marked(m, mainthread) && Marked(m, running) && ValMarked(m, registry) && AllMarked(m, mt)
    }

    lemma StrongRootsTogether(m: Colors)
      requires Marked(m, mainthread) && Marked(m, running) && ValMarked(m, registry) && AllMarked(m, mt)
      ensures StrongRootsMarked(m)
    {
    }

    lemma ListsStay(a: Heap, m: Colors, l: Lists, b: Heap, m2: Colors, l2: Lists)
      requires Advance(a, m, l, b, m2, l2, true)
      ensures AllweakMeta(a, m, l.allweak) ==> AllweakMeta(b, m2, l2.allweak)
      ensures AllweakValues(a, m, l.allweak) ==> AllweakValues(b, m2, l2.allweak)
      ensures Kept(m, m2) && m.Keys == m2.Keys
    {
    }

    lemma SeparatedIn(h: Heap, a: seq<Ref>, b: seq<Ref>, T: set<Ref>)
      requires RefsIn(h, a, T) && RefsIn(h, b, T)
      ensures RefsIn(h, a + b, T)
    {
    }

    lemma MarksStay(m1: Colors)
      requires StrongRootsMarked(m1) && Grows(m1, mark) && AllRefsMarked(mark, tobefnz)
      ensures MarkedRoots(mark)
    {
    }

    /** Right after the flip, what is not dead is what is marked, and fixed strings. */
    ghost predicate MarkedOnly()
      reads this`mark, this`currentwhite, this`fixed
    {
      forall r {:trigger Marked(mark, r)} ::
          r in mark && Alive(mark, currentwhite, fixed, r) ==> Marked(mark, r) || r in fixed
    }

    lemma AtomicBase(h: Heap, m: Colors, h1: Heap, m1: Colors, T: set<Ref>)
      requires Base(h, m, !currentwhite, fixed, strt, allgc, mainthread) && sweepstr <= |strt| && sweepgc <= |allgc|
      requires mainthread in h && h[mainthread].Thread? && running in h && h[running].Thread?
          && m.Keys == m1.Keys == mark.Keys
      requires OneWhite(m, !currentwhite) && Trims(h, h1) && Loses(h1, m1, obj) && Kept(m, m1) && Kept(m1, mark)
      requires MarkingOk(T, multiset{}) && MarkedClosed(obj, mark) && MarkedRoots(mark)
      ensures BaseI() && Within(obj, mark, T) && HeapShape(obj) && Shrinks(h, obj) && MarkedOnly()
    {
      hide Base, Tri, Closed, Within, AllweakMeta, ListsOk, Shrinks, Trims, ObjLoses, RootsAlive, OneWhite, Kept,
          MarkedClosed, HeapShape;
      TrimShrinks(h, h1);
      ShrinksTrans(h, h1, obj);
      KeptWhite(m, m1, !currentwhite);
      KeptWhite(m1, mark, !currentwhite);
      FlipBase(h, m, obj, mark, multiset(gray) + Linked(SL()) + multiset{}, !currentwhite, fixed, strt, allgc,
          mainthread);
      RootsMarkedAlive();
      ShrinkKinds(h, obj, mainthread);
      ShrinkKinds(h, obj, running);
      KeysOf();
      assert HeapShape(obj) by { assert BaseI(); ShapeOf(); }
      assert MarkedOnly() by { OnlyMarked(); }
    }

    lemma OnlyMarked()
      requires OneWhite(mark, !currentwhite)
      ensures MarkedOnly()
    {
    }

    lemma RootsMarkedAlive()
      requires MarkedRoots(mark) && forall r :: Marked(mark, r) ==> Alive(mark, currentwhite, fixed, r)
      ensures RootsAlive(mark, currentwhite, fixed, Rs())
    {
    }

    lemma KeptOrNot(h: Heap, m: Colors, h1: Heap, m1: Colors, l1: Lists, rs: Roots)
      requires Tri(h1, m1, multiset([]) + Linked(l1) + multiset{}) && ListsDone(h1, m1, l1)
          && Converged(h1, m1, l1.ephemeron)
      requires Trims(h, h1) && Loses(h1, m1, obj) && Grows(m1, mark)
      requires RootsWithin(rs, MarkedSet(m1))
      ensures AllweakValues(h1, m1, l1.allweak) && UpsBelowTop(h) ==> KeepsAll(h, rs, obj, mark)
    {
      hide Tri, ListsDone, Converged, AllweakValues, UpsBelowTop, KeptAlive, EntriesKept, Loses, Trims;
      if AllweakValues(h1, m1, l1.allweak) && UpsBelowTop(h) {
        MarkedKept(h, h1, m1, l1, rs);
        forall o | o in h && o in obj ensures EntriesKept(h, rs, h[o], obj[o]) {
          ClearedKept(h, h1, m1, obj, rs, o);
        }
      }
    }

    lemma KeptFirm(h: Heap, aw: seq<Ref>, h1: Heap, m1: Colors, l1: Lists, rs: Roots)
      requires Tri(h1, m1, multiset([]) + Linked(l1) + multiset{}) && ListsDone(h1, m1, l1)
          && Converged(h1, m1, l1.ephemeron)
      requires Trims(h, h1) && Loses(h1, m1, obj) && Grows(m1, mark) && Shrinks(h, obj)
      requires RootsWithin(rs, MarkedSet(m1)) && AllweakSince(h1, m1, aw, l1.allweak)
      ensures KeepsFirm(h, aw, rs, obj, mark)
    {
      hide Tri, ListsDone, Converged, FirmAlive, EntriesFirm, Loses, Trims, AllweakSince, ObjShrinks;
      FirmKept(h, h1, m1, l1, aw, rs);
      forall o | o in h && o in obj ensures EntriesFirm(h, aw, rs, h[o], obj[o]) {
        ClearedFirm(h, h1, m1, obj, aw, rs, o);
      }
    }

    /** What is not dead is in T or is a string. */
    ghost predicate AliveIn(h: Heap, m: Colors, T: set<Ref>)
      reads this`currentwhite, this`fixed
    {
      forall r {:trigger r in T} {:trigger h[r]} :: r in h && Alive(m, currentwhite, fixed, r) ==> r in T || h[r].Str?
    }

    /** What h and its roots kept alive is still there and not dead, with the entries of its tables. */
    ghost predicate Survive(h: Heap, rs: Roots, h2: Heap, m2: Colors)
      reads this`currentwhite, this`fixed
    {
      && (forall r {:trigger KeptAlive(h, rs, r)} ::
          KeptAlive(h, rs, r) ==> r in h2 && Alive(m2, currentwhite, fixed, r))
      && (forall o :: o in h && o in h2 ==> EntriesKept(h, rs, h[o], h2[o]))
    }

    /**
     * What is kept in any case is still there and not dead; no object has changed but for cleared references, and open
     * upvalues of threads that were freed, which are closed.
     */
    ghost predicate SurviveFirm(h: Heap, aw: seq<Ref>, rs: Roots, h2: Heap, m2: Colors)
      reads this`currentwhite, this`fixed
    {
      && (forall r {:trigger FirmAlive(h, aw, rs, r)} ::
          FirmAlive(h, aw, rs, r) ==> r in h2 && Alive(m2, currentwhite, fixed, r))
      && (forall o :: o in h && o in h2 ==>
          (ObjShrinks(h[o], h2[o]) || (h[o].OpenUp? && h2[o].ClosedUp?)) && EntriesFirm(h, aw, rs, h[o], h2[o]))
    }

    /** The atomic step as a whole: marking is finished, the white is flipped, and the sweep starts. */
    method StepAtomic(separated: seq<Ref>, ghost T: set<Ref>)
      requires Inv() && phase.Propagate? && gray == [] && CanMark(T) && RefsIn(obj, separated, T)
      modifies this`obj, this`mark, this`gray, this`grayagain, this`weak, this`allweak, this`ephemeron, this`tobefnz,
          this`currentwhite, this`phase
      modifies this`allgc, this`sweepgc, this`sweepstr
      ensures Inv() && phase == SweepString && tobefnz == old(tobefnz) + separated && currentwhite == !old(currentwhite)
      ensures AliveIn(obj, mark, T) && obj.Keys <= old(obj).Keys
      ensures old(AllweakValues(obj, mark, allweak) && UpsBelowTop(obj))
          ==> Survive(old(obj), old(StrongRs()), obj, mark)
      ensures SurviveFirm(old(obj), old(allweak), old(StrongRs()), obj, mark)
    {
      hide *;
      ghost var h, rs, aw := obj, StrongRs(), allweak;
      InvUnfold();
      AtomicPart(separated, T);
      ghost var h1, m1 := obj, mark;
      BaseUnfold();
      MarkedSurvive(h, T);
      EnterSweep();
      InvUnfold();
      BaseUnfold();
      StaysIn(h, h1, m1, T);
      SurviveOn(h, rs, h1, m1);
      FirmOn(h, aw, rs, h1, m1);
    }

    lemma MarkedSurvive(h: Heap, T: set<Ref>)
      requires Base(obj, mark, currentwhite, fixed, strt, allgc, mainthread) && Within(obj, mark, T) && MarkedOnly()
          && Shrinks(h, obj)
      ensures AliveIn(obj, mark, T) && obj.Keys == h.Keys
      ensures forall rs {:trigger KeepsAll(h, rs, obj, mark)} ::
          KeepsAll(h, rs, obj, mark) ==> Survive(h, rs, obj, mark)
      ensures forall aw, rs {:trigger KeepsFirm(h, aw, rs, obj, mark)} ::
          KeepsFirm(h, aw, rs, obj, mark) ==> SurviveFirm(h, aw, rs, obj, mark)
    {
      hide EntriesKept, KeptAlive, Shrinks, Base, IsDead, EntriesFirm, FirmAlive, ObjShrinks;
      BaseKeys(obj, mark);
      ShrinkKeys(h, obj);
      forall r | r in obj && Alive(mark, currentwhite, fixed, r) ensures r in T || obj[r].Str? {
        if Marked(mark, r) { assert r in T || IsStr(obj, r); }
      }
      forall r | Marked(mark, r) ensures r in obj && Alive(mark, currentwhite, fixed, r) { MarkedAlive(r); }
    }

    lemma BaseKeys(h: Heap, m: Colors)
      requires Base(h, m, currentwhite, fixed, strt, allgc, mainthread)
      ensures h.Keys == m.Keys && forall r :: r in fixed && r in h ==> h[r].Str?
    {
    }

    lemma ShrinkKeys(h: Heap, h2: Heap)
      requires Shrinks(h, h2)
      ensures h.Keys == h2.Keys
    {
    }

    lemma MarkedAlive(r: Ref)
      requires Marked(mark, r)
      ensures Alive(mark, currentwhite, fixed, r)
    {
    }

    lemma StaysIn(h: Heap, h1: Heap, m1: Colors, T: set<Ref>)
      requires AliveIn(h1, m1, T) && h1.Keys == m1.Keys && obj.Keys == mark.Keys && OnlyDeadFreed(m1, mark)
          && SameObjects(h1, obj) && h1.Keys == h.Keys
      ensures AliveIn(obj, mark, T) && obj.Keys <= h.Keys
    {
      assert forall r ::
          r in obj && Alive(mark, currentwhite, fixed, r) ==> r in h1 && Alive(m1, currentwhite, fixed, r);
    }

    lemma OpenStays(x: Obj, y: Obj, z: Obj)
      requires (ObjShrinks(x, y) || (x.OpenUp? && y.ClosedUp?)) && (z == y || (y.OpenUp? && z.ClosedUp?))
      ensures ObjShrinks(x, z) || (x.OpenUp? && z.ClosedUp?)
      ensures x.Table? && y.Table? ==> z == y
    {
    }

    lemma FirmOn(h: Heap, aw: seq<Ref>, rs: Roots, h1: Heap, m1: Colors)
      requires SurviveFirm(h, aw, rs, h1, m1) && OnlyDeadFreed(m1, mark) && SameObjects(h1, obj) && h1.Keys == m1.Keys
          && obj.Keys == mark.Keys
      ensures SurviveFirm(h, aw, rs, obj, mark)
    {
      hide FirmAlive, FirmDroppable, ObjShrinks;
      forall r | FirmAlive(h, aw, rs, r) ensures r in obj && Alive(mark, currentwhite, fixed, r) {
        assert Alive(m1, currentwhite, fixed, r);
      }
      forall o | o in h && o in obj ensures (ObjShrinks(h[o], obj[o]) || (h[o].OpenUp? && obj[o].ClosedUp?))
          && EntriesFirm(h, aw, rs, h[o], obj[o]) {
        assert o in h1 && EntriesFirm(h, aw, rs, h[o], h1[o]);
        OpenStays(h[o], h1[o], obj[o]);
      }
    }

    lemma SurviveOn(h: Heap, rs: Roots, h1: Heap, m1: Colors)
      requires OnlyDeadFreed(m1, mark) && SameObjects(h1, obj) && h1.Keys == m1.Keys && obj.Keys == mark.Keys
      ensures Survive(h, rs, h1, m1) ==> Survive(h, rs, obj, mark)
    {
      hide KeptAlive, Droppable;
      if Survive(h, rs, h1, m1) {
        forall r | KeptAlive(h, rs, r) ensures r in obj && Alive(mark, currentwhite, fixed, r) {
          assert Alive(m1, currentwhite, fixed, r);
        }
        forall o | o in h && o in obj ensures EntriesKept(h, rs, h[o], obj[o]) {
          assert o in h1 && EntriesKept(h, rs, h[o], h1[o]);
        }
      }
    }

    /** Nothing that can be reached is dead. */
    lemma DeadUnreachable()
      requires Inv()
      ensures forall r :: Reachable(obj, Rs(), r) ==> r in obj && Alive(mark, currentwhite, fixed, r)
    {
      hide *;
      InvUnfold();
      BaseUnfold();
      BaseAlive();
      ReachableAlive(obj, mark, currentwhite, fixed, Rs());
    }

    lemma BaseAlive()
      requires Base(obj, mark, currentwhite, fixed, strt, allgc, mainthread)
      ensures obj.Keys == mark.Keys && AliveClosed(obj, mark, currentwhite, fixed)
    {
    }

    /** GCSsweepstring: part of the string table. */
    method StepSweepString(count: nat)
      requires Inv() && phase.SweepString?
      modifies this`obj, this`mark, this`strt, this`sweepstr, this`phase
      ensures Inv() && (phase == SweepString || (phase == Sweep && sweepstr == 0))
      ensures sweepstr <= old(sweepstr) && (count > 0 ==> phase == Sweep || sweepstr < old(sweepstr))
      ensures OnlyDeadFreed(old(mark), mark) && SameObjects(old(obj), obj)
    {
      hide *;
      InvUnfold();
      SameStart(obj, mark);
      var i := 0;
      while i < count && sweepstr > 0
        invariant BaseI() && SweepI() && phase == SweepString && sweepstr <= old(sweepstr)
            && (i > 0 ==> sweepstr < old(sweepstr))
        invariant i <= count && OnlyDeadFreed(old(mark), mark) && SameObjects(old(obj), obj)
        decreases sweepstr
      {
        ghost var h, m := obj, mark;
        ShapeOf();
        SweepOneString();
        FreedTrans(old(obj), old(mark), h, m);
        i := i + 1;
      }
      if sweepstr == 0 {
        phase := Sweep;
      }
      InvFold();
    }

    /** GCSsweep: part of the main list, and at its end the main thread. */
    method StepSweep(count: nat)
      requires Inv() && phase.Sweep?
      modifies this`obj, this`mark, this`allgc, this`sweepgc, this`phase
      ensures Inv() && (phase == Sweep || phase == Pause) && (old(sweepgc) == 0 ==> phase == Pause)
      ensures sweepgc <= old(sweepgc) && (count > 0 && old(sweepgc) > 0 ==> sweepgc < old(sweepgc))
      ensures OnlyDeadFreed(old(mark), mark) && SameObjects(old(obj), obj)
    {
      hide *;
      InvUnfold();
      SameStart(obj, mark);
      if sweepgc > 0 {
        SweepSome(count);
        InvFold();
      } else {
        BaseUnfold();
        RootAlive();
        SweepLive(mainthread);
        SweepUnfold();
        BaseUnfold();
        EmptyTails();
        AllSwept(obj, mark, currentwhite, mainthread);
        phase := Pause;
        InvFold();
      }
    }

    method SweepSome(count: nat)
      requires BaseI() && SweepI() && sweepgc > 0
      modifies this`obj, this`mark, this`allgc, this`sweepgc
      ensures BaseI() && SweepI()
      ensures sweepgc <= old(sweepgc) && (count > 0 ==> sweepgc < old(sweepgc))
      ensures OnlyDeadFreed(old(mark), mark) && SameObjects(old(obj), obj)
    {
      hide *;
      SameStart(obj, mark);
      var i := 0;
      while i < count && sweepgc > 0
        invariant BaseI() && SweepI() && sweepgc <= old(sweepgc) && (i > 0 ==> sweepgc < old(sweepgc))
        invariant i <= count && OnlyDeadFreed(old(mark), mark) && SameObjects(old(obj), obj)
        decreases sweepgc
      {
        ghost var h, m := obj, mark;
        ShapeOf();
        var live := SweepOne();
        FreedTrans(old(obj), old(mark), h, m);
        i := i + 1;
      }
    }

    lemma RootAlive()
      requires RootsAlive(mark, currentwhite, fixed, Rs()) && mainthread in obj && obj[mainthread].Thread?
      ensures Alive(mark, currentwhite, fixed, mainthread) && !obj[mainthread].OpenUp?
    {
      assert IsRoot(Rs(), mainthread);
    }

    lemma EmptyTails()
      requires sweepstr == 0 && sweepgc == 0
      ensures Tail(strt, sweepstr) == [] && Tail(allgc, sweepgc) == []
    {
    }

    /**
     * singlestep.  count is how much one sweep step does; separated are the unmarked objects with finalizers, which the
     * atomic step moves to the list of objects being finalized.  Outside the atomic step nothing that can be reached is
     * freed; in the atomic step nothing that is kept alive is.
     */
    method SingleStep(count: nat, separated: seq<Ref>, ghost T: set<Ref>)
      requires Inv() && CanMark(T) && RefsIn(obj, separated, T)
      modifies this`obj, this`mark, this`gray, this`grayagain, this`weak, this`allweak, this`ephemeron, this`tobefnz,
          this`currentwhite, this`phase
      modifies this`strt, this`allgc, this`sweepgc, this`sweepstr
      ensures Inv()
      ensures forall r :: Reachable(obj, Rs(), r) ==> r in obj && Alive(mark, currentwhite, fixed, r)
      ensures old(phase.Pause?) ==> phase == Propagate && CanMark(T) && obj == old(obj)
      ensures old(phase.Pause?) ==> MarkedRoots(mark) && SL() == Lists([], [], [], [])
      ensures old(phase.Propagate? && gray != []) ==>
          phase == Propagate && CanMark(T) && Trims(old(obj), obj) && Grows(old(mark), mark)
      ensures old(phase.Propagate? && gray != []) ==>
          Visited(old(gray)[0], old(SL()), SL(), obj, mark, false) && forall r :: r in old(gray)[1..] ==> r in gray
      ensures old(phase.Propagate? && gray == []) ==>
          phase == SweepString && AliveIn(obj, mark, T) && obj.Keys <= old(obj).Keys
      ensures old(phase.Propagate? && gray == [] && AllweakValues(obj, mark, allweak) && UpsBelowTop(obj))
          ==> Survive(old(obj), old(StrongRs()), obj, mark)
      ensures old(phase.Propagate? && gray == []) ==> SurviveFirm(old(obj), old(allweak), old(StrongRs()), obj, mark)
      ensures old(phase.SweepString? || phase.Sweep?) ==> OnlyDeadFreed(old(mark), mark) && SameObjects(old(obj), obj)
      ensures !old(phase.Propagate? && gray == []) ==> forall r :: Reachable(old(obj), old(Rs()), r) ==> r in obj
      ensures tobefnz == old(tobefnz) + (if old(phase.Propagate? && gray == []) then separated else [])
      ensures currentwhite == (if old(phase.Propagate? && gray == []) then !old(currentwhite) else old(currentwhite))
      ensures old(phase.Pause? || (phase.Propagate? && gray != [] && AllweakValues(obj, mark, allweak)))
          ==> AllweakValues(obj, mark, allweak)
      ensures old(phase.Propagate? && gray != []) ==>
          Whites(mark) <= Whites(old(mark)) && (Whites(mark) == Whites(old(mark)) ==> |gray| < |old(gray)|)
      ensures old(phase.SweepString?) ==>
          (phase == SweepString || phase == Sweep) && (count > 0 ==> phase == Sweep || sweepstr < old(sweepstr))
      ensures old(phase.Sweep?) ==>
          (phase == Sweep || phase == Pause) && (count > 0 ==> phase == Pause || sweepgc < old(sweepgc))
    {
      hide *;
      DeadUnreachable();
      ghost var h, m := obj, mark;
      KeysAgree();
      if phase.Pause? {
        StepPause(T);
      } else if phase.Propagate? {
        if gray != [] {
          ghost var l := SL();
          StepPropagate(T);
          ProgressAdvance(h, m, l, obj, mark, SL(), false);
          TrimKeys(h, obj);
        } else {
          StepAtomic(separated, T);
        }
      } else if phase.SweepString? {
        StepSweepString(count);
        KeysAgree();
        LiveStay(m);
      } else {
        NotAtomic();
        StepSweep(count);
        KeysAgree();
        LiveStay(m);
      }
      DeadUnreachable();
    }

    lemma KeysAgree()
      requires Inv()
      ensures obj.Keys == mark.Keys
    {
    }

    lemma TrimKeys(a: Heap, b: Heap)
      requires Trims(a, b)
      ensures a.Keys == b.Keys
    {
    }

    lemma LiveStay(m: Colors)
      requires OnlyDeadFreed(m, mark)
      ensures forall r {:trigger Alive(m, currentwhite, fixed, r)} {:trigger r in mark} ::
          Alive(m, currentwhite, fixed, r) ==> r in mark
    {
    }

    lemma NotAtomic()
      requires Inv() && !phase.Pause? && !phase.Propagate? && !phase.SweepString?
      ensures phase.Sweep?
    {
    }

    /**
     * A whole collection with no step of the program in it.  The objects left are, strings aside, in the least set that
     * contains the roots, and the objects whose finalizers are to run, and is closed under strong references and the
     * ephemeron rule; and all of that set that the roots alone keep is left.  Without new finalizers that is exact.
     */
    method FullCycle(count: nat, separated: seq<Ref>)
      requires Inv() && phase.Pause? && UpsBelowTop(obj) && count > 0 && RefsIn(obj, separated, obj.Keys)
      modifies this`obj, this`mark, this`gray, this`grayagain, this`weak, this`allweak, this`ephemeron, this`tobefnz,
          this`currentwhite, this`phase
      modifies this`strt, this`allgc, this`sweepgc, this`sweepstr
      ensures Inv() && phase == Pause && tobefnz == old(tobefnz) + separated
      ensures forall r :: r in obj && !obj[r].Str? ==> KeptAlive(old(obj), WithFnz(old(Rs()), separated), r)
      ensures forall r :: KeptAlive(old(obj), old(Rs()), r) ==> r in obj
      ensures forall o :: o in obj ==> o in old(obj) && EntriesKept(old(obj), old(Rs()), old(obj)[o], obj[o])
      ensures Remains(old(obj), obj)
    {
      hide *;
      ghost var h, rs := obj, Rs();
      ghost var T := Least(h, WithFnz(rs, separated));
      CycleStart(separated, T);
      MarkAll(count, separated, T);
      SweepAll(count, h, rs, T);
      CycleEnd(h, rs, WithFnz(rs, separated), T);
    }

    lemma CycleStart(separated: seq<Ref>, T: set<Ref>)
      requires Inv() && phase.Pause? && RefsIn(obj, separated, obj.Keys) && T == Least(obj, WithFnz(Rs(), separated))
      ensures CanMark(T) && RefsIn(obj, separated, T) && HeapOk(obj)
      ensures forall r :: KeptAlive(obj, WithFnz(Rs(), separated), r) <==> r in T
    {
      hide *;
      InvUnfold();
      BaseUnfold();
      PauseTri(obj, mark, currentwhite, fixed, strt, allgc, mainthread);
      RootsBounded();
      FnzWithin(obj, Rs(), separated, obj.Keys);
      LeastClosed(obj, mark, WithFnz(Rs(), separated));
      FnzWithin(obj, Rs(), separated, T);
      CanMarkFold(T);
    }

    /** From the pause through the atomic step. */
    method MarkAll(count: nat, separated: seq<Ref>, ghost T: set<Ref>)
      requires Inv() && phase.Pause? && CanMark(T) && UpsBelowTop(obj) && RefsIn(obj, separated, T)
      modifies this`obj, this`mark, this`gray, this`grayagain, this`weak, this`allweak, this`ephemeron, this`tobefnz,
          this`currentwhite, this`phase
      modifies this`strt, this`allgc, this`sweepgc, this`sweepstr
      ensures Inv() && phase == SweepString && tobefnz == old(tobefnz) + separated
      ensures AliveIn(obj, mark, T) && Survive(old(obj), old(Rs()), obj, mark) && obj.Keys <= old(obj).Keys
      ensures Remains(old(obj), obj)
    {
      hide *;
      ghost var h, rs := obj, Rs();
      NoneSeparated(T);
      SingleStep(count, [], T);
      FnzMarked();
      TrimsRefl(h);
      while gray != []
        invariant Inv() && phase == Propagate && CanMark(T) && tobefnz == old(tobefnz) && Trims(h, obj)
            && AllweakValues(obj, mark, allweak) && AllRefsMarked(mark, tobefnz)
        decreases |Whites(mark)|, |gray|
      {
        ghost var h1, m1 := obj, mark;
        NoneSeparated(T);
        SingleStep(count, [], T);
        TrimsTrans(h, h1, obj);
        SubsetSize(Whites(mark), Whites(m1));
        RefsGrow(m1, mark, tobefnz);
      }
      ghost var h1 := obj;
      UpsStay(h, h1);
      RefsTrim(h, h1, separated, T);
      AllStrong();
      ghost var aw, rs1 := allweak, StrongRs();
      SingleStep(count, separated, T);
      TrimmedSurvive(h, h1, rs);
      FirmRemains(h, h1, aw, rs1);
      InvUnfold();
      KeysAgree();
    }

    lemma AllStrong()
      requires AllRefsMarked(mark, tobefnz)
      ensures StrongRs() == Rs()
    {
    }

    lemma FnzMarked()
      requires MarkedRoots(mark)
      ensures AllRefsMarked(mark, tobefnz)
    {
    }

    lemma NoneSeparated(T: set<Ref>)
      ensures RefsIn(obj, [], T)
    {
    }

    lemma UpsStay(h: Heap, h1: Heap)
      requires Trims(h, h1) && UpsBelowTop(h)
      ensures UpsBelowTop(h1) && h.Keys == h1.Keys
    {
      forall o | o in h1 && h1[o].OpenUp? ensures h1[o].th in h1 && h1[h1[o].th].Thread?
          && h1[o].idx < h1[h1[o].th].top <= |h1[h1[o].th].stack| {
        assert ObjTrims(h[o], h1[o]);
        assert h[o].OpenUp?;
        assert ObjTrims(h[h[o].th], h1[h1[o].th]);
      }
    }

    lemma TrimmedSurvive(h: Heap, h1: Heap, rs: Roots)
      requires Trims(h, h1) && UpsBelowTop(h) && Survive(h1, rs, obj, mark)
      ensures Survive(h, rs, obj, mark)
    {
      hide KeptAlive, EntriesKept, Trims;
      TrimKeys(h, h1);
      forall r | KeptAlive(h, rs, r) ensures KeptAlive(h1, rs, r) { TrimmedKept(h, h1, rs, r); }
      forall o | o in h && o in obj ensures EntriesKept(h, rs, h[o], obj[o]) { TrimmedEntries(h, h1, rs, o, obj[o]); }
    }

    /** Single steps until the pause. */
    method SweepAll(count: nat, ghost h: Heap, ghost rs: Roots, ghost T: set<Ref>)
      requires Inv() && phase.SweepString? && count > 0 && AliveIn(obj, mark, T) && Survive(h, rs, obj, mark)
          && obj.Keys <= h.Keys && Remains(h, obj)
      modifies this`obj, this`mark, this`gray, this`grayagain, this`weak, this`allweak, this`ephemeron, this`tobefnz,
          this`currentwhite, this`phase
      modifies this`strt, this`allgc, this`sweepgc, this`sweepstr
      ensures Inv() && phase == Pause && tobefnz == old(tobefnz)
      ensures AliveIn(obj, mark, T) && Survive(h, rs, obj, mark) && obj.Keys <= h.Keys && Remains(h, obj)
    {
      hide *;
      while phase == SweepString
        invariant Inv() && (phase == SweepString || phase == Sweep) && tobefnz == old(tobefnz)
        invariant AliveIn(obj, mark, T) && Survive(h, rs, obj, mark) && obj.Keys <= h.Keys && Remains(h, obj)
        decreases if phase == SweepString then sweepstr + 1 else 0
      {
        SweepStep(count, h, rs, T);
      }
      while phase == Sweep
        invariant Inv() && (phase == Sweep || phase == Pause) && tobefnz == old(tobefnz)
        invariant AliveIn(obj, mark, T) && Survive(h, rs, obj, mark) && obj.Keys <= h.Keys && Remains(h, obj)
        decreases if phase == Sweep then sweepgc + 1 else 0
      {
        SweepStep(count, h, rs, T);
      }
    }

    method SweepStep(count: nat, ghost h: Heap, ghost rs: Roots, ghost T: set<Ref>)
      requires Inv() && (phase == SweepString || phase == Sweep) && count > 0
      requires AliveIn(obj, mark, T) && Survive(h, rs, obj, mark) && obj.Keys <= h.Keys && Remains(h, obj)
      modifies this`obj, this`mark, this`gray, this`grayagain, this`weak, this`allweak, this`ephemeron, this`tobefnz,
          this`currentwhite, this`phase
      modifies this`strt, this`allgc, this`sweepgc, this`sweepstr
      ensures Inv() && tobefnz == old(tobefnz)
      ensures old(phase) == SweepString ==>
          (phase == SweepString || phase == Sweep) && (phase == Sweep || sweepstr < old(sweepstr))
      ensures old(phase) == Sweep ==> (phase == Sweep || phase == Pause) && (phase == Pause || sweepgc < old(sweepgc))
      ensures AliveIn(obj, mark, T) && Survive(h, rs, obj, mark) && obj.Keys <= h.Keys && Remains(h, obj)
    {
      hide *;
      ghost var h1, m1 := obj, mark;
      KeysAgree();
      CanMarkFold(T);
      NoneSeparated(T);
      SingleStep(count, [], T);
      KeysAgree();
      StaysIn(h1, h1, m1, T);
      SurviveOn(h, rs, h1, m1);
      SameRemains(h, h1);
    }

    lemma FirmRemains(h: Heap, h1: Heap, aw: seq<Ref>, rs: Roots)
      requires Trims(h, h1) && SurviveFirm(h1, aw, rs, obj, mark) && obj.Keys <= h.Keys
      ensures Remains(h, obj)
    {
      TrimShrinks(h, h1);
      forall o | o in obj ensures o in h && (ObjShrinks(h[o], obj[o]) || (h[o].OpenUp? && obj[o].ClosedUp?)) {
        assert ObjShrinks(h[o], h1[o]);
      }
    }

    lemma SameRemains(h: Heap, h1: Heap)
      requires Remains(h, h1) && SameObjects(h1, obj)
      ensures Remains(h, obj)
    {
    }

    lemma CycleEnd(h: Heap, rs: Roots, rs2: Roots, T: set<Ref>)
      requires Inv() && phase.Pause? && AliveIn(obj, mark, T) && Survive(h, rs, obj, mark) && obj.Keys <= h.Keys
      requires forall r :: KeptAlive(h, rs2, r) <==> r in T
      ensures forall r :: r in obj && !obj[r].Str? ==> KeptAlive(h, rs2, r)
      ensures forall r :: KeptAlive(h, rs, r) ==> r in obj
      ensures forall o :: o in obj ==> o in h && EntriesKept(h, rs, h[o], obj[o])
    {
      hide KeptAlive, EntriesKept, Base;
      KeysAgree();
      forall r | r in obj && !obj[r].Str? ensures KeptAlive(h, rs2, r) { assert mark[r] == White(currentwhite); }
    }
  }

  /** Each object of h2 is one of h, but for references replaced by nil; open upvalues may have been closed. */
  ghost predicate Remains(h: Heap, h2: Heap) {
    forall o :: o in h2 ==> o in h && (ObjShrinks(h[o], h2[o]) || (h[o].OpenUp? && h2[o].ClosedUp?))
  }

  /** The roots, with more objects whose finalizers are to run. */
  function WithFnz(rs: Roots, l: seq<Ref>): Roots { rs.(fnz := rs.fnz + l) }

  lemma FnzWithin(h: Heap, rs: Roots, l: seq<Ref>, T: set<Ref>)
    ensures RootsWithin(rs, T) && RefsIn(h, l, T) ==> RootsWithin(WithFnz(rs, l), T)
    ensures RootsWithin(WithFnz(rs, l), T) && RefsIn(h, l, h.Keys) ==> RootsWithin(rs, T) && RefsIn(h, l, T)
  {
    forall i | 0 <= i < |l| ensures IsRoot(WithFnz(rs, l), l[i]) { assert (rs.fnz + l)[|rs.fnz| + i] == l[i]; }
    forall r | IsRoot(rs, r) ensures IsRoot(WithFnz(rs, l), r) {}
    forall r | IsRoot(WithFnz(rs, l), r) ensures IsRoot(rs, r) || r in l {}
    forall r | r in l && RefsIn(h, l, T) ensures r in T {}
  }

  lemma RefsTrim(h: Heap, h1: Heap, l: seq<Ref>, T: set<Ref>)
    requires Trims(h, h1) && RefsIn(h, l, T)
    ensures RefsIn(h1, l, T)
  {
  }

  lemma RefsGrow(m: Colors, m2: Colors, l: seq<Ref>)
    requires AllRefsMarked(m, l) && Grows(m, m2)
    ensures AllRefsMarked(m2, l)
  {
  }

  lemma TrimmedKept(h: Heap, h1: Heap, rs: Roots, r: Ref)
    requires Trims(h, h1) && UpsBelowTop(h) && KeptAlive(h, rs, r)
    ensures KeptAlive(h1, rs, r)
  {
    forall T | Closed(h1, T) && RootsWithin(rs, T) ensures r in T { TrimsClosed(h, h1, T); }
  }

  lemma TrimmedEntries(h: Heap, h1: Heap, rs: Roots, o: Ref, y: Obj)
    requires Trims(h, h1) && UpsBelowTop(h) && o in h && EntriesKept(h1, rs, h1[o], y)
    ensures EntriesKept(h, rs, h[o], y)
  {
    hide KeptAlive;
    assert ObjTrims(h[o], h1[o]);
    forall v | Droppable(h1, rs, v) ensures Droppable(h, rs, v) {
      if KeptAlive(h, rs, v.ref) { TrimmedKept(h, h1, rs, v.ref); }
      if v.ref in h { assert ObjTrims(h[v.ref], h1[v.ref]); }
    }
    if h[o].Table? {
      forall i | 0 <= i < |h[o].node| && h[o].node[i].val != Nil ensures h1[o].node[i] == h[o].node[i] {
        assert NodeTrims(h[o].node[i], h1[o].node[i]);
      }
    }
  }

  /**
   * What the steps of the mark phase do besides marking: an entry is lost only for an unmarked object in it, marks are
   * kept, and what the other lists stand for is kept (in the atomic step; for the allweak list, always).
   */
  ghost predicate Advance(a: Heap, m: Colors, l: Lists, b: Heap, m2: Colors, l2: Lists, atomic: bool) {
    && Loses(a, m, b) && Grows(m, m2) && Kept(m, m2) && m.Keys == m2.Keys
    && (OpenDone(a, m) ==> OpenDone(b, m2))
    && Suffix(l.weak, l2.weak) && Suffix(l.allweak, l2.allweak)
    && (atomic && ListsDone(a, m, l) ==> ListsDone(b, m2, l2))
    && (AllweakMeta(a, m, l.allweak) ==> AllweakMeta(b, m2, l2.allweak))
    && (AllweakValues(a, m, l.allweak) ==> AllweakValues(b, m2, l2.allweak))
    && NewDone(b, m2, l.allweak, l2.allweak)
  }

  /** The tables that have come to the allweak list since it was aw have their values marked. */
  ghost predicate NewDone(h: Heap, m: Colors, aw: seq<Ref>, aw2: seq<Ref>) {
    forall i {:trigger aw2[i]} :: 0 <= i < |aw2| - |aw| ==> ValuesDone(h, m, aw2[i])
  }

  lemma NewDoneTrans(a: Heap, m: Colors, b: Heap, m2: Colors, aw: seq<Ref>, aw1: seq<Ref>, aw2: seq<Ref>)
    requires Shrinks(a, b) && Grows(m, m2) && Suffix(aw1, aw2) && NewDone(a, m, aw, aw1) && NewDone(b, m2, aw1, aw2)
    ensures NewDone(b, m2, aw, aw2)
  {
    var d := |aw2| - |aw1|;
    forall i {:trigger aw2[i]} | 0 <= i < |aw2| - |aw| ensures ValuesDone(b, m2, aw2[i]) {
      if i >= d {
        assert aw2[i] == aw2[d..][i - d];
        assert ValuesDone(a, m, aw1[i - d]);
        DoneMono(a, m, b, m2, aw2[i]);
      }
    }
  }

  /** Marking, as opposed to clearing, loses no entry at all. */
  ghost predicate Progress(a: Heap, m: Colors, l: Lists, b: Heap, m2: Colors, l2: Lists, atomic: bool) {
    Advance(a, m, l, b, m2, l2, atomic) && Trims(a, b)
  }

  lemma ProgressAdvance(a: Heap, m: Colors, l: Lists, b: Heap, m2: Colors, l2: Lists, atomic: bool)
    requires Progress(a, m, l, b, m2, l2, atomic)
    ensures Advance(a, m, l, b, m2, l2, atomic) && Trims(a, b) && Shrinks(a, b) && Grows(m, m2)
  {
  }

  lemma ProgressRefl(a: Heap, m: Colors, l: Lists, atomic: bool)
    ensures Progress(a, m, l, a, m, l, atomic)
  {
  }

  ghost predicate RefsIn(h: Heap, l: seq<Ref>, T: set<Ref>) {
    forall i :: 0 <= i < |l| ==> l[i] in h && l[i] in T
  }

  ghost predicate AllRefsMarked(m: Colors, l: seq<Ref>) {
    forall i :: 0 <= i < |l| ==> Marked(m, l[i])
  }

  /**
   * The roots that atomic marks before it looks at finalizers; objects that were being finalized when the cycle started
   * are among them, because they are marked already.
   */
  ghost function StrongOf(rs: Roots, m: Colors): Roots { rs.(fnz := if AllRefsMarked(m, rs.fnz) then rs.fnz else []) }


  lemma TriHeap(h: Heap, m: Colors, L: multiset<Ref>)
    requires Tri(h, m, L)
    ensures HeapOk(h) && h.Keys == m.Keys
  {
  }

  lemma MetaKept(a: Heap, m: Colors, l: Lists, b: Heap, m2: Colors, l2: Lists)
    requires Advance(a, m, l, b, m2, l2, true) && AllweakMeta(a, m, l.allweak)
    ensures AllweakMeta(b, m2, l2.allweak)
  {
  }

  lemma ListTables(h: Heap, l: Lists)
    requires ListsOk(h, l)
    ensures TableList(h, l.weak) && TableList(h, l.allweak) && TableList(h, l.ephemeron)
  {
  }

  lemma TablePrefix(h: Heap, l: seq<Ref>, n: nat)
    requires TableList(h, l) && n <= |l|
    ensures TableList(h, l[..n])
  {
  }

  /** What stays true of clearing and of the lists while marking goes on. */
  lemma KeptLists(a: Heap, m: Colors, l: Lists, b: Heap, m2: Colors, l2: Lists, w: seq<Ref>, aw: seq<Ref>)
    requires Advance(a, m, l, b, m2, l2, true) && ListsDone(a, m, l)
    requires AllValuesMarked(a, m, w) && AllValuesMarked(a, m, aw)
    ensures ListsDone(b, m2, l2) && (AllweakMeta(a, m, l.allweak) ==> AllweakMeta(b, m2, l2.allweak))
    ensures AllValuesMarked(b, m2, w) && AllValuesMarked(b, m2, aw)
    ensures Suffix(l.weak, l2.weak) && Suffix(l.allweak, l2.allweak)
  {
    forall o | o in a ensures ValuesMarked(a, m, o) ==> ValuesMarked(b, m2, o) { DoneMono(a, m, b, m2, o); }
  }

  lemma KeptKeys(a: Heap, m: Colors, l: Lists, b: Heap, m2: Colors, l2: Lists, w: seq<Ref>)
    requires Advance(a, m, l, b, m2, l2, true) && AllKeysMarked(a, m, w)
    ensures AllKeysMarked(b, m2, w)
  {
    forall o | o in a ensures WeakDone(a, m, o) ==> WeakDone(b, m2, o) { DoneMono(a, m, b, m2, o); }
  }

  lemma KeptRefs(a: Heap, m: Colors, l: Lists, b: Heap, m2: Colors, l2: Lists, w: seq<Ref>)
    requires Advance(a, m, l, b, m2, l2, true) && AllRefsMarked(m, w)
    ensures AllRefsMarked(m2, w)
  {
  }

  lemma RefsKept(a: Heap, m: Colors, l: Lists, b: Heap, m2: Colors, l2: Lists, w: seq<Ref>, T: set<Ref>)
    requires Advance(a, m, l, b, m2, l2, true) && RefsIn(a, w, T)
    ensures RefsIn(b, w, T)
  {
  }

  lemma Outer(a: Heap, m: Colors, l: Lists, b: Heap, m2: Colors, l2: Lists)
    requires Advance(a, m, l, b, m2, l2, true)
    ensures Loses(a, m, b) && Grows(m, m2) && Kept(m, m2) && m.Keys == m2.Keys
  {
  }

  lemma JoinValues(h: Heap, m: Colors, l: seq<Ref>, n: nat)
    requires n <= |l| && AllValuesMarked(h, m, l[..n]) && AllValuesMarked(h, m, l[n..])
    ensures AllValuesMarked(h, m, l)
  {
    forall i | 0 <= i < |l| ensures ValuesMarked(h, m, l[i]) {
      if i < n { assert l[..n][i] == l[i]; } else { assert l[n..][i - n] == l[i]; }
    }
  }

  /** Clearing as a step of the atomic phase. */
  lemma ClearsProgress(a: Heap, m: Colors, g: seq<Ref>, b: Heap, m2: Colors, l: Lists, T: set<Ref>, X: set<Ref>)
    requires Clears(a, m, b, m2) && Tri(a, m, multiset(g) + Linked(l) + multiset{}) && ListsOk(a, l)
        && ClosedBut(a, T, X) && Within(a, m, T)
    ensures Tri(b, m2, multiset(g) + Linked(l) + multiset{}) && ListsOk(b, l) && ClosedBut(b, T, X) && Within(b, m2, T)
    ensures Advance(a, m, l, b, m2, l, true)
    ensures Converged(a, m, l.ephemeron) ==> Converged(b, m2, l.ephemeron)
  {
    hide *;
    ClearsParts(a, m, b, m2);
    QuietMarks(a, m, m2, g, T);
    AfterMarks(a, m, g, m2, g, l, T, multiset{});
    ShrinkTri(a, b, m2, multiset(g) + Linked(l) + multiset{});
    ShrinkLists(a, b, l);
    ShrinkClosedBut(a, b, T, X);
    ShrinkWithin(a, b, m2, T);
    ClearsLists(a, m, g, b, m2, l, T);
    ClearsConverged(a, m, b, m2, l.ephemeron);
  }

  lemma ClearsParts(a: Heap, m: Colors, b: Heap, m2: Colors)
    requires Clears(a, m, b, m2)
    ensures Loses(a, m, b) && Shrinks(a, b) && Quiet(a, m, m2)
  {
  }

  lemma ClearsLists(a: Heap, m: Colors, g: seq<Ref>, b: Heap, m2: Colors, l: Lists, T: set<Ref>)
    requires Loses(a, m, b) && Marks(a, m, g, m2, g, T)
    ensures Advance(a, m, l, b, m2, l, true)
  {
    hide ObjLoses;
    ListsMono(a, m, g, b, m2, g, T, l);
    MarksWhites(a, m, g, m2, g, T);
  }

  lemma ClearsConverged(a: Heap, m: Colors, b: Heap, m2: Colors, l: seq<Ref>)
    requires Shrinks(a, b) && Quiet(a, m, m2)
    ensures Converged(a, m, l) ==> Converged(b, m2, l)
  {
    forall i | Converged(a, m, l) && 0 <= i < |l| ensures EphSettled(b, m2, l[i]) { SettledMono(a, m, b, m2, l[i]); }
  }

  /** At the end of the atomic step every marked object holds marked objects only. */
  lemma FinalClosed(h: Heap, m: Colors, g: seq<Ref>, l: Lists)
    requires Tri(h, m, multiset(g) + Linked(l) + multiset{}) && g == [] && ListsDone(h, m, l)
        && Converged(h, m, l.ephemeron)
    requires AllValuesMarked(h, m, l.weak) && AllValuesMarked(h, m, l.allweak) && AllweakMeta(h, m, l.allweak)
    requires AllKeysMarked(h, m, l.allweak) && AllKeysMarked(h, m, l.ephemeron)
    ensures MarkedClosed(h, m)
  {
    forall o | o in h && Marked(m, o) ensures AllHeldMarked(h, m, o) {
      if m[o].Black? {
      } else if !h[o].OpenUp? {
        FinalGray(h, m, g, l, o);
      }
    }
  }

  lemma FinalGray(h: Heap, m: Colors, g: seq<Ref>, l: Lists, o: Ref)
    requires Tri(h, m, multiset(g) + Linked(l) + multiset{}) && g == [] && ListsDone(h, m, l)
        && Converged(h, m, l.ephemeron)
    requires AllValuesMarked(h, m, l.weak) && AllValuesMarked(h, m, l.allweak) && AllweakMeta(h, m, l.allweak)
    requires AllKeysMarked(h, m, l.allweak) && AllKeysMarked(h, m, l.ephemeron)
    requires o in h && m[o].Gray? && !h[o].OpenUp?
    ensures AllHeldMarked(h, m, o)
  {
    assert (multiset(g) + Linked(l) + multiset{})[o] == 1 by { assert NeedsList(h, m, o); }
    assert o in l.again || o in l.weak || o in l.allweak || o in l.ephemeron;
    if o in l.again {
    } else if o in l.weak {
      WeakTableClosed(h, m, o);
    } else if o in l.allweak {
      WeakTableClosed(h, m, o);
    } else {
      EphemeronClosed(h, m, o);
    }
  }

  /** us are the open upvalues of o. */
  ghost predicate UpsOf(h: Heap, us: set<Ref>, o: Ref) {
    forall u :: (u in us <==> u in h && h[u].OpenUp? && h[u].th == o)
  }

  lemma UpsOfAt(h: Heap, us: set<Ref>, o: Ref, u: Ref)
    requires UpsOf(h, us, o) && u in us
    ensures u in h && h[u].OpenUp? && h[u].th == o && (o in h && h[o].Thread? ==> u != o)
  {
  }

  lemma UpsOfNext(h: Heap, us: set<Ref>, o: Ref, u: Ref, h2: Heap)
    requires UpsOf(h, us + {u}, o) && u !in us
    requires h2 == h - {u} || (u in h2 && h2 == h[u := h2[u]] && h2[u].ClosedUp?)
    ensures UpsOf(h2, us, o)
  {
  }

  lemma UpsOfEnd(h: Heap, o: Ref)
    requires UpsOf(h, {}, o)
    ensures forall u :: u in h && h[u].OpenUp? ==> h[u].th != o
  {
    var none: set<Ref> := {};
    forall u | u in h && h[u].OpenUp? ensures h[u].th != o { assert u !in none; }
  }

  lemma SuffixRefl(l: seq<Ref>)
    ensures Suffix(l, l)
  {
  }

  lemma SuffixAt(a: seq<Ref>, b: seq<Ref>, n: nat)
    requires Suffix(a, b) && 0 < n <= |a|
    ensures n <= |b| && b[|b| - n] == a[|a| - n]
  {
    assert b[|b| - |a|..][|a| - n] == b[|b| - n];
  }

  lemma CutIs(l: seq<Ref>, k: nat)
    requires k < |l|
    ensures Cut(l, k) == l[..k] + l[k + 1..]
  {
  }

  lemma CutSubset(l: seq<Ref>, k: nat)
    requires k < |l|
    ensures forall r :: r in Cut(l, k) ==> r in l
  {
  }

  lemma CutTail(l: seq<Ref>, n: nat)
    requires 0 < n <= |l|
    ensures n - 1 <= |Cut(l, |l| - n)| && Tail(l, n) == [l[|l| - n]] + Tail(Cut(l, |l| - n), n - 1)
  {
    CutMultiset(l, |l| - n);
    TailStep(l, n);
  }

  lemma SuffixCons(a: seq<Ref>, b: seq<Ref>, u: Ref)
    requires Suffix(a, b)
    ensures Suffix(a, [u] + b)
  {
    assert ([u] + b)[|b| + 1 - |a|..] == b[|b| - |a|..];
  }

  lemma OpenKept(a: Heap, m: Colors, l: Lists, b: Heap, m2: Colors, l2: Lists)
    requires Progress(a, m, l, b, m2, l2, true) && OpenDone(a, m)
    ensures OpenDone(b, m2)
  {
  }

  /** Progress of the allweak list alone. */
  lemma ProgressDrop(a: Heap, m: Colors, l: Lists, b: Heap, m2: Colors, l2: Lists)
    requires Progress(a, m, l, b, m2, l2, true)
    ensures Progress(a, m, Lists([], [], l.allweak, []), b, m2, Lists([], [], l2.allweak, []), true)
  {
  }

  lemma AdvanceTrans(a: Heap, m: Colors, l: Lists, a1: Heap, m1: Colors, l1: Lists, b: Heap, m2: Colors, l2: Lists,
      atomic: bool)
    requires Advance(a, m, l, a1, m1, l1, atomic) && Advance(a1, m1, l1, b, m2, l2, atomic)
    ensures Advance(a, m, l, b, m2, l2, atomic)
  {
    hide ObjLoses, Shrinks, ListsDone, AllweakMeta, AllweakValues, OpenDone, NewDone;
    LosesTrans(a, m, a1, m1, b);
    NewDoneTrans(a1, m1, b, m2, l.allweak, l1.allweak, l2.allweak);
    SuffixTrans(l.weak, l1.weak, l2.weak);
    SuffixTrans(l.allweak, l1.allweak, l2.allweak);
    assert Grows(m, m2) by { forall r | Marked(m, r) ensures Marked(m2, r) { assert Marked(m1, r); } }
  }

  lemma ProgressTrans(a: Heap, m: Colors, l: Lists, a1: Heap, m1: Colors, l1: Lists, b: Heap, m2: Colors, l2: Lists,
      atomic: bool)
    requires Progress(a, m, l, a1, m1, l1, atomic) && Progress(a1, m1, l1, b, m2, l2, atomic)
    ensures Progress(a, m, l, b, m2, l2, atomic)
  {
    hide Advance, ObjTrims;
    AdvanceTrans(a, m, l, a1, m1, l1, b, m2, l2, atomic);
    TrimsTrans(a, a1, b);
  }

  ghost predicate AllEphDone(h: Heap, m: Colors, l: seq<Ref>) {
    forall i :: 0 <= i < |l| ==> EphDone(h, m, l[i])
  }

  lemma KeepDone(a: Heap, m: Colors, l: Lists, b: Heap, m2: Colors, l2: Lists, w: Ref, next: seq<Ref>)
    requires Progress(a, m, l, b, m2, l2, true) && AllEphDone(a, m, [w] + next)
    ensures AllEphDone(b, m2, next)
  {
    forall i | 0 <= i < |next| ensures EphDone(b, m2, next[i]) {
      assert EphDone(a, m, ([w] + next)[i + 1]);
      DoneMono(a, m, b, m2, next[i]);
    }
  }

  lemma Attach(h: Heap, m: Colors, g: seq<Ref>, l: seq<Ref>, ls: Lists, pend: multiset<Ref>)
    requires Tri(h, m, multiset(g) + Linked(ls) + (multiset(l) + pend)) && g == []
    ensures Tri(h, m, multiset(l) + Linked(ls) + pend)
  {
    assert multiset(l) + Linked(ls) + pend == multiset(g) + Linked(ls) + (multiset(l) + pend);
  }

  /** The lists that retraversegrays saves, as detached objects. */
  lemma DetachAll(h: Heap, m: Colors, g: seq<Ref>, l: Lists)
    requires Tri(h, m, multiset(g) + Linked(l) + multiset{}) && ListsOk(h, l) && OpenDone(h, m)
    ensures var l2 := Lists([], [], l.allweak, []);
      && Tri(h, m, multiset(g) + Linked(l2)
        + (multiset(l.again) + (multiset(l.weak) + (multiset(l.ephemeron) + multiset{}))))
      && ListsOk(h, l2) && ListsDone(h, m, l2)
  {
    assert multiset(g) + Linked(l) + multiset{} ==
      multiset(g) + Linked(Lists([], [], l.allweak, []))
          + (multiset(l.again) + (multiset(l.weak) + (multiset(l.ephemeron) + multiset{})));
  }

  lemma DetachEphemerons(h: Heap, m: Colors, g: seq<Ref>, l: Lists) returns (l2: Lists)
    requires Tri(h, m, multiset(g) + Linked(l) + multiset{}) && ListsOk(h, l) && ListsDone(h, m, l)
    ensures l2 == Lists(l.again, l.weak, l.allweak, [])
    ensures Tri(h, m, multiset(g) + Linked(l2) + multiset(l.ephemeron)) && ListsOk(h, l2) && ListsDone(h, m, l2)
    ensures Converged(h, m, l2.ephemeron) && AllEphDone(h, m, l.ephemeron) && Progress(h, m, l2, h, m, l2, true)
  {
    hide Progress, Advance, Tri, EphDone, WeakListed;
    ProgressRefl(h, m, Lists(l.again, l.weak, l.allweak, []), true);
    l2 := Lists(l.again, l.weak, l.allweak, []);
    assert multiset(g) + Linked(l) + multiset{} == multiset(g) + Linked(l2) + multiset(l.ephemeron);
  }

  lemma PassProgress(a: Heap, m: Colors, l0: Lists, l: Lists, b: Heap, m2: Colors, l2: Lists)
    requires l == Lists(l0.again, l0.weak, l0.allweak, []) && Progress(a, m, l, b, m2, l2, true) && ListsDone(b, m2, l2)
    ensures Progress(a, m, l0, b, m2, l2, true)
  {
  }

  /** The first table of a pass. */
  lemma Detached(h: Heap, m: Colors, w: Ref, next: seq<Ref>, l: Lists, g: seq<Ref>, T: set<Ref>, X: set<Ref>)
    requires Tri(h, m, multiset(g) + Linked(l) + multiset([w] + next)) && AllEphDone(h, m, [w] + next)
        && Within(h, m, T) && g == [] && Spare(X, l.allweak)
    ensures HeapOk(h) && h.Keys == m.Keys
    ensures w in h && m[w].Gray? && h[w].Table? && h[w].mode.EphemeronKeys? && w in T && w !in X
        && ValMarked(m, h[w].meta)
    ensures Tri(h, m, multiset([w] + g) + Linked(l) + multiset(next))
  {
    var L := multiset(g) + Linked(l) + multiset([w] + next);
    assert multiset([w] + next) == multiset{w} + multiset(next);
    assert L[w] >= 1;
    assert NeedsList(h, m, w);
    assert EphDone(h, m, ([w] + next)[0]);
    assert Marked(m, w);
    assert w in l.allweak ==> Linked(l)[w] >= 1;
    assert multiset([w] + g) == multiset{w};
    assert multiset([w] + g) + Linked(l) + multiset(next) == L;
  }

  lemma EphemeronTraversed(a: Heap, m: Colors, b: Heap, m2: Colors, g2: seq<Ref>, w: Ref, l: Lists, l2: Lists, d: Dest,
      T: set<Ref>, next: seq<Ref>, X: set<Ref>)
    requires w in a && w in m && m[w].Gray? && a[w].Table? && ListsOk(a, l) && ListsDone(a, m, l) && ClosedBut(a, T, X)
        && Within(a, m, T)
    requires Tri(a, m, multiset([w] + []) + Linked(l) + multiset(next))
    requires Marks(a, m, [], m2, g2, T) && Trims(a, b) && Shrinks(a, b) && Outcome(b, m2, w, d, true)
        && l2 == Put(l, w, d)
    ensures Tri(b, m2, multiset(g2) + Linked(l2) + multiset(next)) && ListsOk(b, l2) && ListsDone(b, m2, l2)
    ensures ClosedBut(b, T, X) && Within(b, m2, T) && (Spare(X, l.allweak) ==> Spare(X, l2.allweak))
    ensures Progress(a, m, l, b, m2, l2, true)
    ensures |Whites(m2)| <= |Whites(m)| && (Whites(m2) != Whites(m) ==> |Whites(m2)| < |Whites(m)|)
  {
    hide Tri, ListsOk, ListsDone, ClosedBut, Within, FreshlyMarked, Shrinks, Progress, WeakListed, EphDone, ValuesDone,
        AllHeldMarked, Whites;
    assert m2[w := Gray] == m2;
    hide *;
    AfterTraversal(a, m, [], b, m2, g2, w, l, l2, d, true, T, multiset(next), X);
    SubsetSize(Whites(m2), Whites(m));
    ProgressAdvance(a, m, l, b, m2, l2, true);
    DoneAfter(a, m, l, b, m2, l2);
  }

  lemma DoneAfter(a: Heap, m: Colors, l: Lists, b: Heap, m2: Colors, l2: Lists)
    requires Advance(a, m, l, b, m2, l2, true) && ListsDone(a, m, l)
    ensures ListsDone(b, m2, l2)
  {
  }

  lemma PassKeeps(a: Heap, m: Colors, l: Lists, b: Heap, m2: Colors, l2: Lists, w: Ref, d: Dest)
    requires Shrinks(a, b) && Quiet(a, m, m2) && l2 == Put(l, w, d) && (d.ToEphemeron? ==> EphSettled(b, m2, w))
    ensures Converged(a, m, l.ephemeron) ==> Converged(b, m2, l2.ephemeron)
  {
    forall i | Converged(a, m, l.ephemeron) && 0 <= i < |l2.ephemeron| ensures EphSettled(b, m2, l2.ephemeron[i]) {
      if d.ToEphemeron? {
        if i > 0 { SettledMono(a, m, b, m2, l.ephemeron[i - 1]); }
      } else {
        SettledMono(a, m, b, m2, l.ephemeron[i]);
      }
    }
  }

  lemma ClearsFacts(a: Heap, m: Colors, b: Heap, m2: Colors)
    requires Clears(a, m, b, m2)
    ensures Shrinks(a, b) && b.Keys == m2.Keys
  {
  }

  lemma ClearStart(h: Heap, m: Colors, l: seq<Ref>, T: set<Ref>)
    requires h.Keys == m.Keys
    ensures Clears(h, m, h, m)
    ensures AllValuesMarked(h, m, l[..0]) && AllKeysMarked(h, m, l[..0]) && l[..|l|] == l
  {
  }

  lemma TableAt(h: Heap, l: seq<Ref>, i: nat)
    requires TableList(h, l) && i < |l|
    ensures l[i] in h && h[l[i]].Table?
  {
  }

  lemma OneMoreValues(h: Heap, m: Colors, l: seq<Ref>, i: nat)
    requires i < |l| && AllValuesMarked(h, m, l[..i]) && ValuesMarked(h, m, l[i])
    ensures AllValuesMarked(h, m, l[..i + 1])
  {
    assert forall j :: 0 <= j < i ==> l[..i][j] == l[j];
  }

  lemma OneMoreKeys(h: Heap, m: Colors, l: seq<Ref>, i: nat)
    requires i < |l| && AllKeysMarked(h, m, l[..i]) && WeakDone(h, m, l[i])
    ensures AllKeysMarked(h, m, l[..i + 1])
  {
    assert forall j :: 0 <= j < i ==> l[..i][j] == l[j];
  }

  /** Open upvalues outside us have their values marked if they are marked. */
  ghost predicate AllOpen(h: Heap, m: Colors, us: set<Ref>) {
    && (forall o :: o in us ==> o in h && h[o].OpenUp?)
    && (forall o :: o in h && h[o].OpenUp? && Marked(m, o) && o !in us ==> AllHeldMarked(h, m, o))
  }

  lemma AllOpenStart(h: Heap, m: Colors, us: set<Ref>)
    requires us == set u | u in h && h[u].OpenUp?
    ensures AllOpen(h, m, us)
  {
  }

  lemma AllOpenAt(h: Heap, m: Colors, us: set<Ref>, u: Ref)
    requires AllOpen(h, m, us) && u in us
    ensures u in h && h[u].OpenUp?
  {
  }

  lemma AllOpenEnd(h: Heap, m: Colors)
    requires AllOpen(h, m, {})
    ensures OpenDone(h, m)
  {
  }

  lemma OpenValue(h: Heap, m: Colors, u: Ref, T: set<Ref>, X: set<Ref>)
    requires HeapOk(h) && h.Keys == m.Keys && ClosedBut(h, T, X) && Within(h, m, T) && u in h && h[u].OpenUp?
    ensures h[u].th in h && h[h[u].th].Thread? && h[u].idx < |h[h[u].th].stack|
    ensures var v := h[h[u].th].stack[h[u].idx]; v.Coll? ==> v.ref in h && (Marked(m, u) ==> v.ref in T)
  {
    var v := h[h[u].th].stack[h[u].idx];
    if v.Coll? { assert StrongHolds(h, u, v.ref) && Holds(h, u, v.ref); }
    if Marked(m, u) { assert u in T; }
  }

  lemma OpenAdvance(h: Heap, m: Colors, g: seq<Ref>, m2: Colors, g2: seq<Ref>, u: Ref, T: set<Ref>)
    requires Marks(h, m, g, m2, g2, T) && HeapOk(h) && u in h && h[u].OpenUp? && BlackClosed(h, m)
    requires m[u].Gray? ==> ValMarked(m2, h[h[u].th].stack[h[u].idx])
    ensures forall us :: AllOpen(h, m, us) ==> AllOpen(h, m2, us - {u})
  {
    forall us | AllOpen(h, m, us) ensures AllOpen(h, m2, us - {u}) {
      forall o | o in h && h[o].OpenUp? && Marked(m2, o) && o !in us - {u} ensures AllHeldMarked(h, m2, o) {
        if m[o].White? {
          assert FreshlyMarked(h, m2, o);
        } else if o == u {
          assert m[o].Gray?;
        } else {
          assert Marked(m, o);
          MarksHeld(h, m, g, m2, g2, T, o);
        }
      }
    }
  }

  /** Marking as a step of the marking phase. */
  lemma AfterMarks(h: Heap, m: Colors, g: seq<Ref>, m2: Colors, g2: seq<Ref>, l: Lists, T: set<Ref>,
      pend: multiset<Ref>)
    requires Tri(h, m, multiset(g) + Linked(l) + pend) && Within(h, m, T) && Marks(h, m, g, m2, g2, T)
    ensures Tri(h, m2, multiset(g2) + Linked(l) + pend) && Within(h, m2, T) && HeapOk(h) && h.Keys == m2.Keys
    ensures Progress(h, m, l, h, m2, l, true)
  {
    assert multiset(g) + Linked(l) + pend == multiset(g) + (Linked(l) + pend);
    assert multiset(g2) + Linked(l) + pend == multiset(g2) + (Linked(l) + pend);
    MarksTri(h, m, g, m2, g2, T, Linked(l) + pend);
    MarksWithin(h, m, g, m2, g2, T);
    ShrinksRefl(h);
    ListsMono(h, m, g, h, m2, g2, T, l);
    MarksWhites(h, m, g, m2, g2, T);
  }

  lemma GrowsRefl(m: Colors)
    ensures Grows(m, m)
  {
  }

  lemma StillMarked(m: Colors, m1: Colors, m2: Colors, v: Value)
    requires ValMarked(m, v) && Grows(m, m1) && Grows(m1, m2)
    ensures ValMarked(m2, v) && (v.Coll? ==> Marked(m2, v.ref))
  {
  }

  /** The traversal of o left it in one of its places. */
  ghost predicate Visited(o: Ref, l: Lists, l2: Lists, h: Heap, m: Colors, atomic: bool) {
    exists d :: l2 == Put(l, o, d) && Outcome(h, m, o, d, atomic)
  }

  lemma VisitedIs(o: Ref, l: Lists, l2: Lists, h: Heap, m: Colors, atomic: bool, d: Dest)
    requires l2 == Put(l, o, d) && Outcome(h, m, o, d, atomic)
    ensures Visited(o, l, l2, h, m, atomic)
  {
  }

  lemma StillGray(h: Heap, m: Colors, g: seq<Ref>, m2: Colors, g2: seq<Ref>, T: set<Ref>)
    requires Marks(h, m, g, m2, g2, T)
    ensures forall r :: r in g ==> r in g2
  {
    forall r | r in g ensures r in g2 {
      assert multiset(g)[r] > 0;
      assert multiset(g2)[r] >= multiset(g)[r];
    }
  }

  lemma PopGray(h: Heap, m: Colors, g: seq<Ref>, l: Lists, T: set<Ref>, pend: multiset<Ref>, X: set<Ref>)
    requires Tri(h, m, multiset(g) + Linked(l) + pend) && g != [] && Within(h, m, T) && Spare(X, l.allweak)
    ensures var o := g[0]; o in h && o in m && m[o].Gray? && !h[o].OpenUp? && Listable(h[o]) && o in T && o !in X
    ensures HeapOk(h) && h.Keys == m.Keys
  {
    var o := g[0];
    assert g == [o] + g[1..];
    assert (multiset(g) + Linked(l) + pend)[o] >= 1;
    assert NeedsList(h, m, o);
    assert Marked(m, o);
    assert o in l.allweak ==> Linked(l)[o] >= 1;
  }

  lemma NoneSpare(aw: seq<Ref>)
    ensures Spare({}, aw)
  {
  }

  /** The tables of X are on the allweak list. */
  ghost predicate Spare(X: set<Ref>, aw: seq<Ref>) { forall x {:trigger x in X} :: x in X ==> x in aw }

  lemma AfterTraversal(a: Heap, m: Colors, g: seq<Ref>, b: Heap, m2: Colors, g2: seq<Ref>, o: Ref, l: Lists, l2: Lists,
      d: Dest,
                       atomic: bool, T: set<Ref>, pend: multiset<Ref>, X: set<Ref>)
    requires o in a && o in m && m[o].Gray? && !a[o].OpenUp? && ListsOk(a, l) && ClosedBut(a, T, X) && Within(a, m, T)
    requires Tri(a, m, multiset([o] + g) + Linked(l) + pend)
    requires o in m2 && Marks(a, m, g, m2[o := Gray], g2, T) && Trims(a, b) && Shrinks(a, b)
        && Outcome(b, m2, o, d, atomic) && l2 == Put(l, o, d)
    ensures Tri(b, m2, multiset(g2) + Linked(l2) + pend) && ListsOk(b, l2)
    ensures ClosedBut(b, T, X) && Within(b, m2, T) && (Spare(X, l.allweak) ==> Spare(X, l2.allweak))
    ensures Whites(m2) <= Whites(m) && (Whites(m2) == Whites(m) ==> |g2| == |g|)
    ensures Progress(a, m, l, b, m2, l2, atomic)
  {
    var mg := m2[o := Gray];
    assert multiset([o] + g) == multiset(g) + multiset{o};
    assert multiset([o] + g) + Linked(l) + pend == multiset(g) + Linked(l) + pend + multiset{o};
    Traversed(a, m, g, b, m2, g2, o, l, d, atomic, T, pend);
    AfterColors(a, m, g, b, m2, g2, o, T, X);
    ShrinkLists(a, b, l);
    OutcomeLists(b, m2, o, l, d, atomic);
    AfterProgress(a, m, g, b, m2, g2, o, l, l2, d, atomic, T);
  }

  lemma AfterProgress(a: Heap, m: Colors, g: seq<Ref>, b: Heap, m2: Colors, g2: seq<Ref>, o: Ref, l: Lists, l2: Lists,
      d: Dest,
                      atomic: bool, T: set<Ref>)
    requires o in a && o in m && o in m2 && Marks(a, m, g, m2[o := Gray], g2, T) && Trims(a, b) && Shrinks(a, b)
        && Outcome(b, m2, o, d, atomic) && l2 == Put(l, o, d)
    requires Grows(m, m2) && Kept(m, m2) && m.Keys == m2.Keys
    ensures Progress(a, m, l, b, m2, l2, atomic)
  {
    hide Marks, Shrinks, ListsDone, AllweakMeta, AllweakValues, Grows, WeakListed, EphDone, ValuesDone, AllHeldMarked;
    var mg := m2[o := Gray];
    TrimsLose(a, m, b);
    ListsMono(a, m, g, b, mg, g2, T, l);
    GraySame(b, mg, m2, o, l);
    OutcomeLists(b, m2, o, l, d, atomic);
  }

  lemma AfterColors(a: Heap, m: Colors, g: seq<Ref>, b: Heap, m2: Colors, g2: seq<Ref>, o: Ref, T: set<Ref>,
      X: set<Ref>)
    requires o in a && o in m && m[o].Gray? && ClosedBut(a, T, X) && Within(a, m, T)
    requires o in m2 && !m2[o].White? && Marks(a, m, g, m2[o := Gray], g2, T) && Shrinks(a, b)
    ensures ClosedBut(b, T, X) && Within(b, m2, T) && Grows(m, m2) && Kept(m, m2) && m.Keys == m2.Keys
    ensures Whites(m2) <= Whites(m) && (Whites(m2) == Whites(m) ==> |g2| == |g|)
  {
    var mg := m2[o := Gray];
    MarksWithin(a, m, g, mg, g2, T);
    MarksWhites(a, m, g, mg, g2, T);
    ShrinkClosedBut(a, b, T, X);
    ShrinkWithin(a, b, mg, T);
    assert Whites(m2) == Whites(mg);
    assert forall r :: Marked(m2, r) == Marked(mg, r);
    if Whites(m2) == Whites(m) { assert |multiset(g2)| == |multiset(g)|; }
  }

  /** Gray or black, o counts as marked. */
  lemma GraySame(h: Heap, m: Colors, m2: Colors, o: Ref, l: Lists)
    requires o in m && o in m2 && !m[o].White? && !m2[o].White? && m == m2[o := m[o]]
    ensures ListsDone(h, m, l) ==> ListsDone(h, m2, l)
    ensures OpenDone(h, m) ==> OpenDone(h, m2)
    ensures AllweakMeta(h, m, l.allweak) ==> AllweakMeta(h, m2, l.allweak)
    ensures AllweakValues(h, m, l.allweak) ==> AllweakValues(h, m2, l.allweak)
  {
    assert Grows(m, m2) && Grows(m2, m);
    ShrinksRefl(h);
    forall p | p in h
      ensures AllHeldMarked(h, m, p) ==> AllHeldMarked(h, m2, p)
      ensures WeakListed(h, m, p) ==> WeakListed(h, m2, p)
      ensures MetaDone(h, m, p) ==> MetaDone(h, m2, p)
      ensures EphDone(h, m, p) ==> EphDone(h, m2, p)
      ensures ValuesDone(h, m, p) ==> ValuesDone(h, m2, p)
    {
      DoneMono(h, m, h, m2, p);
    }
  }


  lemma ShrinksRefl(a: Heap)
    ensures Shrinks(a, a)
  {
  }

  lemma LosesAt(a: Heap, m: Colors, b: Heap, o: Ref)
    requires o in a && o in b && b == a[o := b[o]] && ObjLoses(a, m, a[o], b[o])
    ensures Loses(a, m, b)
  {
  }

  lemma ClearedBack(h: Heap, m: Colors, m1: Colors, x: seq<Node>, y: seq<Node>)
    requires Quiet(h, m, m1) && NodesCleared(h, m1, x, y)
    ensures NodesCleared(h, m, x, y)
  {
    forall v | KeyCleared(h, m1, v) ensures KeyCleared(h, m, v) {}
  }

  // ---- Lemmas of the marking methods

  lemma Grayed(h: Heap, m: Colors, m1: Colors, o: Ref)
    requires h.Keys == m.Keys && o in h && m[o].White? && m1 == m[o := Gray]
    ensures |Whites(m1)| < |Whites(m)|
  {
    assert o in Whites(m) && o !in Whites(m1);
    SubsetSize(Whites(m1), Whites(m));
  }

  /** An open upvalue marked after its value, seen from before it was touched. */
  lemma MarkedGray(h: Heap, m: Colors, g: seq<Ref>, m1: Colors, m2: Colors, g2: seq<Ref>, o: Ref, T: set<Ref>)
    requires h.Keys == m.Keys && o in h && m[o].White? && o in T && h[o].OpenUp? && m1 == m[o := Gray]
    requires Marks(h, m1, g, m2, g2, T) && AllHeldMarked(h, m2, o)
    ensures Marks(h, m, g, m2, g2, T) && Marked(m2, o)
  {
    assert m2[o] == m1[o];
    assert forall p | p != o && p in m :: m1[p] == m[p];
  }

  /** An object turned black after what it holds was marked, seen from before it was touched. */
  lemma MarkedBlack(h: Heap, m: Colors, g: seq<Ref>, m1: Colors, m2: Colors, g2: seq<Ref>, m3: Colors, o: Ref,
      T: set<Ref>)
    requires h.Keys == m.Keys && o in h && m[o].White? && (o in T || h[o].Str?) && !Listable(h[o]) && !h[o].OpenUp?
    requires m1 == m[o := Gray] && Marks(h, m1, g, m2, g2, T) && AllHeldMarked(h, m2, o) && m3 == m2[o := Black]
    ensures Marks(h, m, g, m3, g2, T) && Marked(m3, o)
    ensures h[o].Str? && m2 == m1 ==> Quiet(h, m, m3)
  {
    assert m2[o] == m1[o];
    assert Grows(m2, m3);
    assert forall p | p != o && p in m :: m1[p] == m[p] && m3[p] == m2[p];
    forall p | p in m && m[p].White? && !m3[p].White?
      ensures (p in T || h[p].Str?) && FreshlyMarked(h, m3, p)
    {
      if p != o { assert m1[p].White? && !m2[p].White? && FreshlyMarked(h, m2, p); }
    }
  }

  /** The flag of traverseephemeron: false means that strings only were marked, true that the white set got smaller. */
  ghost predicate MarkedSome(h: Heap, m: Colors, m2: Colors, marked: bool) {
    if marked then Whites(m2) != Whites(m) else Quiet(h, m, m2)
  }

  lemma SomeTrans(h: Heap, m: Colors, g: seq<Ref>, m1: Colors, g1: seq<Ref>, m2: Colors, g2: seq<Ref>, T: set<Ref>,
      a: bool, b: bool)
    requires Marks(h, m, g, m1, g1, T) && Marks(h, m1, g1, m2, g2, T) && MarkedSome(h, m, m1, a)
        && MarkedSome(h, m1, m2, b)
    ensures Marks(h, m, g, m2, g2, T) && MarkedSome(h, m, m2, a || b)
  {
    MarksTrans(h, m, g, m1, g1, m2, g2, T);
    MarksWhites(h, m, g, m1, g1, T);
    MarksWhites(h, m1, g1, m2, g2, T);
  }

  /** What the flags of traverseephemeron say of the first i entries. */
  ghost predicate EphSoFar(h: Heap, m: Colors, node: seq<Node>, i: nat, marked: bool, prop: bool, hasclears: bool)
    requires i <= |node|
  {
    && (!marked ==> forall j :: 0 <= j < i ==> Settled(h, m, node[j]))
    && (!prop ==> forall j :: 0 <= j < i ==> ValueMarked(m, node[j]))
    && (!hasclears ==> forall j :: 0 <= j < i ==> EntryMarked(m, node[j]))
  }

  lemma EphAdvance(h: Heap, m: Colors, m2: Colors, node: seq<Node>, i: nat, marked: bool, prop: bool, hasclears: bool,
                   mk: bool, c: bool, p: bool)
    requires i < |node| && EphSoFar(h, m, node, i, marked, prop, hasclears) && Grows(m, m2) && MarkedSome(h, m, m2, mk)
    requires (!mk ==> Settled(h, m2, node[i])) && (!p ==> ValueMarked(m2, node[i])) && (!c ==> EntryMarked(m2, node[i]))
    ensures EphSoFar(h, m2, node, i + 1, marked || mk, prop || p, hasclears || c)
  {
    if !marked && !mk { SettledQuiet(h, m, m2, node[..i]); }
    forall j | 0 <= j < i
      ensures ValueMarked(m, node[j]) ==> ValueMarked(m2, node[j])
      ensures EntryMarked(m, node[j]) ==> EntryMarked(m2, node[j])
    {
    }
  }

  lemma EntryRefs(h: Heap, o: Ref, i: nat)
    requires HeapOk(h) && o in h && h[o].Table? && i < |h[o].node| && h[o].node[i].val != Nil
    ensures h[o].node[i].key.Live?
    ensures var v := h[o].node[i].key.v; v.Coll? ==> Holds(h, o, v.ref) && v.ref in h
    ensures var v := h[o].node[i].val; v.Coll? ==> Holds(h, o, v.ref) && v.ref in h
  {
    assert NodesOk(h[o].node);
    var n := h[o].node[i];
    if n.key.v.Coll? { assert NodeHolds(h[o].node[i], n.key.v.ref); assert Holds(h, o, n.key.v.ref); }
    if n.val.Coll? { assert NodeHolds(h[o].node[i], n.val.ref); assert Holds(h, o, n.val.ref); }
  }

  lemma SettledQuiet(h: Heap, m: Colors, m2: Colors, node: seq<Node>)
    requires Quiet(h, m, m2) && forall j :: 0 <= j < |node| ==> Settled(h, m, node[j])
    ensures forall j :: 0 <= j < |node| ==> Settled(h, m2, node[j])
  {
    forall j | 0 <= j < |node| ensures Settled(h, m2, node[j]) {
      assert Settled(h, m, node[j]);
    }
  }

  lemma SinceStart(a: Heap, m: Colors, l: Lists, b: Heap, m2: Colors, l2: Lists)
    requires Advance(a, m, l, b, m2, l2, true)
    ensures AllweakMeta(a, m, l.allweak) ==> AllweakSince(b, m2, l.allweak, l2.allweak)
  {
    var d := |l2.allweak| - |l.allweak|;
    forall i {:trigger l2.allweak[i]} | 0 <= i < |l2.allweak| && AllweakMeta(a, m, l.allweak)
      ensures MetaDone(b, m2, l2.allweak[i]) && (l2.allweak[i] in l.allweak || ValuesDone(b, m2, l2.allweak[i]))
    {
      if i >= d { assert l2.allweak[i] == l2.allweak[d..][i - d]; }
    }
  }
}
