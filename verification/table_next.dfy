/** Traversals of a table with luaH_next (ltable.c): first the array part, then the slots of the hash part. */
module TableNext {
  import opened TableChain
  import opened TableOps
  import opened TableSizes

  // ---- The places of a table, in the order of a traversal

  function Places(arr: seq<Value>, node: seq<Node>): nat { |arr| + |node| }

  function KeyAt(arr: seq<Value>, node: seq<Node>, i: nat): Key
    requires i < Places(arr, node)
  {
    if i < |arr| then KInt(i + 1) else if node[i - |arr|].key == NoKey then KNil else node[i - |arr|].key.k
  }

  function ValueAt(arr: seq<Value>, node: seq<Node>, i: nat): Value
    requires i < Places(arr, node)
  {
    if i < |arr| then arr[i] else node[i - |arr|].val
  }

  /** The place of a key from which a traversal goes on: -1 for nil, where it starts. */
  ghost predicate IsIndex(arr: seq<Value>, node: seq<Node>, c: Chains, key: Key, i: int) {
    if key.KNil? then i == -1
    else if InRange(key, |arr|) then i == key.i - 1
    else |arr| <= i && FirstHolder(node, c, key, i - |arr|)
  }

  /** A traversal can go on from the key. */
  ghost predicate Known(arr: seq<Value>, node: seq<Node>, key: Key) {
    key.KNil? || InRange(key, |arr|) || exists j: nat :: Holds(node, j, key)
  }

  lemma IndexKnown(arr: seq<Value>, node: seq<Node>, c: Chains, key: Key, i: int)
    requires IsIndex(arr, node, c, key, i)
    ensures Known(arr, node, key) && -1 <= i < Places(arr, node)
  {
  }

  lemma OneIndex(arr: seq<Value>, node: seq<Node>, c: Chains, key: Key, i: int, j: int)
    requires IsIndex(arr, node, c, key, i) && IsIndex(arr, node, c, key, j)
    ensures i == j
  {
    if !key.KNil? && !InRange(key, |arr|) { OneHolder(node, c, key, i - |arr|, j - |arr|); }
  }

  /** A place with a value stands for an entry, and is where the traversal goes on from its key. */
  lemma PlaceOf(arr: seq<Value>, node: seq<Node>, lastfree: nat, dummy: bool, c: Chains, mp: MainPosition, m: map<Key,
      Value>, i: nat)
    requires TableOk(arr, node, lastfree, dummy, c, mp) && Stands(arr, node, m) && i < Places(arr, node)
        && ValueAt(arr, node, i) != Nil
    ensures var k := KeyAt(arr, node, i);
        Proper(k) && k in m && m[k] == ValueAt(arr, node, i) && IsIndex(arr, node, c, k, i)
  {
    TableShape(arr, node, lastfree, dummy, c, mp);
    var k := KeyAt(arr, node, i);
    assert Lookup(arr, node, k) == At(m, k) && Lookup(arr, node, k) == ValueAt(arr, node, i) by {
      if i >= |arr| { LookupHash(arr, node, k, i - |arr|); }
    }
    if i >= |arr| { LiveHolder(node, c, mp, i - |arr|); }
  }

  /** Every entry has a place. */
  lemma HasPlace(arr: seq<Value>, node: seq<Node>, m: map<Key, Value>, k: Key) returns (i: nat)
    requires Stands(arr, node, m) && Layout(arr, node) && k in m
    ensures i < Places(arr, node) && KeyAt(arr, node, i) == k && ValueAt(arr, node, i) != Nil
  {
    assert Lookup(arr, node, k) == At(m, k);
    if InRange(k, |arr|) {
      i := k.i - 1;
    } else {
      EntryLookup(arr, node, k);
      assert Entry(node, k, m[k]);
      var j: nat :| j < |node| && node[j].key == Live(k) && node[j].val == m[k];
      i := |arr| + j;
    }
  }

  // ---- Changes of existing fields

  /** No place got a value or another key. */
  ghost predicate Same(arr: seq<Value>, node: seq<Node>, arr2: seq<Value>, node2: seq<Node>) {
    && |arr2| == |arr| && |node2| == |node|
    && (forall i {:trigger ValueAt(arr2, node2, i)} :: 0 <= i < Places(arr, node) && ValueAt(arr2, node2, i) != Nil ==>
        ValueAt(arr, node, i) != Nil && KeyAt(arr2, node2, i) == KeyAt(arr, node, i))
    && (forall j: nat, k {:trigger Holds(node2, j, k)} :: Holds(node2, j, k) <==> Holds(node, j, k))
  }

  lemma SameRefl(arr: seq<Value>, node: seq<Node>)
    ensures Same(arr, node, arr, node)
  {
  }

  lemma SameTrans(a: seq<Value>, n: seq<Node>, a1: seq<Value>, n1: seq<Node>, a2: seq<Value>, n2: seq<Node>)
    requires Same(a, n, a1, n1) && Same(a1, n1, a2, n2)
    ensures Same(a, n, a2, n2)
  {
    hide ValueAt, KeyAt, Holds;
    forall i | 0 <= i < Places(a, n) && ValueAt(a2, n2, i) != Nil ensures ValueAt(a, n, i) != Nil
        && KeyAt(a2, n2, i) == KeyAt(a, n, i) {
      assert ValueAt(a1, n1, i) != Nil;
    }
    forall j: nat, k ensures Holds(n2, j, k) <==> Holds(n, j, k) { assert Holds(n1, j, k) <==> Holds(n, j, k); }
  }

  lemma StoredSame(arr: seq<Value>, node: seq<Node>, key: Key, s: Slot, v: Value, arr2: seq<Value>, node2: seq<Node>)
    requires Designates(arr, node, key, s) && !s.Absent? && Unique(node) && Lookup(arr, node, key) != Nil
    requires s.InArray? ==> arr2 == arr[s.i := v] && node2 == node
    requires s.InHash? ==> node2 == node[s.j := node[s.j].(val := v)] && arr2 == arr
    ensures Same(arr, node, arr2, node2)
  {
    SlotValue(arr, node, key, s);
  }

  lemma DiedSame(arr: seq<Value>, node: seq<Node>, j: nat)
    requires j < |node| && node[j].key.Live? && node[j].val == Nil
    ensures Same(arr, node, arr, node[j := node[j].(key := Dead(node[j].key.k))])
  {
  }

  /** The collector takes the key out of an empty slot: the table stands for the same map. */
  lemma DiedOk(arr: seq<Value>, node: seq<Node>, lastfree: nat, dummy: bool, c: Chains, mp: MainPosition, m: map<Key,
      Value>, j: nat)
    requires TableOk(arr, node, lastfree, dummy, c, mp) && Stands(arr, node, m) && j < |node| && node[j].key.Live?
        && node[j].val == Nil
    ensures var node2 := node[j := node[j].(key := Dead(node[j].key.k))];
        TableOk(arr, node2, lastfree, dummy, c, mp) && Stands(arr, node2, m)
  {
    var node2 := node[j := node[j].(key := Dead(node[j].key.k))];
    KeyDies(node, c, mp, j);
    UniqueOf(node, c, mp);
    UniqueOf(node2, c, mp);
    hide HashOk;
    DiedEntries(node, j);
    SameLookup(arr, node, node2);
    hide Unique, Entry;
    forall k ensures Lookup(arr, node2, k) == At(m, k) { assert Lookup(arr, node, k) == At(m, k); }
  }

  lemma DiedEntries(node: seq<Node>, j: nat)
    requires j < |node| && node[j].key.Live? && node[j].val == Nil
    ensures var node2 := node[j := node[j].(key := Dead(node[j].key.k))];
            forall k, v {:trigger Entry(node, k, v)} {:trigger Entry(node2, k, v)} :: Entry(node2, k, v)
                <==> Entry(node, k, v)
  {
    var node2 := node[j := node[j].(key := Dead(node[j].key.k))];
    forall k, v ensures Entry(node2, k, v) <==> Entry(node, k, v) {
      if Entry(node2, k, v) {
        var i :| 0 <= i < |node2| && node2[i].key == Live(k) && node2[i].val == v && v != Nil;
        assert node[i] == node2[i];
      }
      if Entry(node, k, v) {
        var i :| 0 <= i < |node| && node[i].key == Live(k) && node[i].val == v && v != Nil;
        assert node2[i] == node[i];
      }
    }
  }

  lemma SameIndex(arr: seq<Value>, node: seq<Node>, arr2: seq<Value>, node2: seq<Node>, c: Chains, key: Key, i: int)
    requires Same(arr, node, arr2, node2) && IsIndex(arr, node, c, key, i)
    ensures IsIndex(arr2, node2, c, key, i)
  {
    hide ValueAt, KeyAt;
  }

  lemma StoredField(arr: seq<Value>, node: seq<Node>, lastfree: nat, dummy: bool, c: Chains, mp: MainPosition,
      m: map<Key, Value>, key: Key, s: Slot, v: Value,
                    arr2: seq<Value>, node2: seq<Node>)
    requires TableOk(arr, node, lastfree, dummy, c, mp) && Stands(arr, node, m) && key in m
        && Designates(arr, node, key, s) && !s.Absent?
    requires s.InArray? ==> s.i < |arr| && arr2 == arr[s.i := v] && node2 == node
    requires s.InHash? ==> s.j < |node| && node2 == node[s.j := node[s.j].(val := v)] && arr2 == arr
    ensures Same(arr, node, arr2, node2)
  {
    UniqueOf(node, c, mp);
    hide HashOk;
    assert Lookup(arr, node, key) == At(m, key);
    StoredSame(arr, node, key, s, v, arr2, node2);
  }

  lemma InMap(arr: seq<Value>, node: seq<Node>, lastfree: nat, dummy: bool, c: Chains, mp: MainPosition, m: map<Key,
      Value>, key: Key)
    requires TableOk(arr, node, lastfree, dummy, c, mp) && Stands(arr, node, m)
    ensures (At(m, key) != Nil <==> key in m) && (key in m ==> Proper(key))
  {
    assert Lookup(arr, node, key) == At(m, key);
    if key in m {
      TableShape(arr, node, lastfree, dummy, c, mp);
      var i := HasPlace(arr, node, m, key);
      PlaceOf(arr, node, lastfree, dummy, c, mp, m, i);
    }
  }

  lemma HasKey(arr: seq<Value>, node: seq<Node>, lastfree: nat, dummy: bool, c: Chains, mp: MainPosition, j: nat)
    requires TableOk(arr, node, lastfree, dummy, c, mp) && j < |node| && node[j].val != Nil
    ensures node[j].key.Live?
  {
    HashAt(node, c, mp, j);
  }

  // ---- How far a traversal has got

  /** What luaH_next answers. */
  datatype Step = More(key: Key, val: Value) | Ended | BadKey

  lemma PlaceIs(arr: seq<Value>, node: seq<Node>, i: nat)
    requires i < Places(arr, node) || i < |arr| + |node|
    ensures Places(arr, node) == |arr| + |node|
    ensures ValueAt(arr, node, i) == if i < |arr| then arr[i] else node[i - |arr|].val
    ensures KeyAt(arr, node, i) == if i < |arr| then KInt(i + 1) else if node[i - |arr|].key == NoKey then KNil
        else node[i - |arr|].key.k
  {
  }

  lemma GapStart(arr: seq<Value>, node: seq<Node>, i: int)
    requires i >= -1
    ensures Gap(arr, node, i, i + 1) && Places(arr, node) == |arr| + |node|
  {
  }

  lemma GapNext(arr: seq<Value>, node: seq<Node>, i: int, n: nat)
    requires Gap(arr, node, i, n) && n < Places(arr, node) && ValueAt(arr, node, n) == Nil
    ensures Gap(arr, node, i, n + 1)
  {
  }

  /** The entries up to place i have been seen, and those behind it have not. */
  ghost predicate Seen(arr: seq<Value>, node: seq<Node>, i: int, seen: set<Key>) {
    forall j {:trigger ValueAt(arr, node, j)} :: 0 <= j < Places(arr, node) && ValueAt(arr, node, j) != Nil
        ==> (KeyAt(arr, node, j) in seen <==> j <= i)
  }

  lemma SeenStart(arr: seq<Value>, node: seq<Node>)
    ensures Seen(arr, node, -1, {})
  {
  }

  lemma SeenSame(arr: seq<Value>, node: seq<Node>, arr2: seq<Value>, node2: seq<Node>, i: int, seen: set<Key>)
    requires Same(arr, node, arr2, node2) && Seen(arr, node, i, seen)
    ensures Seen(arr2, node2, i, seen)
  {
    hide ValueAt, KeyAt, Holds;
    forall j | 0 <= j < Places(arr, node) && ValueAt(arr2, node2, j) != Nil ensures KeyAt(arr2, node2, j) in seen
        <==> j <= i {
      assert ValueAt(arr, node, j) != Nil;
    }
  }

  ghost predicate Gap(arr: seq<Value>, node: seq<Node>, i: int, n: nat) {
    forall j {:trigger ValueAt(arr, node, j)} ::
        i < j < n && 0 <= j < Places(arr, node) ==> ValueAt(arr, node, j) == Nil
  }

  lemma SeenNext(arr: seq<Value>, node: seq<Node>, lastfree: nat, dummy: bool, c: Chains, mp: MainPosition, m: map<Key,
      Value>, i: int, n: nat, seen: set<Key>)
    requires TableOk(arr, node, lastfree, dummy, c, mp) && Stands(arr, node, m)
    requires Seen(arr, node, i, seen) && Gap(arr, node, i, n) && -1 <= i < n < Places(arr, node)
        && ValueAt(arr, node, n) != Nil
    ensures KeyAt(arr, node, n) !in seen && Seen(arr, node, n, seen + {KeyAt(arr, node, n)})
  {
    hide *;
    PlaceOf(arr, node, lastfree, dummy, c, mp, m, n);
    SeenAt(arr, node, i, seen, n);
    forall j | 0 <= j < Places(arr, node) && ValueAt(arr, node, j) != Nil
      ensures KeyAt(arr, node, j) in seen + {KeyAt(arr, node, n)} <==> j <= n
    {
      PlaceOf(arr, node, lastfree, dummy, c, mp, m, j);
      SeenAt(arr, node, i, seen, j);
      GapAt(arr, node, i, n, j);
      if KeyAt(arr, node, j) == KeyAt(arr, node, n) { OneIndex(arr, node, c, KeyAt(arr, node, n), j, n); }
    }
    SeenFold(arr, node, n, seen + {KeyAt(arr, node, n)});
  }

  lemma SeenAt(arr: seq<Value>, node: seq<Node>, i: int, seen: set<Key>, j: nat)
    requires Seen(arr, node, i, seen) && j < Places(arr, node) && ValueAt(arr, node, j) != Nil
    ensures KeyAt(arr, node, j) in seen <==> j <= i
  {
  }

  lemma GapAt(arr: seq<Value>, node: seq<Node>, i: int, n: nat, j: nat)
    requires Gap(arr, node, i, n) && j < Places(arr, node) && ValueAt(arr, node, j) != Nil
    ensures j <= i || n <= j
  {
  }

  lemma SeenFold(arr: seq<Value>, node: seq<Node>, i: int, seen: set<Key>)
    requires forall j ::
        0 <= j < Places(arr, node) && ValueAt(arr, node, j) != Nil ==> (KeyAt(arr, node, j) in seen <==> j <= i)
    ensures Seen(arr, node, i, seen)
  {
  }

  /** At the end every entry has been seen. */
  lemma SeenAll(arr: seq<Value>, node: seq<Node>, m: map<Key, Value>, i: int, seen: set<Key>)
    requires Stands(arr, node, m) && Layout(arr, node) && Seen(arr, node, i, seen)
        && Gap(arr, node, i, Places(arr, node))
    ensures m.Keys <= seen
  {
    forall k | k in m ensures k in seen {
      var j := HasPlace(arr, node, m, k);
      SeenAt(arr, node, i, seen, j);
      GapAt(arr, node, i, Places(arr, node), j);
    }
  }

  // ---- What the body of a loop may do

  /** An assignment to a field, nil to clear it; or the collector, which takes keys out of empty slots. */
  datatype Change = Assign(key: Key, v: Value) | Collect(doomed: set<Key>)

  /** Only existing fields are assigned to. */
  function Changed(m: map<Key, Value>, changes: seq<Change>): (r: map<Key, Value>)
    ensures r.Keys <= m.Keys
  {
    if changes == [] then m else
      var before := Changed(m, changes[..|changes| - 1]);
      match changes[|changes| - 1]
      case Assign(key, v) => if key in before then Put(before, key, v) else before
      case Collect(_) => before
  }

  /** After the first n rounds of a loop. */
  function Rounds(m: map<Key, Value>, body: seq<seq<Change>>, n: nat): (r: map<Key, Value>)
    requires n <= |body|
    ensures r.Keys <= m.Keys
  {
    if n == 0 then m else Changed(Rounds(m, body, n - 1), body[n - 1])
  }

  lemma ChangedStart(m: map<Key, Value>, changes: seq<Change>)
    ensures changes[..0] == [] && Changed(m, []) == m
  {
  }

  lemma ChangedNext(m: map<Key, Value>, changes: seq<Change>, i: nat)
    requires i < |changes|
    ensures var before := Changed(m, changes[..i]);
            Changed(m, changes[..i + 1]) == match changes[i] { case Assign(key, v) => if key in before then
                Put(before, key, v) else before case Collect(_) => before }
  {
    assert changes[..i + 1][..i] == changes[..i];
  }

  lemma ChangedEnd(changes: seq<Change>)
    ensures changes[..|changes|] == changes
  {
  }
}
