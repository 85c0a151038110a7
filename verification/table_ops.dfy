/** Tables (ltable.c): an array part and a hash part, together a finite map. */
module TableOps {
  import opened Powers
  import opened TableChain
  import opened TableSizes

  /** Where a key lives. */
  datatype Slot = InArray(i: nat) | InHash(j: nat) | Absent

  predicate InRange(key: Key, n: nat) { key.KInt? && 1 <= key.i <= n }

  /** What the getters find for a key (the definition, not the algorithm). */
  ghost function Lookup(arr: seq<Value>, node: seq<Node>, key: Key): Value {
    if InRange(key, |arr|) then arr[key.i - 1]
    else if exists j :: 0 <= j < |node| && node[j].key == Live(key) then
      var j :| 0 <= j < |node| && node[j].key == Live(key); node[j].val
    else Nil
  }

  lemma LookupHash(arr: seq<Value>, node: seq<Node>, key: Key, j: nat)
    requires Unique(node) && j < |node| && node[j].key == Live(key) && !InRange(key, |arr|)
    ensures Lookup(arr, node, key) == node[j].val
  {
    var i :| 0 <= i < |node| && node[i].key == Live(key) && Lookup(arr, node, key) == node[i].val;
    OneSlot(node, i, j);
  }

  lemma OneSlot(node: seq<Node>, i: nat, j: nat)
    requires Unique(node) && i < |node| && j < |node| && node[i].key.Live? && node[i].key == node[j].key
    ensures i == j
  {
  }

  /** The hash part has the value v, not nil, for key k. */
  ghost predicate Entry(node: seq<Node>, k: Key, v: Value) {
    exists j :: 0 <= j < |node| && node[j].key == Live(k) && node[j].val == v && v != Nil
  }

  lemma EntryLookup(arr: seq<Value>, node: seq<Node>, k: Key)
    requires Unique(node) && !InRange(k, |arr|)
    ensures forall v {:trigger Entry(node, k, v)} :: Entry(node, k, v) <==> Lookup(arr, node, k) == v && v != Nil
  {
    forall v ensures Entry(node, k, v) <==> Lookup(arr, node, k) == v && v != Nil {
      if Entry(node, k, v) {
        var j :| 0 <= j < |node| && node[j].key == Live(k) && node[j].val == v && v != Nil;
        LookupHash(arr, node, k, j);
      }
    }
  }

  lemma SameLookup(arr: seq<Value>, node: seq<Node>, node2: seq<Node>)
    requires Unique(node) && Unique(node2)
    requires forall k, v {:trigger Entry(node, k, v)} {:trigger Entry(node2, k, v)} ::
        Entry(node2, k, v) <==> Entry(node, k, v)
    ensures forall k {:trigger Lookup(arr, node2, k)} :: Lookup(arr, node2, k) == Lookup(arr, node, k)
  {
    hide Unique;
    forall k ensures Lookup(arr, node2, k) == Lookup(arr, node, k) {
      if !InRange(k, |arr|) {
        EntryLookup(arr, node, k);
        EntryLookup(arr, node2, k);
        hide Lookup, Entry;
        assert Entry(node2, k, Lookup(arr, node2, k)) <==> Entry(node, k, Lookup(arr, node2, k));
        assert Entry(node2, k, Lookup(arr, node, k)) <==> Entry(node, k, Lookup(arr, node, k));
      }
    }
  }

  function At(m: map<Key, Value>, key: Key): Value { if key in m then m[key] else Nil }

  /** The table stands for the finite map m. */
  ghost predicate Stands(arr: seq<Value>, node: seq<Node>, m: map<Key, Value>) {
    && (forall k {:trigger Lookup(arr, node, k)} {:trigger k in m} :: Lookup(arr, node, k) == At(m, k))
    && (forall k :: k in m ==> m[k] != Nil)
  }

  /** The free slots of the hash part; the shared empty node is none. */
  ghost function Free(node: seq<Node>, dummy: bool): set<nat> {
    set j: nat | j < |node| && !dummy && node[j].key == NoKey
  }

  ghost predicate Designates(arr: seq<Value>, node: seq<Node>, key: Key, s: Slot) {
    match s
    case InArray(i) => i < |arr| && key == KInt(i + 1)
    case InHash(j) => j < |node| && node[j].key == Live(key) && !InRange(key, |arr|)
    case Absent => !InRange(key, |arr|) && forall j :: 0 <= j < |node| ==> node[j].key != Live(key)
  }

  predicate Proper(key: Key) { !key.KNil? && !key.KNaN? }

  /** What holds of a table between operations. */
  ghost predicate TableOk(arr: seq<Value>, node: seq<Node>, lastfree: nat, dummy: bool, c: Chains, mp: MainPosition) {
    && HashOk(node, c, mp) && |arr| <= Pow2(MAXBITS) && lastfree <= |node|
    && (dummy ==> node == [Node(NoKey, Nil, NULL)] && lastfree == 0)
    && (!dummy ==> forall j {:trigger node[j]} :: lastfree <= j < |node| ==> node[j].key != NoKey)
    && (forall j {:trigger node[j]} ::
        0 <= j < |node| && node[j].key.Live? ==> Proper(node[j].key.k) && !InRange(node[j].key.k, |arr|))
  }

  function Put(m: map<Key, Value>, key: Key, v: Value): map<Key, Value> { if v == Nil then m - {key} else m[key := v] }

  lemma SlotParts(arr: seq<Value>, node: seq<Node>, key: Key, s: Slot)
    requires Designates(arr, node, key, s)
    ensures s.InArray? ==> s.i < |arr| && key == KInt(s.i + 1)
    ensures s.InHash? ==> s.j < |node| && node[s.j].key == Live(key) && !InRange(key, |arr|)
    ensures s.Absent? ==> !InRange(key, |arr|) && Fresh(node, key)
  {
  }

  lemma SlotValue(arr: seq<Value>, node: seq<Node>, key: Key, s: Slot)
    requires Unique(node) && Designates(arr, node, key, s)
    ensures Lookup(arr, node, key) == match s case InArray(i) => arr[i] case InHash(j) => node[j].val case Absent => Nil
  {
    if s.InHash? { LookupHash(arr, node, key, s.j); }
  }

  // ---- What a new key does to a table

  /** The new key is there without a value, and no entry changed. */
  ghost predicate KeyAdded(arr: seq<Value>, node: seq<Node>, dummy: bool, node2: seq<Node>, key: Key, j: nat) {
    && |node2| == |node| && j < |node2| && node2[j] == Node(Live(key), Nil, node2[j].next)
    && (forall k, v {:trigger Entry(node, k, v)} {:trigger Entry(node2, k, v)} ::
        Entry(node2, k, v) <==> Entry(node, k, v))
    && |Free(node2, dummy)| >= |Free(node, dummy)| - 1
  }

  lemma FreeLess(node: seq<Node>, node2: seq<Node>, dummy: bool, n: nat)
    requires |node2| == |node| && forall j {:trigger node2[j]} ::
        0 <= j < |node| && j != n && node[j].key == NoKey ==> node2[j].key == NoKey
    ensures |Free(node2, dummy)| >= |Free(node, dummy)| - 1
  {
    assert Free(node, dummy) - {n} <= Free(node2, dummy);
    SubsetCard(Free(node, dummy) - {n}, Free(node2, dummy));
  }

  lemma ReuseOk(arr: seq<Value>, node: seq<Node>, lastfree: nat, dummy: bool, c: Chains, mp: MainPosition, key: Key,
      m: nat)
    requires TableOk(arr, node, lastfree, dummy, c, mp) && Designates(arr, node, key, Absent) && Proper(key)
        && m == mp(key, |node|) && node[m].val == Nil && !dummy
    ensures var node2 := node[m := node[m].(key := Live(key))];
      TableOk(arr, node2, lastfree, dummy, c, mp) && KeyAdded(arr, node, dummy, node2, key, m)
  {
    var node2 := node[m := node[m].(key := Live(key))];
    Reuse(node, c, mp, key, m);
    FreeLess(node, node2, dummy, m);
    forall k, v ensures Entry(node2, k, v) <==> Entry(node, k, v) {
      if Entry(node2, k, v) {
        var j :| 0 <= j < |node2| && node2[j].key == Live(k) && node2[j].val == v && v != Nil;
        assert node[j] == node2[j];
      }
      if Entry(node, k, v) {
        var j :| 0 <= j < |node| && node[j].key == Live(k) && node[j].val == v && v != Nil;
        assert node2[j] == node[j];
      }
    }
  }

  lemma MoveEntries(node: seq<Node>, c: Chains, key: Key, m: nat, n: nat, prev: nat)
    requires m < |node| && n < |node| && prev < |node| && node[n].key == NoKey && m != n && n != prev && m != prev
        && Aligned(node, c) && SlotOk(node, c, n)
    ensures var node2 := Moved(node, key, m, n, prev);
        forall k, v {:trigger Entry(node, k, v)} {:trigger Entry(node2, k, v)} ::
          Entry(node2, k, v) <==> Entry(node, k, v)
  {
    var node2 := Moved(node, key, m, n, prev);
    forall k, v ensures Entry(node2, k, v) <==> Entry(node, k, v) {
      if Entry(node2, k, v) {
        var j :| 0 <= j < |node2| && node2[j].key == Live(k) && node2[j].val == v && v != Nil;
        var i := if j == n then m else j;
        assert node[i].key == Live(k) && node[i].val == v;
      }
      if Entry(node, k, v) {
        var j :| 0 <= j < |node| && node[j].key == Live(k) && node[j].val == v && v != Nil;
        var i := if j == m then n else j;
        assert node2[i].key == Live(k) && node2[i].val == v;
      }
    }
  }

  /** The parts of TableOk that are about the slots themselves. */
  ghost predicate SlotsOk(arr: seq<Value>, node: seq<Node>, lastfree: nat) {
    && (forall j {:trigger node[j]} :: lastfree <= j < |node| ==> node[j].key != NoKey)
    && (forall j {:trigger node[j]} ::
        0 <= j < |node| && node[j].key.Live? ==> Proper(node[j].key.k) && !InRange(node[j].key.k, |arr|))
  }

  lemma AddedFold(arr: seq<Value>, node: seq<Node>, lastfree: nat, c: Chains, mp: MainPosition, node2: seq<Node>,
      key: Key, j: nat)
    requires HashOk(node2, c, mp) && |arr| <= Pow2(MAXBITS) && SlotsOk(arr, node2, lastfree)
        && lastfree <= |node2| == |node|
    requires j < |node2| && node2[j] == Node(Live(key), Nil, node2[j].next)
        && |Free(node2, false)| >= |Free(node, false)| - 1
    requires forall k, v {:trigger Entry(node, k, v)} {:trigger Entry(node2, k, v)} ::
        Entry(node2, k, v) <==> Entry(node, k, v)
    ensures TableOk(arr, node2, lastfree, false, c, mp) && KeyAdded(arr, node, false, node2, key, j)
  {
    hide HashOk, Entry, Free;
  }

  lemma MovedSlots(arr: seq<Value>, node: seq<Node>, key: Key, m: nat, n: nat, prev: nat)
    requires SlotsOk(arr, node, n + 1) && m < |node| && n < |node| && prev < |node| && m != n && n != prev && m != prev
    requires node[n].key == NoKey && node[m].key.Live? && Proper(key) && !InRange(key, |arr|)
    ensures var node2 := Moved(node, key, m, n, prev);
      SlotsOk(arr, node2, n) && |node2| == |node| && node2[m] == Node(Live(key), Nil, NULL)
      && forall j {:trigger node2[j]} :: 0 <= j < |node| && j != n && node[j].key == NoKey ==> node2[j].key == NoKey
  {
  }

  lemma MoveOk(arr: seq<Value>, node: seq<Node>, c: Chains, mp: MainPosition, key: Key, m: nat, n: nat, prev: nat)
    requires HashOk(node, c, mp) && |arr| <= Pow2(MAXBITS) && n < |node| && SlotsOk(arr, node, n + 1)
    requires Designates(arr, node, key, Absent) && Proper(key) && m < |node| && m == mp(key, |node|)
        && node[m].key.Live? && mp(node[m].key.k, |node|) != m
    requires node[n].key == NoKey && prev < |node| && node[prev].next == m
    ensures Aligned(node, c) && var node2 := Moved(node, key, m, n, prev);
      TableOk(arr, node2, n, false, Swapped(c, m, n), mp) && KeyAdded(arr, node, false, node2, key, m)
  {
    hide *;
    HashAt(node, c, mp, n);
    HashAt(node, c, mp, prev);
    AlignedParts(node, c);
    MoveApart(node, c, m, n, prev);
    var node2 := Moved(node, key, m, n, prev);
    SlotParts(arr, node, key, Absent);
    Move(node, c, mp, key, m, n, prev);
    MovedSlots(arr, node, key, m, n, prev);
    FreeLess(node, node2, false, n);
    MoveEntries(node, c, key, m, n, prev);
    AddedFold(arr, node, n, Swapped(c, m, n), mp, node2, key, m);
  }

  lemma AlignedParts(node: seq<Node>, c: Chains)
    requires Aligned(node, c)
    ensures |c.id| == |c.rank| == |node| > 0
  {
  }

  lemma HashAt(node: seq<Node>, c: Chains, mp: MainPosition, i: nat)
    requires HashOk(node, c, mp)
    ensures Aligned(node, c) && LinkOk(node, c, i) && SlotOk(node, c, i) && GoodMain(mp)
  {
  }

  lemma MoveApart(node: seq<Node>, c: Chains, m: nat, n: nat, prev: nat)
    requires Aligned(node, c) && LinkOk(node, c, prev) && SlotOk(node, c, n) && m < |node| && n < |node|
        && prev < |node|
    requires node[n].key == NoKey && node[m].key.Live? && node[prev].next == m
    ensures n != prev && m != n && prev != m
  {
  }

  lemma AppendEntries(node: seq<Node>, c: Chains, key: Key, m: nat, n: nat)
    requires m < |node| && n < |node| && node[n].key == NoKey && m != n && Aligned(node, c) && SlotOk(node, c, n)
    ensures var node2 := Appended(node, key, m, n);
        forall k, v {:trigger Entry(node, k, v)} {:trigger Entry(node2, k, v)} ::
          Entry(node2, k, v) <==> Entry(node, k, v)
  {
    var node2 := Appended(node, key, m, n);
    forall k, v ensures Entry(node2, k, v) <==> Entry(node, k, v) {
      if Entry(node2, k, v) {
        var j :| 0 <= j < |node2| && node2[j].key == Live(k) && node2[j].val == v && v != Nil;
        assert node[j].key == Live(k) && node[j].val == v;
      }
      if Entry(node, k, v) {
        var j :| 0 <= j < |node| && node[j].key == Live(k) && node[j].val == v && v != Nil;
        assert node2[j].key == Live(k) && node2[j].val == v;
      }
    }
  }

  lemma AppendedSlots(arr: seq<Value>, node: seq<Node>, key: Key, m: nat, n: nat)
    requires SlotsOk(arr, node, n + 1) && m < |node| && n < |node| && m != n && node[n].key == NoKey && Proper(key)
        && !InRange(key, |arr|)
    ensures var node2 := Appended(node, key, m, n);
      SlotsOk(arr, node2, n) && |node2| == |node| && node2[n] == Node(Live(key), Nil, node[m].next)
      && forall j {:trigger node2[j]} :: 0 <= j < |node| && j != n && node[j].key == NoKey ==> node2[j].key == NoKey
  {
  }

  lemma AppendOk(arr: seq<Value>, node: seq<Node>, c: Chains, mp: MainPosition, key: Key, m: nat, n: nat)
    requires HashOk(node, c, mp) && |arr| <= Pow2(MAXBITS) && n < |node| && SlotsOk(arr, node, n + 1)
    requires Designates(arr, node, key, Absent) && Proper(key) && m < |node| && m == mp(key, |node|)
        && node[m].key.Live? && mp(node[m].key.k, |node|) == m
    requires node[n].key == NoKey
    ensures Aligned(node, c) && (node[m].next == NULL || 0 <= node[m].next < |node|)
    ensures var node2 := Appended(node, key, m, n);
      TableOk(arr, node2, n, false, Inserted(node, c, m, n), mp) && KeyAdded(arr, node, false, node2, key, n)
  {
    hide *;
    HashAt(node, c, mp, n);
    var node2 := Appended(node, key, m, n);
    SlotParts(arr, node, key, Absent);
    AppendKey(node, c, mp, key, m, n);
    AppendedSlots(arr, node, key, m, n);
    FreeLess(node, node2, false, n);
    AppendEntries(node, c, key, m, n);
    AddedFold(arr, node, n, Inserted(node, c, m, n), mp, node2, key, n);
  }

  lemma StoredArray(arr: seq<Value>, node: seq<Node>, lastfree: nat, dummy: bool, c: Chains, mp: MainPosition,
      m: map<Key, Value>, key: Key, i: nat, v: Value)
    requires TableOk(arr, node, lastfree, dummy, c, mp) && Stands(arr, node, m) && i < |arr| && key == KInt(i + 1)
    ensures TableOk(arr[i := v], node, lastfree, dummy, c, mp) && Stands(arr[i := v], node, Put(m, key, v))
  {
    hide HashOk;
    forall k ensures Lookup(arr[i := v], node, k) == At(Put(m, key, v), k) { assert Lookup(arr, node, k) == At(m, k); }
  }

  lemma StoredHash(arr: seq<Value>, node: seq<Node>, lastfree: nat, dummy: bool, c: Chains, mp: MainPosition,
      m: map<Key, Value>, key: Key, j: nat, v: Value)
    requires TableOk(arr, node, lastfree, dummy, c, mp) && Stands(arr, node, m) && j < |node|
        && node[j].key == Live(key) && !InRange(key, |arr|)
    ensures var node2 := node[j := node[j].(val := v)];
      TableOk(arr, node2, lastfree, dummy, c, mp) && Stands(arr, node2, Put(m, key, v))
          && Free(node2, dummy) == Free(node, dummy)
  {
    var node2 := node[j := node[j].(val := v)];
    StoredHashOk(node, c, mp, j, v);
    hide HashOk;
    assert Unique(node) && Unique(node2) by { UniqueOf(node, c, mp); UniqueOf(node2, c, mp); }
    forall k ensures Lookup(arr, node2, k) == At(Put(m, key, v), k) {
      assert Lookup(arr, node, k) == At(m, k);
      StoredLookup(arr, node, key, j, v, k);
    }
  }

  lemma UniqueOf(node: seq<Node>, c: Chains, mp: MainPosition)
    requires HashOk(node, c, mp)
    ensures Unique(node)
  {
  }

  lemma StoredHashOk(node: seq<Node>, c: Chains, mp: MainPosition, j: nat, v: Value)
    requires HashOk(node, c, mp) && j < |node| && node[j].key.Live?
    ensures HashOk(node[j := node[j].(val := v)], c, mp)
  {
    var node2 := node[j := node[j].(val := v)];
    forall i: nat ensures LinkOk(node2, c, i) { assert LinkOk(node, c, i); }
    forall i: nat ensures SlotOk(node2, c, i) { assert SlotOk(node, c, i); }
    forall i: nat ensures KeyOk(node2, c, mp, i) { assert KeyOk(node, c, mp, i); }
  }

  lemma StoredLookup(arr: seq<Value>, node: seq<Node>, key: Key, j: nat, v: Value, k: Key)
    requires j < |node| && node[j].key == Live(key) && !InRange(key, |arr|) && Unique(node)
        && Unique(node[j := node[j].(val := v)])
    ensures Lookup(arr, node[j := node[j].(val := v)], k) == if k == key then v else Lookup(arr, node, k)
  {
    var node2 := node[j := node[j].(val := v)];
    if k == key {
      LookupHash(arr, node2, k, j);
    } else if !InRange(k, |arr|) {
      if i :| 0 <= i < |node| && node[i].key == Live(k) {
        LookupHash(arr, node, k, i);
        LookupHash(arr, node2, k, i);
      } else {
        assert forall i :: 0 <= i < |node| ==> node2[i].key == node[i].key;
      }
    }
  }

  // ---- luaH_newkey

  lemma MainOk(arr: seq<Value>, node: seq<Node>, lastfree: nat, dummy: bool, c: Chains, mp: MainPosition, key: Key)
    requires TableOk(arr, node, lastfree, dummy, c, mp)
    ensures |node| > 0 && mp(key, |node|) < |node| && HashOk(node, c, mp) && GoodMain(mp)
  {
    HashAt(node, c, mp, 0);
  }

  lemma FreeNone(arr: seq<Value>, node: seq<Node>, lastfree: nat, dummy: bool, c: Chains, mp: MainPosition)
    requires TableOk(arr, node, lastfree, dummy, c, mp) && Free(node, dummy) == {}
    ensures TableOk(arr, node, 0, dummy, c, mp) && |Free(node, dummy)| == 0
  {
    forall j | !dummy && 0 <= j < |node| ensures node[j].key != NoKey { assert j !in Free(node, dummy); }
  }

  lemma TakenMain(arr: seq<Value>, node: seq<Node>, lastfree: nat, dummy: bool, c: Chains, mp: MainPosition, m: nat,
      n: nat)
    requires TableOk(arr, node, lastfree, dummy, c, mp) && m < |node| && (node[m].val != Nil || dummy)
        && n in Free(node, dummy)
    ensures !dummy && node[m].key.Live? && n < |node| && node[n].key == NoKey && |arr| <= Pow2(MAXBITS)
    ensures (forall j {:trigger node[j]} :: n < j < |node| ==> node[j].key != NoKey) ==> SlotsOk(arr, node, n + 1)
  {
    HashAt(node, c, mp, m);
  }

  lemma MovedIs(node: seq<Node>, c: Chains, mp: MainPosition, key: Key, m: nat, n: nat, prev: nat)
    requires HashOk(node, c, mp) && m < |node| && n < |node| && prev < |node| && node[n].key == NoKey
        && node[m].key.Live? && node[prev].next == m
    ensures m != n && prev != m && prev != n && Aligned(node, c)
    ensures Moved(node, key, m, n, prev) == node[prev := node[prev].(next := n)][n := node[m]][m
        := Node(Live(key), Nil, NULL)]
  {
    HashAt(node, c, mp, n);
    HashAt(node, c, mp, prev);
    MoveApart(node, c, m, n, prev);
  }

  lemma AppendedIs(node: seq<Node>, c: Chains, mp: MainPosition, key: Key, m: nat, n: nat)
    requires HashOk(node, c, mp) && m < |node| && n < |node| && node[n].key == NoKey && node[m].key.Live?
    ensures m != n && Aligned(node, c) && Appended(node, key, m, n) == node[n := Node(Live(key), Nil, node[m].next)][m
        := node[m].(next := n)] && node[n].val == Nil
  {
    HashAt(node, c, mp, n);
  }

  lemma PreviousStep(node: seq<Node>, c: Chains, mp: MainPosition, p: nat, m: nat)
    requires HashOk(node, c, mp) && p < |node| && m < |node| && After(c, p, m) && p != m && node[p].next != m
    ensures 0 <= node[p].next < |node| && After(c, node[p].next, m) && Rest(c, node[p].next) < Rest(c, p)
  {
    assert LinkOk(node, c, p);
    FindStep(node, c, p, node[p].next);
  }

  lemma AddedStands(arr: seq<Value>, node: seq<Node>, dummy: bool, node2: seq<Node>, key: Key, j: nat, m: map<Key,
      Value>,
                    lastfree: nat, c: Chains, c2: Chains, mp: MainPosition)
    requires HashOk(node, c, mp) && Stands(arr, node, m) && Designates(arr, node, key, Absent)
    requires TableOk(arr, node2, lastfree, dummy, c2, mp) && KeyAdded(arr, node, dummy, node2, key, j)
    ensures Stands(arr, node2, m) && Designates(arr, node2, key, InHash(j))
        && |Free(node2, dummy)| >= |Free(node, dummy)| - 1
  {
    UniqueOf(node, c, mp);
    UniqueOf(node2, c2, mp);
    hide HashOk, Entry;
    SameLookup(arr, node, node2);
    forall k ensures Lookup(arr, node2, k) == At(m, k) { assert Lookup(arr, node, k) == At(m, k); }
  }

  // ---- luaH_resize

  /** A hash part right after setnodevector. */
  ghost predicate Blank(node: seq<Node>, lastfree: nat, dummy: bool, c: Chains) {
    && |node| > 0 && lastfree == (if dummy then 0 else |node|) && (dummy ==> |node| == 1)
    && (forall j :: 0 <= j < |node| ==> node[j] == Node(NoKey, Nil, NULL))
    && Aligned(node, c) && forall j {:trigger c.id[j]} :: 0 <= j < |node| ==> c.id[j] == j && c.rank[j] == 0.0
  }

  lemma AllFree(node: seq<Node>)
    requires forall j :: 0 <= j < |node| ==> node[j] == Node(NoKey, Nil, NULL)
    ensures |Free(node, false)| == |node|
  {
    assert Free(node, false) == First(|node|);
  }

  ghost function First(n: nat): (r: set<nat>)
    ensures |r| == n && forall x: nat :: x in r <==> x < n
  {
    if n == 0 then {} else First(n - 1) + {n - 1}
  }

  lemma BlankHash(node: seq<Node>, lastfree: nat, dummy: bool, c: Chains, mp: MainPosition)
    requires Blank(node, lastfree, dummy, c) && GoodMain(mp)
    ensures HashOk(node, c, mp)
  {
    forall i: nat ensures LinkOk(node, c, i) && KeyOk(node, c, mp, i) && SlotOk(node, c, i) {}
  }

  /** The keys of S outside an array part of size n. */
  ghost function Out(S: set<Key>, n: nat): set<Key> { set k | k in S && !InRange(k, n) }

  /** A slot from i on has the key k. */
  ghost predicate Past(node: seq<Node>, i: nat, k: Key) {
    exists j {:trigger node[j]} :: i <= j < |node| && node[j].key == Live(k)
  }

  /** The entries for 1, ..., a and those of the slots from i on. */
  ghost function Part(m: map<Key, Value>, node: seq<Node>, a: nat, i: nat): map<Key, Value> {
    map k | k in m && (InRange(k, a) || Past(node, i, k)) :: m[k]
  }

  lemma TableShape(arr: seq<Value>, node: seq<Node>, lastfree: nat, dummy: bool, c: Chains, mp: MainPosition)
    requires TableOk(arr, node, lastfree, dummy, c, mp)
    ensures Layout(arr, node) && |arr| <= Pow2(MAXBITS)
  {
    UniqueOf(node, c, mp);
    forall j | 0 <= j < |node| ensures node[j].val != Nil ==> node[j].key.Live? { HashAt(node, c, mp, j); }
  }

  /** What the loops over a whole table use. */
  ghost predicate Layout(arr: seq<Value>, node: seq<Node>) {
    && Unique(node)
    && (forall j {:trigger node[j]} ::
        0 <= j < |node| ==>
          (node[j].val != Nil ==> node[j].key.Live?)
          && (node[j].key.Live? ==> Proper(node[j].key.k) && !InRange(node[j].key.k, |arr|)))
  }

  lemma StartStands(arr: seq<Value>, node: seq<Node>, m: map<Key, Value>, arr2: seq<Value>, node2: seq<Node>,
                    lastfree: nat, dummy: bool, c: Chains, mp: MainPosition, lo: nat)
    requires Stands(arr, node, m) && Blank(node2, lastfree, dummy, c) && GoodMain(mp) && |arr2| <= Pow2(MAXBITS)
    requires lo <= |arr| && lo <= |arr2| && arr2[..lo] == arr[..lo] && (forall j :: lo <= j < |arr2| ==> arr2[j] == Nil)
    ensures TableOk(arr2, node2, lastfree, dummy, c, mp) && Stands(arr2, node2, Part(m, node, lo, |node|))
  {
    BlankHash(node2, lastfree, dummy, c, mp);
    hide HashOk;
    forall k ensures Lookup(arr2, node2, k) == At(Part(m, node, lo, |node|), k) {
      assert Lookup(arr, node, k) == At(m, k);
      if InRange(k, lo) { assert arr2[..lo][k.i - 1] == arr[..lo][k.i - 1]; }
    }
  }

  lemma OutMore(S: set<Key>, T: set<Key>, n: nat)
    requires S <= T
    ensures |Out(S, n)| <= |Out(T, n)|
  {
    SubsetCard(Out(S, n), Out(T, n));
  }

  lemma OutAdd(S: set<Key>, k: Key, n: nat)
    requires k !in S
    ensures |Out(S + {k}, n)| == |Out(S, n)| + if InRange(k, n) then 0 else 1
  {
    if InRange(k, n) { assert Out(S + {k}, n) == Out(S, n); } else { assert Out(S + {k}, n) == Out(S, n) + {k}; }
  }

  /** Entry k with the value v comes next, if v is not nil. */
  ghost predicate Next(m: map<Key, Value>, part: map<Key, Value>, part2: map<Key, Value>, k: Key, v: Value,
      nasize: nat) {
    if v == Nil then part2 == part
    else
      && Proper(k) && k !in part && part2 == part[k := v] == Put(part, k, v)
      && |Out(part2.Keys, nasize)| == |Out(part.Keys, nasize)| + (if InRange(k, nasize) then 0 else 1)
        <= |Out(m.Keys, nasize)|
  }

  lemma NextFold(m: map<Key, Value>, part: map<Key, Value>, part2: map<Key, Value>, k: Key, v: Value, nasize: nat)
    requires v != Nil && Proper(k) && k !in part && part2 == part[k := v] && part2.Keys <= m.Keys
    ensures Next(m, part, part2, k, v, nasize)
  {
    OutAdd(part.Keys, k, nasize);
    assert part2.Keys == part.Keys + {k};
    OutMore(part2.Keys, m.Keys, nasize);
  }

  lemma NextParts(m: map<Key, Value>, part: map<Key, Value>, part2: map<Key, Value>, k: Key, v: Value, nasize: nat)
    requires Next(m, part, part2, k, v, nasize)
    ensures v == Nil ==> part2 == part
    ensures v != Nil ==> Proper(k) && part2 == Put(part, k, v)
    ensures v != Nil ==>
        |Out(part2.Keys, nasize)| == |Out(part.Keys, nasize)| + (if InRange(k, nasize) then 0 else 1)
        && |Out(part2.Keys, nasize)| <= |Out(m.Keys, nasize)|
  {
  }

  lemma SliceStep(arr: seq<Value>, node: seq<Node>, m: map<Key, Value>, i: nat, nasize: nat)
    requires Stands(arr, node, m) && i < |arr|
    ensures Next(m, Part(m, node, i, |node|), Part(m, node, i + 1, |node|), KInt(i + 1), arr[i], nasize)
  {
    var k := KInt(i + 1);
    assert Lookup(arr, node, k) == At(m, k);
    var part, part2 := Part(m, node, i, |node|), Part(m, node, i + 1, |node|);
    if arr[i] == Nil {
      assert part2 == part;
    } else {
      assert part2 == part[k := arr[i]];
      NextFold(m, part, part2, k, arr[i], nasize);
    }
  }

  lemma NodeStep(arr: seq<Value>, node: seq<Node>, m: map<Key, Value>, i: nat, nasize: nat)
    requires Stands(arr, node, m) && Layout(arr, node) && i < |node|
    ensures node[i].val != Nil ==> node[i].key.Live?
    ensures Next(m, Part(m, node, |arr|, i + 1), Part(m, node, |arr|, i), if node[i].key.Live? then node[i].key.k
        else KNil, node[i].val, nasize)
  {
    var part, part2 := Part(m, node, |arr|, i + 1), Part(m, node, |arr|, i);
    if node[i].key.Live? {
      var k := node[i].key.k;
      LookupHash(arr, node, k, i);
      assert Lookup(arr, node, k) == At(m, k);
      if node[i].val != Nil {
        assert k !in part;
        assert part2 == part[k := node[i].val];
        NextFold(m, part, part2, k, node[i].val, nasize);
      } else {
        assert part2 == part;
      }
    } else {
      assert part2 == part;
    }
  }

  lemma AllParts(arr: seq<Value>, node: seq<Node>, m: map<Key, Value>)
    requires Stands(arr, node, m)
    ensures Part(m, node, |arr|, 0) == m
  {
    forall k | k in m ensures InRange(k, |arr|) || Past(node, 0, k) { assert Lookup(arr, node, k) == At(m, k); }
  }

  // ---- rehash

  function Candidate(k: Key): int { if k.KInt? then k.i else 0 }

  ghost function Ints(S: set<Key>): set<int> { set k | k in S && IsCandidate(k) :: Candidate(k) }

  /** What rehash has counted after the keys S. */
  ghost predicate Tally(nums: seq<nat>, nasize: nat, total: nat, S: set<Key>) {
    Counts(nums, Ints(S)) && nasize == |Ints(S)| && total == |S|
  }

  lemma TallyKey(nums: seq<nat>, nasize: nat, total: nat, S: set<Key>, key: Key)
    requires Tally(nums, nasize, total, S) && key !in S
    ensures Counts(nums, Ints(S)) && (key.KInt? ==> key.i !in Ints(S))
  {
    IntsAdd(S, key);
    hide Counts;
  }

  lemma TallyFold(nums: seq<nat>, nasize: nat, total: nat, S: set<Key>, key: Key, nums2: seq<nat>, add: nat)
    requires Tally(nums, nasize, total, S) && key !in S && add == (if IsCandidate(key) then 1 else 0)
    requires Counts(nums2, if IsCandidate(key) then Ints(S) + {key.i} else Ints(S))
    ensures Tally(nums2, nasize + add, total + 1, S + {key})
  {
    IntsAdd(S, key);
    hide Counts;
  }

  /** The keys 1, ..., n of the array part with a value. */
  ghost function ArrKeys(arr: seq<Value>, n: nat): set<Key> {
    set j | 0 <= j < n && j < |arr| && arr[j] != Nil :: KInt(j + 1)
  }

  /** The keys with a value in the slots from i on. */
  ghost function NodeKeys(arr: seq<Value>, node: seq<Node>, i: nat): set<Key>
    requires Layout(arr, node)
  {
    set j | i <= j < |node| && node[j].val != Nil :: node[j].key.k
  }

  lemma ArrKeyNext(arr: seq<Value>, n: nat)
    requires n < |arr| <= Pow2(MAXBITS)
    ensures IsCandidate(KInt(n + 1)) && KInt(n + 1) !in ArrKeys(arr, n)
    ensures ArrKeys(arr, n + 1) == if arr[n] != Nil then ArrKeys(arr, n) + {KInt(n + 1)} else ArrKeys(arr, n)
  {
  }

  /** nums[lg] is lc short of the count of S. */
  ghost predicate Short(nums: seq<nat>, lg: nat, lc: nat, ause: nat, S: set<Key>) {
    lg < |nums| && Tally(nums[lg := nums[lg] + lc], ause + lc, ause + lc, S)
  }

  lemma ShortStep(nums: seq<nat>, lg: nat, lc: nat, ause: nat, arr: seq<Value>, n: nat)
    requires Short(nums, lg, lc, ause, ArrKeys(arr, n)) && n < |arr| <= Pow2(MAXBITS) && lg <= MAXBITS
        && Lo(lg) <= n < Pow2(lg)
    ensures Short(nums, lg, if arr[n] != Nil then lc + 1 else lc, ause, ArrKeys(arr, n + 1))
  {
    hide Counts, Ints, Pow2;
    ArrKeyNext(arr, n);
    if arr[n] != Nil {
      var key, nums2 := KInt(n + 1), nums[lg := nums[lg] + lc];
      TallyKey(nums2, ause + lc, ause + lc, ArrKeys(arr, n), key);
      CountMore(nums2, Ints(ArrKeys(arr, n)), n + 1, lg);
      assert nums2[lg := nums2[lg] + 1] == nums[lg := nums[lg] + (lc + 1)];
      TallyFold(nums2, ause + lc, ause + lc, ArrKeys(arr, n), key, nums[lg := nums[lg] + (lc + 1)], 1);
    }
  }

  lemma ShortStart(nums: seq<nat>, lg: nat, ause: nat, S: set<Key>)
    requires Tally(nums, ause, ause, S) && lg <= MAXBITS
    ensures Short(nums, lg, 0, ause, S)
  {
    assert nums[lg := nums[lg]] == nums;
  }

  lemma ShortEnd(nums: seq<nat>, lg: nat, lc: nat, ause: nat, S: set<Key>)
    requires Short(nums, lg, lc, ause, S)
    ensures lg < |nums| && Tally(nums[lg := nums[lg] + lc], ause + lc, ause + lc, S)
  {
  }

  lemma TallyStart(nums: seq<nat>, arr: seq<Value>)
    requires nums == seq(MAXBITS + 1, i => 0)
    ensures Tally(nums, 0, 0, ArrKeys(arr, 0))
  {
    assert ArrKeys(arr, 0) == {} && Ints({}) == {};
    forall i | 0 <= i <= MAXBITS ensures nums[i] == |Slice({}, i)| { assert Slice({}, i) == {}; }
  }

  lemma LimitOk(arr: seq<Value>, lg: nat)
    requires |arr| <= Pow2(MAXBITS)
    ensures Lo(lg) <= Pow2(lg) && (lg > 0 ==> Lo(lg) == Pow2(lg - 1)) && Pow2(lg + 1) == 2 * Pow2(lg)
        && Lo(lg + 1) == Pow2(lg)
    ensures lg > MAXBITS ==> Lo(lg) >= |arr|
  {
    if lg > MAXBITS { Pow2Mono(MAXBITS, lg - 1); }
  }

  /** numusearray */
  method NumUseArray(arr: seq<Value>, nums0: seq<nat>) returns (nums: seq<nat>, ause: nat)
    requires |arr| <= Pow2(MAXBITS) && Tally(nums0, 0, 0, ArrKeys(arr, 0))
    ensures Tally(nums, ause, ause, ArrKeys(arr, |arr|))
  {
    hide *;
    nums, ause := nums0, 0;
    var i, lg, ttlg: nat := 1, 0, 1;
    LimitOk(arr, 0);
    PowZero();
    while lg <= MAXBITS
      invariant lg <= MAXBITS + 1 && ttlg == Pow2(lg) && 1 <= i <= |arr| + 1
          && (i == Lo(lg) + 1 || i == |arr| + 1 <= Lo(lg) + 1)
      invariant Tally(nums, ause, ause, ArrKeys(arr, i - 1))
    {
      LimitOk(arr, lg);
      var lc: nat := 0;
      var lim := ttlg;
      if lim > |arr| {
        lim := |arr|;
        if i > lim { break; }
      }
      ShortStart(nums, lg, ause, ArrKeys(arr, i - 1));
      while i <= lim
        invariant Lo(lg) + 1 <= i <= lim + 1 && Short(nums, lg, lc, ause, ArrKeys(arr, i - 1))
      {
        ShortStep(nums, lg, lc, ause, arr, i - 1);
        if arr[i - 1] != Nil { lc := lc + 1; }
        i := i + 1;
      }
      ShortEnd(nums, lg, lc, ause, ArrKeys(arr, i - 1));
      nums := nums[lg := nums[lg] + lc];
      ause := ause + lc;
      lg, ttlg := lg + 1, 2 * ttlg;
    }
    LimitOk(arr, lg);
  }

  lemma PowZero()
    ensures Pow2(0) == 1 && Lo(0) == 0
  {
  }

  /** numusehash */
  method NumUseHash(arr: seq<Value>, node: seq<Node>, nums0: seq<nat>, nasize0: nat, total0: nat)
      returns (nums: seq<nat>, nasize: nat, totaluse: nat)
    requires Layout(arr, node) && Tally(nums0, nasize0, total0, ArrKeys(arr, |arr|))
    ensures Tally(nums, nasize, totaluse, ArrKeys(arr, |arr|) + NodeKeys(arr, node, 0))
  {
    hide *;
    nums, nasize, totaluse := nums0, nasize0, total0;
    var i: nat := |node|;
    NodeKeysEnd(arr, node);
    while i > 0
      invariant i <= |node| && Tally(nums, nasize, totaluse, ArrKeys(arr, |arr|) + NodeKeys(arr, node, i))
    {
      i := i - 1;
      NodeKeyNext(arr, node, i);
      if node[i].val != Nil {
        var add: nat;
        ghost var S := ArrKeys(arr, |arr|) + NodeKeys(arr, node, i + 1);
        TallyKey(nums, nasize, totaluse, S, node[i].key.k);
        ghost var was := nums;
        add, nums := CountInt(node[i].key.k, nums, Ints(S));
        TallyFold(was, nasize, totaluse, S, node[i].key.k, nums, add);
        nasize := nasize + add;
        totaluse := totaluse + 1;
        assert S + {node[i].key.k} == ArrKeys(arr, |arr|) + NodeKeys(arr, node, i);
      }
    }
  }

  lemma NodeKeysEnd(arr: seq<Value>, node: seq<Node>)
    requires Layout(arr, node)
    ensures NodeKeys(arr, node, |node|) == {} && ArrKeys(arr, |arr|) + {} == ArrKeys(arr, |arr|)
  {
  }

  lemma NodeKeyNext(arr: seq<Value>, node: seq<Node>, i: nat)
    requires Layout(arr, node) && i < |node|
    ensures node[i].val == Nil ==> NodeKeys(arr, node, i) == NodeKeys(arr, node, i + 1)
    ensures node[i].val != Nil ==> node[i].key.Live? && var k := node[i].key.k;
              k !in ArrKeys(arr, |arr|) + NodeKeys(arr, node, i + 1)
                  && NodeKeys(arr, node, i) == NodeKeys(arr, node, i + 1) + {k}
  {
    var K, K1 := NodeKeys(arr, node, i), NodeKeys(arr, node, i + 1);
    forall k | k in K1 ensures k in K {
      var j :| i + 1 <= j < |node| && node[j].val != Nil && node[j].key.k == k;
    }
    if node[i].val != Nil {
      var x := node[i].key.k;
      forall k | k in K1 ensures k != x {
        var j :| i + 1 <= j < |node| && node[j].val != Nil && node[j].key.k == k;
        assert node[j].key != node[i].key;
      }
      assert x in K;
      assert K == K1 + {x};
    } else {
      assert K == K1;
    }
  }

  /** All live keys have been counted. */
  lemma AllKeys(arr: seq<Value>, node: seq<Node>, m: map<Key, Value>)
    requires Layout(arr, node) && Stands(arr, node, m)
    ensures ArrKeys(arr, |arr|) + NodeKeys(arr, node, 0) == m.Keys
  {
    var K := ArrKeys(arr, |arr|) + NodeKeys(arr, node, 0);
    forall k ensures k in K <==> k in m.Keys {
      assert Lookup(arr, node, k) == At(m, k);
      if InRange(k, |arr|) {
        assert k == KInt(k.i - 1 + 1);
      } else {
        EntryLookup(arr, node, k);
        if k in m { assert Entry(node, k, m[k]); }
        if k in K {
          var j :| 0 <= j < |node| && node[j].val != Nil && node[j].key.k == k;
          assert Entry(node, k, node[j].val);
        }
      }
    }
  }

  lemma {:induction false} NodeKeysCount(arr: seq<Value>, node: seq<Node>, i: nat)
    requires Layout(arr, node) && i <= |node|
    ensures |NodeKeys(arr, node, i)| <= |node| - i
    decreases |node| - i
  {
    hide *;
    NodeKeysEnd(arr, node);
    if i < |node| {
      NodeKeysCount(arr, node, i + 1);
      NodeKeyNext(arr, node, i);
    }
  }

  /** The keys outside a greater array part are in the hash part already. */
  lemma OutInNodes(arr: seq<Value>, node: seq<Node>, lastfree: nat, dummy: bool, c: Chains, mp: MainPosition,
                   m: map<Key, Value>, n: nat)
    requires TableOk(arr, node, lastfree, dummy, c, mp) && Stands(arr, node, m) && Layout(arr, node) && n >= |arr|
    ensures |Out(m.Keys, n)| <= if dummy then 0 else |node|
  {
    AllKeys(arr, node, m);
    NodeKeysCount(arr, node, 0);
    hide Stands, Layout, HashOk;
    assert dummy ==> NodeKeys(arr, node, 0) == {};
    hide TableOk;
    forall k | k in Out(m.Keys, n) ensures k in NodeKeys(arr, node, 0) { assert k !in ArrKeys(arr, |arr|); }
    SubsetCard(Out(m.Keys, n), NodeKeys(arr, node, 0));
  }

  /** The keys of S are those of the new array part and the others. */
  lemma {:induction false} SplitKeys(S: set<Key>, n: nat)
    requires n <= Pow2(MAXBITS)
    ensures |UpTo(Ints(S), n)| + |Out(S, n)| == |S|
  {
    if S == {} {
      assert Ints({}) == {} && UpTo({}, n) == {} && Out({}, n) == {};
    } else {
      var k :| k in S;
      var T := S - {k};
      SplitKeys(T, n);
      assert S == T + {k};
      OutAdd(T, k, n);
      IntsAdd(T, k);
      hide Ints, Out, Pow2;
      if InRange(k, n) {
        assert UpTo(Ints(T) + {k.i}, n) == UpTo(Ints(T), n) + {k.i};
      } else if IsCandidate(k) {
        assert UpTo(Ints(T) + {k.i}, n) == UpTo(Ints(T), n);
      }
    }
  }

  lemma IntsAdd(S: set<Key>, key: Key)
    requires key !in S
    ensures Ints(S + {key}) == if IsCandidate(key) then Ints(S) + {key.i} else Ints(S)
    ensures key.KInt? ==> key.i !in Ints(S)
  {
    forall k | k in S && IsCandidate(k) && key.KInt? ensures Candidate(k) != key.i { assert k != key; }
    var R := Ints(S + {key});
    if IsCandidate(key) {
      assert Candidate(key) == key.i && key in S + {key};
      forall x ensures x in R <==> x in Ints(S) + {key.i} {
        if x in R { var k :| k in S + {key} && IsCandidate(k) && Candidate(k) == x; }
        if x in Ints(S) { var k :| k in S && IsCandidate(k) && Candidate(k) == x; assert k in S + {key}; }
      }
      assert R == Ints(S) + {key.i};
    } else {
      assert R == Ints(S);
    }
  }

  /** The hash part gets a free slot for the extra key, unless the key goes to the array part. */
  lemma RoomForExtra(S: set<Key>, key: Key, n: nat)
    requires key !in S && n <= Pow2(MAXBITS)
    ensures |UpTo(Ints(S + {key}), n)| <= |S| + 1
    ensures |S| + 1 - |UpTo(Ints(S + {key}), n)| == |Out(S, n)| + if InRange(key, n) then 0 else 1
    ensures |S| + 1 - |UpTo(Ints(S + {key}), n)| == |Out(S + {key}, n)|
  {
    SplitKeys(S + {key}, n);
    OutAdd(S, key, n);
  }

  lemma ExtraKey(arr: seq<Value>, node: seq<Node>, m: map<Key, Value>, key: Key)
    requires Stands(arr, node, m) && Designates(arr, node, key, Absent)
    ensures key !in m.Keys && |m.Keys| == |m|
  {
    assert Lookup(arr, node, key) == At(m, key);
  }

  lemma TallyParts(nums: seq<nat>, nasize: nat, total: nat, S: set<Key>)
    requires Tally(nums, nasize, total, S)
    ensures Counts(nums, Ints(S)) && nasize == |Ints(S)| && total == |S|
  {
  }
}
