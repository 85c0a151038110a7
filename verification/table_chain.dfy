/** The hash part of a table (ltable.c): chains of slots in one vector, entered at the main position of a key. */
module TableChain {

  datatype Value = Nil | Val(n: int)

  /** A key: numbers with an integer value, NaN, nil, and any other value. */
  datatype Key = KNil | KNaN | KInt(i: int) | KOther(id: nat)

  /** The key of a slot; the collector may have marked it as dead. */
  datatype SlotKey = NoKey | Live(k: Key) | Dead(k: Key)

  datatype Node = Node(key: SlotKey, val: Value, next: int)

  const NULL: int := -1

  /** The main position of a key in a hash part of the given size; any function will do. */
  type MainPosition = (Key, nat) -> nat

  ghost predicate GoodMain(mp: MainPosition) {
    forall k, n {:trigger mp(k, n)} :: n > 0 ==> mp(k, n) < n
  }

  // ---- Chains, with a name and a rank for every slot: the slots after i in its chain are those with a greater rank

  datatype Chains = Chains(id: seq<nat>, rank: seq<real>)

  ghost predicate Aligned(node: seq<Node>, c: Chains) { |c.id| == |c.rank| == |node| > 0 }

  /** The next slot of i is the one with the next greater rank. */
  ghost predicate LinkOk(node: seq<Node>, c: Chains, i: nat)
    requires Aligned(node, c)
  {
    i < |node| ==>
      var n := node[i].next;
      if n == NULL then (forall j {:trigger c.id[j]} ::
          0 <= j < |node| && c.id[j] == c.id[i] ==> c.rank[j] <= c.rank[i])
      else
        && 0 <= n < |node| && c.id[n] == c.id[i] && c.rank[i] < c.rank[n]
        && (forall j {:trigger c.id[j]} ::
            0 <= j < |node| && c.id[j] == c.id[i] ==> c.rank[j] <= c.rank[i] || c.rank[n] <= c.rank[j])
  }

  ghost predicate After(c: Chains, i: nat, j: nat)
    requires i < |c.id| && j < |c.id| && |c.rank| == |c.id|
  {
    c.id[i] == c.id[j] && c.rank[i] <= c.rank[j]
  }

  /**
   * A key is in the chain of its main position, and the slot there holds a key that is in its own main position
   * (ltable.c:15-18).
   */
  ghost predicate KeyOk(node: seq<Node>, c: Chains, mp: MainPosition, i: nat)
    requires Aligned(node, c)
  {
    i < |node| && node[i].key != NoKey ==>
      var m := mp(node[i].key.k, |node|);
      m < |node| && After(c, m, i) && node[m].key != NoKey && mp(node[m].key.k, |node|) == m
  }

  /** A free slot is in no chain; a value has a live key. */
  ghost predicate SlotOk(node: seq<Node>, c: Chains, i: nat)
    requires Aligned(node, c)
  {
    i < |node| ==>
      && (node[i].val != Nil ==> node[i].key.Live?)
      && (node[i].key == NoKey ==>
          node[i].next == NULL && forall j {:trigger c.id[j]} :: 0 <= j < |node| && j != i ==> c.id[j] != c.id[i])
  }

  ghost predicate Unique(node: seq<Node>) {
    forall i, j {:trigger node[i].key, node[j].key} :: 0 <= i < j < |node| && node[i].key.Live?
        ==> node[i].key != node[j].key
  }

  ghost predicate RanksDiffer(c: Chains) {
    |c.rank| == |c.id| && forall i, j {:trigger c.id[i], c.id[j]} ::
        0 <= i < j < |c.id| && c.id[i] == c.id[j] ==> c.rank[i] != c.rank[j]
  }

  /** A key comes before the dead keys that look like it: objects that were at the same address. */
  ghost predicate LiveFirst(node: seq<Node>, c: Chains)
    requires Aligned(node, c)
  {
    forall i, j {:trigger node[i].key, node[j].key} ::
      0 <= i < |node| && 0 <= j < |node| && node[i].key.Live? && node[j].key == Dead(node[i].key.k) ==>
          c.rank[i] < c.rank[j]
  }

  ghost predicate HashOk(node: seq<Node>, c: Chains, mp: MainPosition) {
    && Aligned(node, c) && GoodMain(mp) && RanksDiffer(c) && Unique(node) && LiveFirst(node, c)
    && (forall i: nat {:trigger LinkOk(node, c, i)} :: LinkOk(node, c, i))
    && (forall i: nat {:trigger KeyOk(node, c, mp, i)} :: KeyOk(node, c, mp, i))
    && (forall i: nat {:trigger SlotOk(node, c, i)} :: SlotOk(node, c, i))
  }

  /** The slots after slot i in its chain. */
  ghost function Rest(c: Chains, i: nat): set<nat>
    requires i < |c.id| == |c.rank|
  {
    set j: nat | j < |c.id| && c.id[j] == c.id[i] && c.rank[j] > c.rank[i]
  }

  /** The loop of luaH_get over a chain: the slot with the key, or none. */
  method FindSlot(node: seq<Node>, ghost c: Chains, mp: MainPosition, key: Key) returns (r: int)
    requires HashOk(node, c, mp)
    ensures r == NULL || 0 <= r < |node|
    ensures r != NULL ==> node[r].key == Live(key)
    ensures r == NULL ==> forall j :: 0 <= j < |node| ==> node[j].key != Live(key)
  {
    var n: int := mp(key, |node|);
    ghost var m := mp(key, |node|);
    while n != NULL
      invariant n == NULL || 0 <= n < |node|
      invariant n != NULL ==> c.id[n] == c.id[m] && forall j {:trigger c.id[j]} ::
          0 <= j < |node| && c.id[j] == c.id[m] && c.rank[m] <= c.rank[j] < c.rank[n] ==> node[j].key != Live(key)
      invariant n == NULL ==> forall j {:trigger c.id[j]} ::
          0 <= j < |node| && c.id[j] == c.id[m] && c.rank[m] <= c.rank[j] ==> node[j].key != Live(key)
      decreases n != NULL, if n != NULL then Rest(c, n) else {}
    {
      if node[n].key == Live(key) { return n; }
      assert LinkOk(node, c, n);
      var next := node[n].next;
      FindStep(node, c, n, next);
      n := next;
    }
    forall j | 0 <= j < |node| ensures node[j].key != Live(key) {
      assert KeyOk(node, c, mp, j);
      assert c.id[j] == c.id[j];
    }
    return NULL;
  }

  lemma FindStep(node: seq<Node>, c: Chains, i: nat, n: int)
    requires Aligned(node, c) && i < |node| && LinkOk(node, c, i) && n == node[i].next && RanksDiffer(c)
    ensures n != NULL ==> 0 <= n < |node| && Rest(c, n) < Rest(c, i)
    ensures forall j {:trigger c.id[j]} ::
        0 <= j < |node| && c.id[j] == c.id[i] && c.rank[j] > c.rank[i] ==> n != NULL && c.rank[j] >= c.rank[n]
    ensures forall j {:trigger c.id[j]} :: 0 <= j < |node| && c.id[j] == c.id[i] && c.rank[j] == c.rank[i] ==> j == i
  {
    if n != NULL {
      assert n in Rest(c, i) && n !in Rest(c, n);
    }
  }

  // ---- Finding the place of a key in a traversal

  /** The slot has the key, alive or dead. */
  predicate Holds(node: seq<Node>, j: nat, key: Key) { j < |node| && node[j].key != NoKey && node[j].key.k == key }

  /** The slot that comes first among those that hold the key. */
  ghost predicate FirstHolder(node: seq<Node>, c: Chains, key: Key, i: nat) {
    && Aligned(node, c) && Holds(node, i, key)
    && forall j: nat {:trigger Holds(node, j, key)} :: Holds(node, j, key) && j != i ==> c.rank[i] < c.rank[j]
  }

  /** The loop of findindex over a chain. */
  method FindHolder(node: seq<Node>, ghost c: Chains, mp: MainPosition, key: Key) returns (r: int)
    requires HashOk(node, c, mp)
    ensures r == NULL ==> forall j: nat :: !Holds(node, j, key)
    ensures r != NULL ==> r >= 0 && FirstHolder(node, c, key, r)
  {
    var n: int := mp(key, |node|);
    ghost var m := mp(key, |node|);
    while true
      invariant 0 <= n < |node| && c.id[n] == c.id[m]
      invariant forall j {:trigger c.id[j]} ::
          0 <= j < |node| && c.id[j] == c.id[m] && c.rank[m] <= c.rank[j] < c.rank[n] ==> !Holds(node, j, key)
      decreases Rest(c, n)
    {
      assert LinkOk(node, c, n);
      var next := node[n].next;
      FindStep(node, c, n, next);
      forall j: nat | Holds(node, j, key) ensures After(c, m, j) && c.rank[n] <= c.rank[j]
          && (j != n ==> c.rank[n] < c.rank[j]) {
        assert KeyOk(node, c, mp, j);
        assert c.id[j] == c.id[m];
      }
      if Holds(node, n, key) { return n; }
      if next == NULL { break; }
      n := next;
    }
    return NULL;
  }

  /** Slots that hold the same key are in one chain, so only one of them comes first. */
  lemma OneHolder(node: seq<Node>, c: Chains, key: Key, i: nat, j: nat)
    requires FirstHolder(node, c, key, i) && FirstHolder(node, c, key, j)
    ensures i == j
  {
  }

  /** A live key comes first. */
  lemma LiveHolder(node: seq<Node>, c: Chains, mp: MainPosition, i: nat)
    requires HashOk(node, c, mp) && i < |node| && node[i].key.Live?
    ensures FirstHolder(node, c, node[i].key.k, i)
  {
    forall j: nat | Holds(node, j, node[i].key.k) && j != i ensures c.rank[i] < c.rank[j] {
      assert node[j].key == Dead(node[i].key.k);
    }
  }

  /** The key of an empty slot may die (removeentry in lgc.c). */
  lemma KeyDies(node: seq<Node>, c: Chains, mp: MainPosition, j: nat)
    requires HashOk(node, c, mp) && j < |node| && node[j].key.Live? && node[j].val == Nil
    ensures HashOk(node[j := node[j].(key := Dead(node[j].key.k))], c, mp)
  {
    var node2 := node[j := node[j].(key := Dead(node[j].key.k))];
    forall i: nat ensures LinkOk(node2, c, i) { assert LinkOk(node, c, i); }
    forall i: nat ensures SlotOk(node2, c, i) { assert SlotOk(node, c, i); }
    forall i: nat ensures KeyOk(node2, c, mp, i) { assert KeyOk(node, c, mp, i); }
    forall i: nat | i < |node| && i != j && node[i].key.Live? ensures node[i].key.k != node[j].key.k {
      assert node[i].key != node[j].key;
    }
  }

  // ---- Inserting a key (luaH_newkey)

  ghost predicate Fresh(node: seq<Node>, key: Key) {
    forall j {:trigger node[j].key} :: 0 <= j < |node| ==> node[j].key != Live(key)
  }

  /** The main position is not taken: the key goes there. */
  lemma Reuse(node: seq<Node>, c: Chains, mp: MainPosition, key: Key, m: nat)
    requires HashOk(node, c, mp) && Fresh(node, key) && m == mp(key, |node|) && node[m].val == Nil
    ensures HashOk(node[m := node[m].(key := Live(key))], c, mp)
  {
    var node2 := node[m := node[m].(key := Live(key))];
    forall i: nat ensures LinkOk(node2, c, i) { assert LinkOk(node, c, i); }
    forall i: nat ensures SlotOk(node2, c, i) { assert SlotOk(node, c, i); }
    forall i: nat ensures KeyOk(node2, c, mp, i) { assert KeyOk(node, c, mp, i); }
    forall j: nat | j < |node| && node[j].key == Dead(key) ensures j == m || c.rank[m] < c.rank[j] {
      assert KeyOk(node, c, mp, j);
      assert c.id[m] == c.id[j];
    }
  }

  /** The slot of another chain that is in the way moves to the free slot n; the new key gets its place. */
  ghost function Moved(node: seq<Node>, key: Key, m: nat, n: nat, prev: nat): seq<Node>
    requires m < |node| && n < |node| && prev < |node|
  {
    node[prev := node[prev].(next := n)][n := node[m]][m := Node(Live(key), Nil, NULL)]
  }

  ghost function Swapped(c: Chains, m: nat, n: nat): Chains
    requires m < |c.id| == |c.rank| && n < |c.id|
  {
    Chains(c.id[m := c.id[n]][n := c.id[m]], c.rank[m := c.rank[n]][n := c.rank[m]])
  }

  lemma Move(node: seq<Node>, c: Chains, mp: MainPosition, key: Key, m: nat, n: nat, prev: nat)
    requires HashOk(node, c, mp) && Fresh(node, key) && m == mp(key, |node|) && node[m].key.Live?
        && mp(node[m].key.k, |node|) != m
    requires n < |node| && node[n].key == NoKey && prev < |node| && node[prev].next == m
    ensures HashOk(Moved(node, key, m, n, prev), Swapped(c, m, n), mp)
  {
    var node2, c2 := Moved(node, key, m, n, prev), Swapped(c, m, n);
    assert SlotOk(node, c, n) && LinkOk(node, c, prev) && n != prev && n != m && prev != m;
    assert |node2| == |node| && forall i :: 0 <= i < |node| && i != m && i != n && i != prev ==> node2[i] == node[i];
    forall i: nat ensures LinkOk(node2, c2, i) { MoveLink(node, c, mp, key, m, n, prev, i); }
    forall i: nat ensures SlotOk(node2, c2, i) { assert SlotOk(node, c, i) && SlotOk(node, c, m); }
    forall i: nat ensures KeyOk(node2, c2, mp, i) { MoveKey(node, c, mp, key, m, n, prev, i); }
    SwapRanks(c, m, n);
    MoveUnique(node, key, m, n, prev);
    forall j: nat | j < |node| ensures node[j].key != Dead(key) { assert KeyOk(node, c, mp, j); }
    MoveFirst(node, c, key, m, n, prev);
  }

  lemma MoveFirst(node: seq<Node>, c: Chains, key: Key, m: nat, n: nat, prev: nat)
    requires Aligned(node, c) && LiveFirst(node, c) && m < |node| && n < |node| && prev < |node| && node[n].key == NoKey
        && n != m && prev != m && prev != n
    requires forall j {:trigger node[j].key} :: 0 <= j < |node| ==> node[j].key != Dead(key)
    ensures LiveFirst(Moved(node, key, m, n, prev), Swapped(c, m, n))
  {
    var node2, d := Moved(node, key, m, n, prev), Swapped(c, m, n);
    forall i, j {:trigger node2[i].key, node2[j].key} | 0 <= i < |node2| && 0 <= j < |node2| && node2[i].key.Live?
        && node2[j].key == Dead(node2[i].key.k) ensures d.rank[i] < d.rank[j] {
      var a, b := if i == n then m else i, if j == n then m else j;
      assert i != m ==> node2[i].key == node[a].key && d.rank[i] == c.rank[a];
      assert j != m ==> node2[j].key == node[b].key && d.rank[j] == c.rank[b];
      assert j != m && node[b].key == Dead(node2[i].key.k);
    }
  }

  lemma MoveKey(node: seq<Node>, c: Chains, mp: MainPosition, key: Key, m: nat, n: nat, prev: nat, i: nat)
    requires HashOk(node, c, mp) && m == mp(key, |node|) && node[m].key.Live? && mp(node[m].key.k, |node|) != m
    requires n < |node| && node[n].key == NoKey && prev < |node| && n != m && n != prev && prev != m
    ensures KeyOk(Moved(node, key, m, n, prev), Swapped(c, m, n), mp, i)
  {
    assert KeyOk(node, c, mp, i) && KeyOk(node, c, mp, m);
  }

  lemma SwapRanks(c: Chains, m: nat, n: nat)
    requires RanksDiffer(c) && m < |c.id| && n < |c.id|
    ensures RanksDiffer(Swapped(c, m, n))
  {
    var d := Swapped(c, m, n);
    forall i, j | 0 <= i < j < |d.id| && d.id[i] == d.id[j] ensures d.rank[i] != d.rank[j] {
      var a, b := if i == m then n else if i == n then m else i, if j == m then n else if j == n then m else j;
      assert d.id[i] == c.id[a] && d.id[j] == c.id[b];
    }
  }

  lemma MoveUnique(node: seq<Node>, key: Key, m: nat, n: nat, prev: nat)
    requires Unique(node) && Fresh(node, key) && m < |node| && n < |node| && prev < |node| && node[n].key == NoKey
        && n != m && prev != m && prev != n
    ensures Unique(Moved(node, key, m, n, prev))
  {
    var node2 := Moved(node, key, m, n, prev);
    forall i, j | 0 <= i < j < |node2| && node2[i].key.Live? ensures node2[i].key != node2[j].key {
      var a, b := if i == n then m else i, if j == n then m else j;
      assert i != m ==> node2[i].key == node[a].key;
      assert j != m ==> node2[j].key == node[b].key;
    }
  }

  lemma MoveLink(node: seq<Node>, c: Chains, mp: MainPosition, key: Key, m: nat, n: nat, prev: nat, i: nat)
    requires HashOk(node, c, mp) && m < |node| && node[m].key.Live?
    requires n < |node| && node[n].key == NoKey && prev < |node| && node[prev].next == m && n != m && n != prev
        && prev != m
    ensures LinkOk(Moved(node, key, m, n, prev), Swapped(c, m, n), i)
  {
    var node2, c2 := Moved(node, key, m, n, prev), Swapped(c, m, n);
    assert SlotOk(node, c, n) && LinkOk(node, c, prev) && LinkOk(node, c, m) && LinkOk(node, c, i);
    assert forall j :: 0 <= j < |node| && j != m && j != n ==> c2.id[j] == c.id[j] && c2.rank[j] == c.rank[j];
  }

  /** The new key goes to the free slot n, after its main position, which is taken by a key of its own. */
  ghost function Appended(node: seq<Node>, key: Key, m: nat, n: nat): seq<Node>
    requires m < |node| && n < |node|
  {
    node[n := Node(Live(key), Nil, node[m].next)][m := node[m].(next := n)]
  }

  ghost function Inserted(node: seq<Node>, c: Chains, m: nat, n: nat): Chains
    requires Aligned(node, c) && m < |node| && n < |node| && (node[m].next == NULL || 0 <= node[m].next < |node|)
  {
    var x := node[m].next;
    Chains(c.id[n := c.id[m]], c.rank[n := if x == NULL then c.rank[m] + 1.0 else (c.rank[m] + c.rank[x]) / 2.0])
  }

  lemma AppendKey(node: seq<Node>, c: Chains, mp: MainPosition, key: Key, m: nat, n: nat)
    requires HashOk(node, c, mp) && Fresh(node, key) && m == mp(key, |node|) && node[m].key.Live?
        && mp(node[m].key.k, |node|) == m
    requires n < |node| && node[n].key == NoKey
    ensures (node[m].next == NULL || 0 <= node[m].next < |node|)
        && HashOk(Appended(node, key, m, n), Inserted(node, c, m, n), mp)
  {
    assert LinkOk(node, c, m) && SlotOk(node, c, n);
    var node2, c2 := Appended(node, key, m, n), Inserted(node, c, m, n);
    assert forall j :: 0 <= j < |node| && j != n ==> c2.id[j] == c.id[j] && c2.rank[j] == c.rank[j];
    forall i: nat ensures LinkOk(node2, c2, i) { AppendLink(node, c, mp, key, m, n, i); }
    forall i: nat ensures SlotOk(node2, c2, i) { assert SlotOk(node, c, i); }
    forall i: nat ensures KeyOk(node2, c2, mp, i) { assert KeyOk(node, c, mp, i); }
    AppendRanks(node, c, m, n);
    AppendUnique(node, key, m, n);
    forall j: nat | j < |node| && node[j].key == Dead(key) ensures c.id[j] == c.id[m] && c.rank[m] < c.rank[j] {
      assert KeyOk(node, c, mp, j);
      assert c.id[j] == c.id[m];
    }
    AppendFirst(node, c, key, m, n);
  }

  lemma AppendFirst(node: seq<Node>, c: Chains, key: Key, m: nat, n: nat)
    requires Aligned(node, c) && LiveFirst(node, c) && m < |node| && n < |node| && m != n && node[n].key == NoKey
        && LinkOk(node, c, m)
    requires forall j {:trigger node[j].key} ::
        0 <= j < |node| && node[j].key == Dead(key) ==> c.id[j] == c.id[m] && c.rank[m] < c.rank[j]
    ensures LiveFirst(Appended(node, key, m, n), Inserted(node, c, m, n))
  {
    var node2, d := Appended(node, key, m, n), Inserted(node, c, m, n);
    forall i, j {:trigger node2[i].key, node2[j].key} | 0 <= i < |node2| && 0 <= j < |node2| && node2[i].key.Live?
        && node2[j].key == Dead(node2[i].key.k) ensures d.rank[i] < d.rank[j] {
      assert j != n && node[j].key == node2[j].key;
      if i == n { assert c.id[j] == c.id[m]; } else { assert node[i].key == node2[i].key; }
    }
  }

  lemma AppendLink(node: seq<Node>, c: Chains, mp: MainPosition, key: Key, m: nat, n: nat, i: nat)
    requires HashOk(node, c, mp) && m < |node| && n < |node| && node[n].key == NoKey && m != n
    requires node[m].next == NULL || 0 <= node[m].next < |node|
    ensures LinkOk(Appended(node, key, m, n), Inserted(node, c, m, n), i)
  {
    var node2, c2 := Appended(node, key, m, n), Inserted(node, c, m, n);
    assert LinkOk(node, c, m) && SlotOk(node, c, n) && LinkOk(node, c, i);
    assert forall j :: 0 <= j < |node| && j != n ==> c2.id[j] == c.id[j] && c2.rank[j] == c.rank[j];
    assert c.id[m] == c.id[m];
  }

  lemma AppendRanks(node: seq<Node>, c: Chains, m: nat, n: nat)
    requires Aligned(node, c) && RanksDiffer(c) && m < |node| && n < |node| && m != n && LinkOk(node, c, m)
    requires forall j {:trigger c.id[j]} :: 0 <= j < |node| && j != n ==> c.id[j] != c.id[n]
    ensures (node[m].next == NULL || 0 <= node[m].next < |node|) && RanksDiffer(Inserted(node, c, m, n))
  {
    var d := Inserted(node, c, m, n);
    forall i, j | 0 <= i < j < |d.id| && d.id[i] == d.id[j] ensures d.rank[i] != d.rank[j] {
      if i != n && j != n { assert c.id[i] == c.id[j]; }
      else if i == n { assert c.id[j] == c.id[m]; }
      else { assert c.id[i] == c.id[m]; }
    }
  }

  lemma AppendUnique(node: seq<Node>, key: Key, m: nat, n: nat)
    requires Unique(node) && Fresh(node, key) && m < |node| && n < |node| && node[n].key == NoKey && m != n
    ensures Unique(Appended(node, key, m, n))
  {
    var node2 := Appended(node, key, m, n);
    forall i, j | 0 <= i < j < |node2| && node2[i].key.Live? ensures node2[i].key != node2[j].key {
      assert i != n ==> node2[i].key == node[i].key;
      assert j != n ==> node2[j].key == node[j].key;
    }
  }
}
