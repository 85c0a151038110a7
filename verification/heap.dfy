/** Binary min heaps for any strict weak order (heap-inl.h). */
module Heap {
  import opened HeapLinks

  /** Irreflexive, transitive, and incomparable nodes are alike. */
  ghost predicate StrictWeak(less: (Ref, Ref) -> bool) {
    && (forall a {:trigger less(a, a)} :: !less(a, a))
    && (forall a, b, c {:trigger less(a, b), less(b, c)} :: less(a, b) && less(b, c) ==> less(a, c))
    && (forall a, b, c {:trigger less(a, c), less(a, b)} {:trigger less(a, c), less(b, c)} ::
        less(a, c) ==> less(a, b) || less(b, c))
  }

  lemma NegTrans(less: (Ref, Ref) -> bool, a: Ref, b: Ref, c: Ref)
    requires StrictWeak(less)
    ensures !less(a, b) && !less(b, c) ==> !less(a, c)
    ensures less(a, b) && less(b, c) ==> less(a, c)
    ensures less(a, b) ==> !less(b, a)
  {
    assert !less(a, a);
  }

  ghost predicate OrderAt(less: (Ref, Ref) -> bool, s: seq<Ref>, j: nat) { 0 < j < |s| ==> !less(s[j], s[Up(j)]) }

  ghost predicate Ordered(less: (Ref, Ref) -> bool, s: seq<Ref>) {
    forall j: nat {:trigger OrderAt(less, s, j)} :: OrderAt(less, s, j)
  }

  /** A child of node i does not go before the parent of node i. */
  ghost predicate SkipAt(less: (Ref, Ref) -> bool, s: seq<Ref>, i: nat, j: nat) {
    0 < j < |s| && Up(j) == i && i > 0 ==> !less(s[j], s[Up(i)])
  }

  /** All is in order, except that node i may have to move up. */
  ghost predicate NearlyUp(less: (Ref, Ref) -> bool, s: seq<Ref>, i: nat) {
    i < |s| && forall j: nat {:trigger OrderAt(less, s, j)} {:trigger SkipAt(less, s, i, j)} ::
        (j != i ==> OrderAt(less, s, j)) && SkipAt(less, s, i, j)
  }

  /** All is in order, except that node i may have to move, up or down. */
  ghost predicate Nearly(less: (Ref, Ref) -> bool, s: seq<Ref>, i: nat) {
    i < |s| && forall j: nat {:trigger OrderAt(less, s, j)} {:trigger SkipAt(less, s, i, j)} ::
        (j != i && (j == 0 || Up(j) != i) ==> OrderAt(less, s, j)) && SkipAt(less, s, i, j)
  }

  lemma UpStep(less: (Ref, Ref) -> bool, s: seq<Ref>, i: nat)
    requires StrictWeak(less) && NearlyUp(less, s, i) && i > 0 && less(s[i], s[Up(i)])
    ensures Up(i) < |s| && NearlyUp(less, Swapped(s, Up(i), i), Up(i))
  {
    var p, t := Up(i), Swapped(s, Up(i), i);
    forall j: nat ensures (j != p ==> OrderAt(less, t, j)) && SkipAt(less, t, p, j) {
      assert (j != i ==> OrderAt(less, s, j)) && SkipAt(less, s, i, j);
      assert OrderAt(less, s, p);
      NegTrans(less, s[i], s[p], s[i]);
      if 0 < j < |s| {
        NegTrans(less, s[j], s[i], s[p]);
        if p > 0 { NegTrans(less, s[j], s[p], s[Up(p)]); }
      }
    }
  }

  lemma UpEnd(less: (Ref, Ref) -> bool, s: seq<Ref>, i: nat)
    requires NearlyUp(less, s, i) && OrderAt(less, s, i)
    ensures Ordered(less, s)
  {
  }

  /** The child c, which goes before all other children of i and before i itself, moves up. */
  lemma DownStep(less: (Ref, Ref) -> bool, s: seq<Ref>, i: nat, c: nat)
    requires StrictWeak(less) && Nearly(less, s, i) && 0 < c < |s| && Up(c) == i && less(s[c], s[i]) && forall o: nat ::
        0 < o < |s| && Up(o) == i ==> !less(s[o], s[c])
    ensures Nearly(less, Swapped(s, i, c), c)
  {
    var t := Swapped(s, i, c);
    forall j: nat ensures (j != c && (j == 0 || Up(j) != c) ==> OrderAt(less, t, j)) && SkipAt(less, t, c, j) {
      assert (j != i && (j == 0 || Up(j) != i) ==> OrderAt(less, s, j)) && SkipAt(less, s, i, j)
          && SkipAt(less, s, i, c);
    }
  }

  lemma DownEnd(less: (Ref, Ref) -> bool, s: seq<Ref>, i: nat)
    requires Nearly(less, s, i) && forall o: nat :: 0 < o < |s| && Up(o) == i ==> !less(s[o], s[i])
    ensures NearlyUp(less, s, i)
  {
    forall j: nat ensures (j != i ==> OrderAt(less, s, j)) && SkipAt(less, s, i, j) {
      assert SkipAt(less, s, i, j) && (j != i && (j == 0 || Up(j) != i) ==> OrderAt(less, s, j));
    }
  }

  /** Dropping the last node and putting any node into place r leaves only r to be repaired. */
  lemma ReplaceNearly(less: (Ref, Ref) -> bool, s: seq<Ref>, r: nat, y: Ref)
    requires StrictWeak(less) && Ordered(less, s) && |s| > 0 && r < |s| - 1
    ensures Nearly(less, s[..|s| - 1][r := y], r)
  {
    var t := s[..|s| - 1][r := y];
    forall j: nat ensures (j != r && (j == 0 || Up(j) != r) ==> OrderAt(less, t, j)) && SkipAt(less, t, r, j) {
      assert OrderAt(less, s, j) && OrderAt(less, s, r);
      if 0 < j < |s| && r > 0 { NegTrans(less, s[j], s[r], s[Up(r)]); }
    }
  }

  lemma {:induction false} RootLeast(less: (Ref, Ref) -> bool, s: seq<Ref>, i: nat)
    requires StrictWeak(less) && Ordered(less, s) && i < |s|
    ensures !less(s[i], s[0])
  {
    if i > 0 {
      RootLeast(less, s, Up(i));
      assert OrderAt(less, s, i);
      NegTrans(less, s[i], s[Up(i)], s[0]);
    } else {
      NegTrans(less, s[0], s[0], s[0]);
    }
  }

  class MinHeap {
    var cell: map<Ref, Cell>
    var min: Ref
    var nelts: nat
    const less: (Ref, Ref) -> bool
    ghost var at: seq<Ref>

    /** The links are those of the complete tree of at. */
    ghost predicate Shape()
      reads this
    {
      Linked(cell, at) && min == At(at, 0) && nelts == |at|
    }

    ghost predicate Valid()
      reads this
    {
      Shape() && StrictWeak(less) && Ordered(less, at)
    }

    /** heap_init */
    constructor (order: (Ref, Ref) -> bool)
      requires StrictWeak(order)
      ensures Valid() && at == [] && less == order
    {
      cell, min, nelts, less, at := map[], NULL, 0, order, [];
    }

    /** heap_min: no node goes before it. */
    method Min() returns (r: Ref)
      requires Valid()
      ensures r == NULL <==> at == []
      ensures at != [] ==> r == at[0] && forall n :: n in at ==> !less(n, r)
    {
      r := min;
      forall n | n in at ensures !less(n, at[0]) {
        var i :| 0 <= i < |at| && at[i] == n;
        RootLeast(less, at, i);
      }
    }

    /** The node in a slot. */
    function Load(slot: Slot): Ref
      requires !slot.MinSlot? ==> slot.n in cell
      reads this`cell, this`min
    {
      match slot case MinSlot => min case LeftOf(n) => cell[n].left case RightOf(n) => cell[n].right
    }

    /** heap_node_swap */
    method Swap(parent: Ref, child: Ref, ghost i: nat, ghost j: nat)
      requires Shape() && 0 < j < |at| && i == Up(j) && parent == at[i] && child == at[j]
      modifies this`cell, this`min, this`at
      ensures Shape() && at == Swapped(old(at), i, j)
    {
      ghost var s := at;
      SwapLinked(cell, at, i, j);
      LinkAt(cell, at, i);
      var up := cell[parent].parent;
      cell := SwapCells(cell, parent, child);
      at := Swapped(s, i, j);
      if up == NULL { min := child; }
    }

    /** The way down to the node number m, counted from 1: the low bit says where to turn first. */
    method Path(m: nat) returns (path: nat, k: nat)
      requires m >= 1
      ensures Unroll(path, k, 1) == m
    {
      hide *;
      path, k := 0, 0;
      var n := m;
      UnrollEnd(0, 0, m);
      while n >= 2
        invariant n >= 1 && Unroll(path, k, n) == m
      {
        UnrollBack(path, k, n);
        path, k, n := 2 * path + n % 2, k + 1, n / 2;
      }
    }

    /** The walk from the root to the node number m, counted from 1; it may be the next free place. */
    method Walk(m: nat) returns (parent: Slot, child: Slot)
      requires Shape() && 1 <= m <= |at| + 1
      ensures Reached(at, m, parent, child)
    {
      var path, k := Path(m);
      parent, child := MinSlot, MinSlot;
      ghost var idx: nat := 1;
      hide *;
      FirstReached(at);
      while k > 0
        invariant idx >= 1 && Unroll(path, k, idx) == m && Reached(at, idx, parent, child)
      {
        UnrollStep(path, k, idx);
        ReachedStep(idx, parent, child, path % 2);
        parent := child;
        var node := Load(child);
        child := if path % 2 == 1 then RightOf(node) else LeftOf(node);
        idx := 2 * idx + path % 2;
        path, k := path / 2, k - 1;
      }
      UnrollEnd(path, k, idx);
    }

    lemma ReachedStep(idx: nat, parent: Slot, child: Slot, bit: nat)
      requires Shape() && idx >= 1 && 2 * idx <= |at| + 1 && Reached(at, idx, parent, child) && bit < 2
      ensures (!child.MinSlot? ==> child.n in cell) && Load(child) == at[idx - 1]
          && Reached(at, 2 * idx + bit, child, if bit == 1 then RightOf(Load(child)) else LeftOf(Load(child)))
    {
      LinkAt(cell, at, idx - 1);
    }

    /** heap_insert */
    method Insert(newnode: Ref)
      requires Valid() && newnode != NULL && newnode !in at
      modifies this`cell, this`min, this`nelts, this`at
      ensures Valid() && |at| == |old(at)| + 1 && forall n :: n in at <==> n in old(at) || n == newnode
    {
      ghost var s := at;
      var parent, child := Walk(1 + nelts);
      AppendLinked(cell, s, newnode);
      if |s| > 0 { LinkAt(cell, s, Up(|s|)); }
      var up := if nelts == 0 then NULL else Load(parent);
      cell := cell[newnode := Cell(NULL, NULL, up)];
      cell := Stored(cell, child, newnode);
      if child.MinSlot? { min := newnode; }
      nelts := nelts + 1;
      at := s + [newnode];
      ghost var i: nat := |s|;
      forall j: nat ensures (j != i ==> OrderAt(less, at, j)) && SkipAt(less, at, i, j) { assert OrderAt(less, s, j); }
      SiftUp(newnode, i);
    }

    /** The node trades places with its parent as long as it goes before it. */
    method SiftUp(node: Ref, ghost start: nat)
      requires Shape() && StrictWeak(less) && NearlyUp(less, at, start) && at[start] == node
      modifies this`cell, this`min, this`at
      ensures Valid() && nelts == old(nelts) && forall n :: n in at <==> n in old(at)
    {
      ghost var i := start;
      LinkAt(cell, at, i);
      while cell[node].parent != NULL && less(node, cell[node].parent)
        invariant Shape() && NearlyUp(less, at, i) && at[i] == node && node in cell
        invariant cell[node].parent == (if i == 0 then NULL else at[Up(i)])
        invariant forall n :: n in at <==> n in old(at)
        decreases i
      {
        UpStep(less, at, i);
        SwapMembers(at, Up(i), i);
        Swap(cell[node].parent, node, Up(i), i);
        i := Up(i);
        LinkAt(cell, at, i);
      }
      UpEnd(less, at, i);
    }

    /** The replacement trades places with the smaller of its children as long as one goes before it. */
    method SiftDown(child: Ref, ghost start: nat) returns (ghost i: nat)
      requires Shape() && StrictWeak(less) && Nearly(less, at, start) && at[start] == child
      modifies this`cell, this`min, this`at
      ensures Shape() && NearlyUp(less, at, i) && at[i] == child && nelts == old(nelts) && forall n ::
          n in at <==> n in old(at)
    {
      i := start;
      LinkAt(cell, at, i);
      while true
        invariant Shape() && Nearly(less, at, i) && at[i] == child && child in cell
        invariant cell[child].left == At(at, 2 * i + 1) && cell[child].right == At(at, 2 * i + 2)
        invariant forall n :: n in at <==> n in old(at)
        decreases |at| - i
      {
        var smallest := child;
        if cell[child].left != NULL && less(cell[child].left, smallest) { smallest := cell[child].left; }
        if cell[child].right != NULL && less(cell[child].right, smallest) { smallest := cell[child].right; }
        ghost var l, r := At(at, 2 * i + 1), At(at, 2 * i + 2);
        SmallestOk(less, at, i, child, smallest);
        if smallest == child { break; }
        ghost var j := if smallest == l then 2 * i + 1 else 2 * i + 2;
        DownStep(less, at, i, j);
        SwapMembers(at, i, j);
        Swap(child, smallest, i, j);
        i := j;
        LinkAt(cell, at, i);
      }
      DownEnd(less, at, i);
    }

    /** The part of heap_remove that unlinks the last node. */
    method TakeLast() returns (child: Ref)
      requires Shape() && nelts > 0
      modifies this`cell, this`min, this`nelts, this`at
      ensures Shape() && old(at) == at + [child]
    {
      ghost var s := at;
      var _, max := Walk(nelts);
      DropLinked(cell, s);
      LinkAt(cell, s, |s| - 1);
      child := Load(max);
      cell := Stored(cell, max, NULL);
      if max.MinSlot? { min := NULL; }
      nelts := nelts - 1;
      at := s[..|s| - 1];
      assert s == at + [child];
    }

    /** The part of heap_remove that puts child into the place of node. */
    method Replace(node: Ref, child: Ref, ghost r: nat)
      requires Shape() && r < |at| && at[r] == node && child != NULL && child !in at
      modifies this`cell, this`min, this`at
      ensures Shape() && at == old(at)[r := child]
    {
      ReplaceLinked(cell, at, r, child);
      LinkAt(cell, at, r);
      if cell[node].parent == NULL { min := child; }
      cell := ReplaceCells(cell, node, child);
      at := at[r := child];
    }

    /** heap_remove, for any node of the heap. */
    method Remove(node: Ref)
      requires Valid() && (nelts > 0 ==> node in at)
      modifies this`cell, this`min, this`nelts, this`at
      ensures Valid() && (old(nelts) > 0 ==> nelts == old(nelts) - 1) && forall n ::
          n in at <==> n in old(at) && n != node
    {
      if nelts == 0 { return; }
      ghost var s := at;
      var child := TakeLast();
      ghost var t := at;
      LastMembers(s, t, child);
      if child == node {
        forall j: nat ensures OrderAt(less, t, j) { assert OrderAt(less, s, j); }
        return;
      }
      ghost var r :| 0 <= r < |t| && t[r] == node;
      ReplaceNearly(less, s, r, child);
      assert s[..|s| - 1] == t;
      Replace(node, child, r);  // the last node goes to the place of the removed one
      ReplaceMembers(s, t, r, child, node);
      hide Linked, Nearly, NearlyUp, Ordered, StrictWeak;
      r := SiftDown(child, r);
      SiftUp(child, r);
    }

    /** heap_dequeue */
    method Dequeue() returns (r: Ref)
      requires Valid()
      modifies this`cell, this`min, this`nelts, this`at
      ensures Valid() && (r == NULL <==> old(at) == [])
      ensures r != NULL ==>
          r in old(at) && |at| < |old(at)| && (forall n :: n in at <==> n in old(at) && n != r) && forall n ::
            n in old(at) ==> !less(n, r)
    {
      r := Min();
      if r != NULL { LinkAt(cell, at, 0); }
      Remove(r);
    }
  }

  /** The choice in the loop of heap_remove: no child goes before the smallest. */
  lemma SmallestOk(less: (Ref, Ref) -> bool, s: seq<Ref>, i: nat, child: Ref, smallest: Ref)
    requires StrictWeak(less) && i < |s| && s[i] == child && NULL !in s && Distinct(s)
    requires var l, r := At(s, 2 * i + 1), At(s, 2 * i + 2); var a := if l != NULL && less(l, child) then l else child;
        smallest == if r != NULL && less(r, a) then r else a
    ensures forall o: nat :: 0 < o < |s| && Up(o) == i ==> !less(s[o], smallest)
    ensures smallest != child ==> less(smallest, child) && var j := if smallest == At(s, 2 * i + 1) then 2 * i + 1
        else 2 * i + 2; j < |s| && s[j] == smallest && Up(j) == i
  {
    var l, r := At(s, 2 * i + 1), At(s, 2 * i + 2);
    NegTrans(less, l, r, child);
    NegTrans(less, r, l, child);
    NegTrans(less, l, l, l);
    NegTrans(less, r, r, r);
    forall o: nat | 0 < o < |s| && Up(o) == i ensures !less(s[o], smallest) { assert s[o] == l || s[o] == r; }
  }

  lemma LastMembers(s: seq<Ref>, t: seq<Ref>, y: Ref)
    requires s == t + [y] && Distinct(s)
    ensures y !in t && y != NULL && forall n :: n in t <==> n in s && n != y
  {
    assert s[|t|] == y;
    forall k | 0 <= k < |t| ensures t[k] != y { assert s[k] == t[k] && s[k] != s[|t|]; }
  }

  lemma ReplaceMembers(s: seq<Ref>, t: seq<Ref>, r: nat, y: Ref, x: Ref)
    requires s == t + [y] && Distinct(s) && r < |t| && t[r] == x
    ensures forall n :: n in t[r := y] <==> n in s && n != x
  {
    var u := t[r := y];
    forall n ensures n in u <==> n in s && n != x {
      if n in u {
        var k :| 0 <= k < |u| && u[k] == n;
        assert s[if k == r then |t| else k] == n && (k != r ==> s[k] != s[r]) && s[r] != s[|t|];
      }
      if n in s && n != x { var k :| 0 <= k < |s| && s[k] == n; assert u[if k == |t| then r else k] == n; }
    }
  }

  /** Draining a heap gives its nodes in order. */
  method Drain(h: MinHeap) returns (out: seq<Ref>)
    requires h.Valid()
    modifies h
    ensures h.at == [] && (forall n :: n in out <==> n in old(h.at))
    ensures forall i, j :: 0 <= i < j < |out| ==> out[i] != out[j] && !h.less(out[j], out[i])
  {
    out := [];
    while h.nelts > 0
      invariant h.Valid() && (forall n :: n in out || n in h.at <==> n in old(h.at))
          && (forall i, j :: 0 <= i < j < |out| ==> out[i] != out[j] && !h.less(out[j], out[i]))
      invariant forall i, n :: 0 <= i < |out| && n in h.at ==> n != out[i] && !h.less(n, out[i])
      decreases |h.at|
    {
      var r := h.Dequeue();
      out := out + [r];
    }
  }

  lemma SwapMembers(s: seq<Ref>, i: nat, j: nat)
    requires i < |s| && j < |s|
    ensures forall n :: n in Swapped(s, i, j) <==> n in s
  {
    var t := Swapped(s, i, j);
    forall n ensures n in t <==> n in s {
      if n in t { var k :| 0 <= k < |t| && t[k] == n; assert s[if k == i then j else if k == j then i else k] == n; }
      if n in s { var k :| 0 <= k < |s| && s[k] == n; assert t[if k == i then j else if k == j then i else k] == n; }
    }
  }

  /** The slots of node number idx, counted from 1, and of its parent. */
  ghost predicate Reached(s: seq<Ref>, idx: nat, parent: Slot, child: Slot) {
    if idx <= 1 then parent == child == MinSlot else
      var i := idx - 1;
          Up(i) < |s| && child == SlotOf(s, i) && (Up(i) == 0 || Up(Up(i)) < |s|) && parent == SlotOf(s, Up(i))
  }

  lemma FirstReached(s: seq<Ref>)
    ensures Reached(s, 1, MinSlot, MinSlot)
  {
  }

  lemma UnrollStep(path: nat, k: nat, idx: nat)
    requires k > 0
    ensures Unroll(path, k, idx) == Unroll(path / 2, k - 1, 2 * idx + path % 2) >= 2 * idx && path % 2 < 2
  {
    UnrollGrows(path, k, idx);
  }

  lemma UnrollBack(path: nat, k: nat, n: nat)
    ensures Unroll(2 * path + n % 2, k + 1, n / 2) == Unroll(path, k, n)
  {
    assert (2 * path + n % 2) / 2 == path && (2 * path + n % 2) % 2 == n % 2 && 2 * (n / 2) + n % 2 == n;
  }

  lemma UnrollEnd(path: nat, k: nat, idx: nat)
    requires k == 0
    ensures Unroll(path, k, idx) == idx
  {
  }
}
