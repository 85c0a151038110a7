/** Pointer-based binary heaps (heap-inl.h), seen as arrays: the node at index i has its children at 2i+1 and 2i+2. */
module HeapLinks {

  type Ref = int

  const NULL: Ref := 0

  datatype Cell = Cell(left: Ref, right: Ref, parent: Ref)

  /** The node at an index; there is none past the end. */
  function At(s: seq<Ref>, i: nat): Ref { if i < |s| then s[i] else NULL }

  function Up(i: nat): nat
    requires i > 0
  {
    (i - 1) / 2
  }

  ghost predicate LinkOk(cell: map<Ref, Cell>, s: seq<Ref>, i: nat) {
    i < |s| ==> s[i] in cell && cell[s[i]] == Cell(At(s, 2 * i + 1), At(s, 2 * i + 2), if i == 0 then NULL
        else s[Up(i)])
  }

  ghost predicate Distinct(s: seq<Ref>) {
    NULL !in s && forall i, j {:trigger s[i], s[j]} :: 0 <= i < j < |s| ==> s[i] != s[j]
  }

  /** The links form the complete tree of s. */
  ghost predicate Linked(cell: map<Ref, Cell>, s: seq<Ref>) {
    Distinct(s) && forall i: nat {:trigger LinkOk(cell, s, i)} :: LinkOk(cell, s, i)
  }

  lemma LinkAt(cell: map<Ref, Cell>, s: seq<Ref>, i: nat)
    requires Linked(cell, s) && i < |s|
    ensures s[i] != NULL && s[i] in cell && cell[s[i]] == Cell(At(s, 2 * i + 1), At(s, 2 * i + 2), if i == 0 then NULL
        else s[Up(i)])
    ensures i > 0 ==> s[Up(i)] in cell && (if i == 2 * Up(i) + 1 then cell[s[Up(i)]].left == s[i]
        && cell[s[Up(i)]].right != s[i] else cell[s[Up(i)]].right == s[i] && cell[s[Up(i)]].left != s[i])
  {
    assert LinkOk(cell, s, i);
    if i > 0 { assert LinkOk(cell, s, Up(i)); }
  }

  // ---- heap_node_swap

  ghost function Swapped(s: seq<Ref>, i: nat, j: nat): seq<Ref>
    requires i < |s| && j < |s|
  {
    s[i := s[j]][j := s[i]]
  }

  /** The assignments of heap_node_swap, for a parent p and its child c. */
  function SwapCells(cell: map<Ref, Cell>, p: Ref, c: Ref): map<Ref, Cell>
    requires p in cell && c in cell && p != c
    requires cell[p].left == c || cell[p].right == c
    requires forall x ::
        x in {cell[p].left, cell[p].right, cell[c].left, cell[c].right, cell[p].parent} ==> x == NULL || x in cell
  {
    var c1 := cell[p := cell[c]][c := cell[p]];
    var c2 := c1[p := c1[p].(parent := c)];
    var left := c2[c].left == c;
    var sibling := if left then c2[c].right else c2[c].left;
    var c3 := if left then c2[c := c2[c].(left := p)] else c2[c := c2[c].(right := p)];
    var c4 := if sibling != NULL then c3[sibling := c3[sibling].(parent := c)] else c3;
    var c5 := if c4[p].left != NULL then c4[c4[p].left := c4[c4[p].left].(parent := p)] else c4;
    var c6 := if c5[p].right != NULL then c5[c5[p].right := c5[c5[p].right].(parent := p)] else c5;
    var up := c6[c].parent;
    if up == NULL then c6
    else if c6[up].left == p then c6[up := c6[up].(left := c)] else c6[up := c6[up].(right := c)]
  }

  /** The nodes around a parent at index i and its child at index j. */
  lemma Around(cell: map<Ref, Cell>, s: seq<Ref>, i: nat, j: nat)
    requires Linked(cell, s) && j < |s| && j > 0 && i == Up(j)
    ensures i < j && s[i] != s[j] && s[i] in cell && s[j] in cell
        && (cell[s[i]].left == s[j] || cell[s[i]].right == s[j])
    ensures forall x ::
        x in {cell[s[i]].left, cell[s[i]].right, cell[s[j]].left, cell[s[j]].right, cell[s[i]].parent} ==>
          x == NULL || x in cell
  {
    LinkAt(cell, s, i);
    LinkAt(cell, s, j);
    forall k | k in {2 * i + 1, 2 * i + 2, 2 * j + 1, 2 * j + 2} ensures At(s, k) == NULL || At(s, k) in cell {
      if k < |s| { LinkAt(cell, s, k); }
    }
  }

  lemma SwapLinked(cell: map<Ref, Cell>, s: seq<Ref>, i: nat, j: nat)
    requires Linked(cell, s) && j < |s| && j > 0 && i == Up(j)
    ensures i < j && s[i] != s[j] && s[i] in cell && s[j] in cell
        && (cell[s[i]].left == s[j] || cell[s[i]].right == s[j])
    ensures forall x ::
        x in {cell[s[i]].left, cell[s[i]].right, cell[s[j]].left, cell[s[j]].right, cell[s[i]].parent} ==>
          x == NULL || x in cell
    ensures Linked(SwapCells(cell, s[i], s[j]), Swapped(s, i, j))
  {
    Around(cell, s, i, j);
    var d, t := SwapCells(cell, s[i], s[j]), Swapped(s, i, j);
    forall k: nat ensures LinkOk(d, t, k) { SwapLink(cell, s, i, j, k); }
    assert NULL !in t by {
      assert forall k :: 0 <= k < |t| ==> t[k] == s[if k == i then j else if k == j then i else k];
    }
    forall a, b {:trigger t[a], t[b]} | 0 <= a < b < |t| ensures t[a] != t[b] {
      assert t[a] == s[if a == i then j else if a == j then i else a]
          && t[b] == s[if b == i then j else if b == j then i else b];
    }
  }

  /** What the swap does to every node. */
  lemma SwapIs(cell: map<Ref, Cell>, s: seq<Ref>, i: nat, j: nat, k: nat)
    requires Linked(cell, s) && j < |s| && j > 0 && i == Up(j) && i < j && s[i] != s[j] && s[i] in cell && s[j] in cell
        && (cell[s[i]].left == s[j] || cell[s[i]].right == s[j])
    requires forall x ::
        x in {cell[s[i]].left, cell[s[i]].right, cell[s[j]].left, cell[s[j]].right, cell[s[i]].parent} ==>
          x == NULL || x in cell
    requires k < |s|
    ensures s[k] in cell && s[k] in SwapCells(cell, s[i], s[j])
    ensures SwapCells(cell, s[i], s[j])[s[k]] ==
      (if k == i then cell[s[j]].(parent := s[j])
       else if k == j then (if j == 2 * i + 1 then cell[s[i]].(left := s[i]) else cell[s[i]].(right := s[i]))
       else if k == 2 * i + 1 || k == 2 * i + 2 then cell[s[k]].(parent := s[j])
       else if k == 2 * j + 1 || k == 2 * j + 2 then cell[s[k]].(parent := s[i])
       else if i > 0 && k == Up(i) then (if i == 2 * k + 1 then cell[s[k]].(left := s[j])
           else cell[s[k]].(right := s[j]))
       else cell[s[k]])
  {
    LinkAt(cell, s, i);
    LinkAt(cell, s, j);
    LinkAt(cell, s, k);
    hide Linked;
    SwapDistinct(cell, s, i, j, k);
  }

  lemma SwapDistinct(cell: map<Ref, Cell>, s: seq<Ref>, i: nat, j: nat, k: nat)
    requires Linked(cell, s) && j < |s| && j > 0 && i == Up(j) && i < j && k < |s|
    ensures forall o {:trigger At(s, o)} :: 0 <= o < |s| && o != k ==> At(s, o) != s[k]
    ensures forall o {:trigger At(s, o)} ::
        0 <= o < |s| ==> At(s, o) != NULL && (o != i ==> At(s, o) != s[i]) && (o != j ==> At(s, o) != s[j])
    ensures At(s, i) == s[i] && At(s, j) == s[j] && At(s, k) == s[k] && (i > 0 ==> At(s, Up(i)) == s[Up(i)])
    ensures 2 * i + 1 < |s| && 2 * i + 2 < |s| ==> At(s, 2 * i + 1) != At(s, 2 * i + 2)
    ensures 2 * j + 1 < |s| && 2 * j + 2 < |s| ==> At(s, 2 * j + 1) != At(s, 2 * j + 2)
  {
  }

  lemma SwapLink(cell: map<Ref, Cell>, s: seq<Ref>, i: nat, j: nat, k: nat)
    requires Linked(cell, s) && j < |s| && j > 0 && i == Up(j) && i < j && s[i] != s[j] && s[i] in cell && s[j] in cell
        && (cell[s[i]].left == s[j] || cell[s[i]].right == s[j])
    requires forall x ::
        x in {cell[s[i]].left, cell[s[i]].right, cell[s[j]].left, cell[s[j]].right, cell[s[i]].parent} ==>
          x == NULL || x in cell
    ensures LinkOk(SwapCells(cell, s[i], s[j]), Swapped(s, i, j), k)
  {
    hide *;
    AtSwapped(s, i, j, k);
    if k < |s| {
      var o := if k == i then j else if k == j then i else k;
      SwapIs(cell, s, i, j, o);
      LinkAt(cell, s, i);
      LinkAt(cell, s, j);
      LinkAt(cell, s, k);
      Indices(i, j, k);
      AtSwapped(s, i, j, 2 * k + 1);
      AtSwapped(s, i, j, 2 * k + 2);
      if k > 0 { AtSwapped(s, i, j, Up(k)); }
      AtIs(s, i);
      AtIs(s, j);
      LinkFold(SwapCells(cell, s[i], s[j]), Swapped(s, i, j), k);
    } else {
      LinkNone(SwapCells(cell, s[i], s[j]), Swapped(s, i, j), k);
    }
  }

  lemma AtIs(s: seq<Ref>, i: nat)
    ensures At(s, i) == if i < |s| then s[i] else NULL
  {
  }

  lemma AtSwapped(s: seq<Ref>, i: nat, j: nat, k: nat)
    requires i < |s| && j < |s|
    ensures |Swapped(s, i, j)| == |s| && At(Swapped(s, i, j), k) == (if k == j then s[i] else if k == i then s[j]
        else At(s, k)) && (k < |s| ==> Swapped(s, i, j)[k] == At(Swapped(s, i, j), k) && At(s, k) == s[k])
  {
  }

  lemma Indices(i: nat, j: nat, k: nat)
    requires j > 0 && i == Up(j)
    ensures (k > 0 ==> Up(k) >= 0 && (k == 2 * Up(k) + 1 || k == 2 * Up(k) + 2)) && (j == 2 * i + 1 || j == 2 * i + 2)
        && (i > 0 ==> i == 2 * Up(i) + 1 || i == 2 * Up(i) + 2)
  {
  }

  lemma LinkFold(cell: map<Ref, Cell>, s: seq<Ref>, i: nat)
    requires i < |s| && s[i] in cell && cell[s[i]] == Cell(At(s, 2 * i + 1), At(s, 2 * i + 2), if i == 0 then NULL
        else s[Up(i)])
    ensures LinkOk(cell, s, i)
  {
  }

  lemma LinkNone(cell: map<Ref, Cell>, s: seq<Ref>, i: nat)
    requires i >= |s|
    ensures LinkOk(cell, s, i)
  {
  }

  // ---- Slots: the links through which a node is reached

  datatype Slot = MinSlot | LeftOf(n: Ref) | RightOf(n: Ref)

  /** The slot of index i. */
  ghost function SlotOf(s: seq<Ref>, i: nat): Slot
    requires i == 0 || Up(i) < |s|
  {
    if i == 0 then MinSlot else if i == 2 * Up(i) + 1 then LeftOf(s[Up(i)]) else RightOf(s[Up(i)])
  }

  /** Follows the k lowest bits of path from index idx, both counted from 1. */
  ghost function Unroll(path: nat, k: nat, idx: nat): nat
    decreases k
  {
    if k == 0 then idx else Unroll(path / 2, k - 1, 2 * idx + path % 2)
  }

  lemma {:induction false} UnrollGrows(path: nat, k: nat, idx: nat)
    ensures Unroll(path, k, idx) >= if k == 0 then idx else 2 * idx
    decreases k
  {
    if k > 0 { UnrollGrows(path / 2, k - 1, 2 * idx + path % 2); }
  }

  /** Storing a node in a slot. */
  function Stored(cell: map<Ref, Cell>, slot: Slot, x: Ref): map<Ref, Cell>
    requires !slot.MinSlot? ==> slot.n in cell
  {
    match slot
    case MinSlot => cell
    case LeftOf(n) => cell[n := cell[n].(left := x)]
    case RightOf(n) => cell[n := cell[n].(right := x)]
  }

  /** A new last node. */
  lemma AppendLinked(cell: map<Ref, Cell>, s: seq<Ref>, x: Ref)
    requires Linked(cell, s) && x != NULL && x !in s
    ensures (|s| > 0 ==> Up(|s|) < |s|) && var up := if |s| == 0 then NULL else s[Up(|s|)];
        var c := cell[x := Cell(NULL, NULL, up)]; var slot := SlotOf(s, |s|);
      (!slot.MinSlot? ==> slot.n in c) && Linked(Stored(c, slot, x), s + [x])
  {
    if |s| > 0 { LinkAt(cell, s, Up(|s|)); }
    var up := if |s| == 0 then NULL else s[Up(|s|)];
    var t := s + [x];
    var d := Stored(cell[x := Cell(NULL, NULL, up)], SlotOf(s, |s|), x);
    forall i: nat ensures LinkOk(d, t, i) {
      if i < |s| {
        LinkAt(cell, s, i);
        hide Linked;
        assert t[i] == s[i] && t[i] != x;
      } else if i == |s| {
        hide Linked;
        assert t[i] == x;
      }
    }
  }

  /** The last node goes. */
  lemma DropLinked(cell: map<Ref, Cell>, s: seq<Ref>)
    requires Linked(cell, s) && |s| > 0
    ensures var n := |s| - 1; (n > 0 ==> Up(n) < |s|) && var slot := SlotOf(s, n);
        (!slot.MinSlot? ==> slot.n in cell) && Linked(Stored(cell, slot, NULL), s[..n])
  {
    var n := |s| - 1;
    if n > 0 { LinkAt(cell, s, Up(n)); }
    var t, d := s[..n], Stored(cell, SlotOf(s, n), NULL);
    forall i: nat ensures LinkOk(d, t, i) { if i < n { LinkAt(cell, s, i); hide Linked; } }
  }

  /** A node outside the tree takes the place of x. */
  function ReplaceCells(cell: map<Ref, Cell>, x: Ref, y: Ref): map<Ref, Cell>
    requires x in cell && (cell[x].left == NULL || cell[x].left in cell)
        && (cell[x].right == NULL || cell[x].right in cell) && (cell[x].parent == NULL || cell[x].parent in cell)
  {
    var c1 := cell[y := cell[x]];
    var c2 := if c1[y].left != NULL then c1[c1[y].left := c1[c1[y].left].(parent := y)] else c1;
    var c3 := if c2[y].right != NULL then c2[c2[y].right := c2[c2[y].right].(parent := y)] else c2;
    var up := cell[x].parent;
    if up == NULL then c3 else if c3[up].left == x then c3[up := c3[up].(left := y)] else c3[up := c3[up].(right := y)]
  }

  lemma ReplaceLinked(cell: map<Ref, Cell>, s: seq<Ref>, r: nat, y: Ref)
    requires Linked(cell, s) && r < |s| && y != NULL && y !in s
    ensures var x := s[r];
        x in cell && (cell[x].left == NULL || cell[x].left in cell) && (cell[x].right == NULL || cell[x].right in cell)
        && (cell[x].parent == NULL || cell[x].parent in cell)
    ensures Linked(ReplaceCells(cell, s[r], y), s[r := y])
  {
    LinkAt(cell, s, r);
    if 2 * r + 1 < |s| { LinkAt(cell, s, 2 * r + 1); }
    if 2 * r + 2 < |s| { LinkAt(cell, s, 2 * r + 2); }
    var t, d := s[r := y], ReplaceCells(cell, s[r], y);
    forall i: nat ensures LinkOk(d, t, i) { if i < |s| { ReplaceLink(cell, s, r, y, i); } }
    assert Distinct(t);
  }

  lemma ReplaceLink(cell: map<Ref, Cell>, s: seq<Ref>, r: nat, y: Ref, i: nat)
    requires Linked(cell, s) && r < |s| && y != NULL && y !in s && i < |s|
    requires var x := s[r];
        x in cell && (cell[x].left == NULL || cell[x].left in cell) && (cell[x].right == NULL || cell[x].right in cell)
        && (cell[x].parent == NULL || cell[x].parent in cell)
    ensures LinkOk(ReplaceCells(cell, s[r], y), s[r := y], i)
  {
    LinkAt(cell, s, r);
    LinkAt(cell, s, i);
    assert y !in s && s[i] in s;
  }
}
