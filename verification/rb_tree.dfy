/** Red-black trees with parent pointers (tree.h). Mirror-image branches share one text, with a side as parameter. */
module RbTree {
  import opened Powers
  import opened RbShape
  import opened RbEdit
  import opened RbRemove
  import opened RbColor
  import opened RbCases

  /** The number of nodes outside the subtree of n. */
  ghost function Outside(t: Tree, g: Marks, n: Ref): nat {
    if Known(t, g, n) then |set m | m in t.cell && m in t.key && !Contains(g.span[n], t.key[m])| else 0
  }

  /** The number of nodes in the subtree of n. */
  ghost function Inside(t: Tree, g: Marks, n: Ref): nat {
    if Known(t, g, n) then |set m | m in t.cell && m in t.key && Contains(g.span[n], t.key[m])| else 0
  }

  lemma Fewer<A>(a: set<A>, b: set<A>)
    requires a < b
    ensures |a| < |b|
  {
    var x :| x in b && x !in a;
    assert |b| == |b - {x}| + 1;
    Within(a, b - {x});
  }

  lemma {:induction false} Within<A>(a: set<A>, b: set<A>)
    requires a <= b
    ensures |a| <= |b|
  {
    assert b == a + (b - a);
  }

  lemma GoUp(t: Tree, g: Marks, n: Ref)
    requires Shape(t, g) && n in t.cell && t.cell[n].parent != NULL
    ensures t.cell[n].parent in t.cell && Outside(t, g, t.cell[n].parent) < Outside(t, g, n)
  {
    var p := t.cell[n].parent;
    ParentSide(t, g, n);
    ParentSpans(t, g, n, p);
    SpanOf(t, g, n);
    SpanOf(t, g, p);
    var s := if t.cell[p].left == n then L else R;
    KidSpan(t, g, p, s);
    hide Shape;
    var a, b := set m | m in t.cell && m in t.key && !Contains(g.span[p], t.key[m]), set m | m in t.cell && m in t.key
        && !Contains(g.span[n], t.key[m]);
    assert p in b && p !in a;
    Fewer(a, b);
  }

  lemma GoDown(t: Tree, g: Marks, n: Ref, s: Side)
    requires Shape(t, g) && n in t.cell && Kid(t.cell[n], s) != NULL
    ensures Inside(t, g, Kid(t.cell[n], s)) < Inside(t, g, n)
  {
    var k := Kid(t.cell[n], s);
    KidSpan(t, g, n, s);
    SpanOf(t, g, n);
    hide Shape;
    var a, b := set m | m in t.cell && m in t.key && Contains(g.span[k], t.key[m]), set m | m in t.cell && m in t.key
        && Contains(g.span[n], t.key[m]);
    assert n in b && n !in a;
    Fewer(a, b);
  }

  /** Around a red node with a red parent. */
  lemma AroundRed(t: Tree, g: Marks, h: map<Ref, int>, elm: Ref)
    requires Shape(t, g) && Balanced(t, h, HotAt(elm)) && elm in t.cell && t.cell[elm].red
        && (Red(t, t.root) ==> t.root == elm) && Red(t, t.cell[elm].parent)
    ensures t.cell[elm].parent in t.cell
    ensures var p := t.cell[elm].parent; var q := t.cell[p].parent;
      && q in t.cell && q != NULL && !t.cell[q].red
      && (t.cell[p].left == elm || t.cell[p].right == elm) && (t.cell[q].left == p || t.cell[q].right == p)
        && t.cell[q].left != t.cell[q].right && t.cell[p].left != t.cell[p].right
      && (t.cell[q].left != NULL ==> t.cell[q].left in t.cell && t.cell[q].left in h)
        && (t.cell[q].right != NULL ==> t.cell[q].right in t.cell && t.cell[q].right in h)
      && p in h && q in h && p != q && elm != p && elm != q && elm != NULL && t.root != p && t.root != elm
        && !Red(t, t.root)
  {
    var p := t.cell[elm].parent;
    ParentSide(t, g, elm);
    SpanOf(t, g, elm);
    RootOnly(t, g, elm);
    RootOnly(t, g, p);
    ParentSide(t, g, p);
    var q := t.cell[p].parent;
    ReplaceReady(t, g, p);
    ReplaceReady(t, g, q);
    BalAt(t, h, HotAt(elm), p);
    BalAt(t, h, HotAt(elm), q);
    if t.cell[q].left != NULL { KidSpan(t, g, q, L); BalAt(t, h, HotAt(elm), t.cell[q].left); }
    if t.cell[q].right != NULL { KidSpan(t, g, q, R); BalAt(t, h, HotAt(elm), t.cell[q].right); }
    hide Shape, Balanced, NodeOk;
  }

  /** After the rotation of the parent x in an insertion: elm and its parent have changed places. */
  lemma AfterInner(t: Tree, g: Marks, x: Ref, q: Ref, s: Side)
    requires Shape(t, g) && x in t.cell && Kid(t.cell[x], Opp(s)) in t.cell && Kid(t.cell[x], Opp(s)) != NULL
        && t.cell[x].parent == q && q != NULL && q in t.cell && Kid(t.cell[q], s) == x
    ensures CanRotate(t, x, s) && var u, y := Rotated(t, x, s), Kid(t.cell[x], Opp(s));
      && u.cell.Keys == t.cell.Keys && u.key == t.key && u.root == t.root && q in u.cell
        && u.cell[q].red == t.cell[q].red && Kid(u.cell[q], s) == y && Kid(u.cell[q], Opp(s)) == Kid(t.cell[q], Opp(s))
      && y in u.cell && u.cell[y].red == t.cell[y].red && Kid(u.cell[y], s) == x && x in u.cell
        && u.cell[x].red == t.cell[x].red && u.cell[y].parent == q
      && (forall n {:trigger u.cell[n].red} :: n in t.cell ==> u.cell[n].red == t.cell[n].red)
        && Red(u, u.root) == Red(t, t.root)
  {
    RotateIs(t, g, x, s);
    SpanOf(t, g, x);
    ReplaceReady(t, g, q);
    hide Shape, Rotated;
    var u, y := Rotated(t, x, s), Kid(t.cell[x], Opp(s));
    forall n | n in t.cell ensures u.cell[n].red == t.cell[n].red {
      if n != x && n != y && n != Kid(t.cell[y], s) && n != q { assert u.cell[n] == t.cell[n]; }
    }
  }

  /** What a rotation does to colours, and to the root. */
  lemma RotateColors(t: Tree, g: Marks, x: Ref, s: Side)
    requires Shape(t, g) && x in t.cell && Kid(t.cell[x], Opp(s)) != NULL
    ensures CanRotate(t, x, s) && var u, y := Rotated(t, x, s), Kid(t.cell[x], Opp(s));
      && u.cell.Keys == t.cell.Keys && u.key == t.key && y in t.cell && x in t.cell
        && (forall n {:trigger u.cell[n].red} :: n in t.cell ==> u.cell[n].red == t.cell[n].red)
      && u.root == (if t.cell[x].parent == NULL then y else t.root) && (t.cell[x].parent == NULL <==> x == t.root)
      && u.cell[x].parent == y && Kid(u.cell[x], s) == Kid(t.cell[x], s) && Kid(u.cell[x], Opp(s)) == Kid(t.cell[y], s)
        && Kid(u.cell[y], s) == x && Kid(u.cell[y], Opp(s)) == Kid(t.cell[y], Opp(s))
      && u.cell[y].parent == t.cell[x].parent && x != y && x != NULL
  {
    RotateIs(t, g, x, s);
    RootOnly(t, g, x);
    SpanOf(t, g, x);
    hide Shape, Rotated;
    var u, y := Rotated(t, x, s), Kid(t.cell[x], Opp(s));
    forall n | n in t.cell ensures u.cell[n].red == t.cell[n].red {
      if n != x && n != y && n != Kid(t.cell[y], s) && n != t.cell[x].parent { assert u.cell[n] == t.cell[n]; }
    }
  }

  class RBTree {
    var cell: map<Ref, Cell>
    var root: Ref
    var key: map<Ref, int>
    ghost var g: Marks
    ghost var h: map<Ref, int>

    /** Search order, parent links, no red node below a red one, equal black heights. */
    ghost predicate Valid()
      reads this
    {
      Shape(Tree(cell, root, key), g) && Balanced(Tree(cell, root, key), h, NONE) && !Red(Tree(cell, root, key), root)
    }

    /** RB_INIT */
    constructor ()
      ensures Valid() && cell == map[]
    {
      cell, root, key := map[], NULL, map[];
      g, h := Marks(map[], Span(0, 1)), map[];
      new;
      assert forall n :: NodeOk(Tree(cell, root, key), g, n) && Bal(Tree(cell, root, key), h, NONE, n);
      assert forall n, m :: PairOk(Tree(cell, root, key), g, n, m);
    }

    /** RB_ROTATE_LEFT and RB_ROTATE_RIGHT */
    method Rotate(elm: Ref, s: Side)
      requires Shape(Tree(cell, root, key), g) && elm in cell && Kid(cell[elm], Opp(s)) != NULL
      modifies this`cell, this`root, this`g
      ensures old(CanRotate(Tree(cell, root, key), elm, s))
          && Tree(cell, root, key) == old(Rotated(Tree(cell, root, key), elm, s)) && Shape(Tree(cell, root, key), g)
    {
      RotateShape(Tree(cell, root, key), g, elm, s);
      RotateIs(Tree(cell, root, key), g, elm, s);
      ghost var t := Tree(cell, root, key);
      var tmp := Kid(cell[elm], Opp(s));
      var mid := Kid(cell[tmp], s);
      g := RotatedMarks(t, g, elm, s);
      hide Shape;
      cell := cell[elm := WithKid(cell[elm], Opp(s), mid)];
      if mid != NULL { cell := cell[mid := cell[mid].(parent := elm)]; }
      var parent := cell[elm].parent;
      cell := cell[tmp := cell[tmp].(parent := parent)];
      if parent != NULL {
        if cell[parent].left == elm {
          cell := cell[parent := cell[parent].(left := tmp)];
        } else {
          cell := cell[parent := cell[parent].(right := tmp)];
        }
      } else {
        root := tmp;
      }
      cell := cell[tmp := WithKid(cell[tmp], s, elm)];
      cell := cell[elm := cell[elm].(parent := tmp)];
    }

    /** The last step of RB_INSERT_COLOR: elm is the outer child of its red parent, and the uncle is black. */
    method LiftParent(gparent: Ref, s: Side, parent: Ref, elm: Ref)
      requires Shape(Tree(cell, root, key), g) && Balanced(Tree(cell, root, key), h, HotAt(elm))
          && !Red(Tree(cell, root, key), root)
      requires gparent in cell && !cell[gparent].red && Kid(cell[gparent], s) == parent && parent in cell
          && parent != NULL && cell[parent].red
      requires Kid(cell[parent], s) == elm && elm in cell && elm != NULL && cell[elm].red
      requires var o := Kid(cell[gparent], Opp(s)); o == NULL || (o in cell && !cell[o].red)
      modifies this`cell, this`root, this`g, this`h
      ensures Shape(Tree(cell, root, key), g) && Balanced(Tree(cell, root, key), h, HotAt(elm))
          && !Red(Tree(cell, root, key), root)
      ensures cell.Keys == old(cell.Keys) && elm in cell && cell[elm].red && cell[elm].parent == parent
          && parent in cell && !cell[parent].red
    {
      hide *;
      OuterReady(Tree(cell, root, key), g, h, gparent, s, parent, elm);
      Sides(cell[gparent], s);
      cell := cell[parent := cell[parent].(red := false)];
      cell := cell[gparent := cell[gparent].(red := true)];
      ghost var v := Tree(cell, root, key);
      h := h[parent := h[parent] + 1][gparent := h[parent]];
      Rotate(gparent, Opp(s));
      OuterDone(v, g, gparent, Opp(s), parent, elm, Tree(cell, root, key), h);
    }

    /** RB_INSERT_COLOR */
    method InsertColor(e: Ref)
      requires Shape(Tree(cell, root, key), g) && e in cell && cell[e].red
          && Balanced(Tree(cell, root, key), h, HotAt(e)) && (Red(Tree(cell, root, key), root) ==> root == e)
      modifies this`cell, this`root, this`g, this`h
      ensures Valid() && cell.Keys == old(cell.Keys)
    {
      hide *;
      var elm := e;
      CellRed(Tree(cell, root, key), g, elm);
      while cell[elm].parent != NULL && cell[cell[elm].parent].red
        invariant Shape(Tree(cell, root, key), g) && elm in cell && cell[elm].red
            && Balanced(Tree(cell, root, key), h, HotAt(elm)) && (Red(Tree(cell, root, key), root) ==> root == elm)
        invariant cell.Keys == old(cell.Keys) && key == old(key)
            && (cell[elm].parent != NULL ==> cell[elm].parent in cell)
        decreases if cell[elm].parent != NULL && cell[cell[elm].parent].red then
            1 + Outside(Tree(cell, root, key), g, elm) else 0
      {
        var parent := cell[elm].parent;
        RedAt(Tree(cell, root, key), parent);
        AroundRed(Tree(cell, root, key), g, h, elm);
        var gparent := cell[parent].parent;
        var s := if parent == cell[gparent].left then L else R;
        Sides(cell[gparent], s);
        Sides(cell[parent], s);
        var tmp := Kid(cell[gparent], Opp(s));
        if tmp != NULL && cell[tmp].red {
          ghost var t := Tree(cell, root, key);
          RedAt(t, tmp);
          CaseUncle(t, g, h, gparent, elm);
          cell := cell[tmp := cell[tmp].(red := false)];
          cell := cell[parent := cell[parent].(red := false)];
          cell := cell[gparent := cell[gparent].(red := true)];
          UnclePainted(t, g, gparent, tmp, parent);
          SameOutside(t, Tree(cell, root, key), g, gparent);
          h := h[t.cell[gparent].left := h[t.cell[gparent].left] + 1][t.cell[gparent].right
              := h[t.cell[gparent].right] + 1];
          GoUp(t, g, elm);
          GoUp(t, g, parent);
          elm := gparent;
          CellRed(Tree(cell, root, key), g, elm);
          continue;
        }
        if Kid(cell[parent], Opp(s)) == elm {
          ghost var t := Tree(cell, root, key);
          RedAt(t, elm);
          CaseInner(t, g, h, parent, s);
          AfterInner(t, g, parent, gparent, s);
          Rotate(parent, s);
          parent, elm := elm, parent;
          Sides(cell[gparent], s);
          Sides(cell[parent], s);
        }
        LiftParent(gparent, s, parent, elm);
      }
      RedAt(Tree(cell, root, key), cell[elm].parent);
      FinishInsert(Tree(cell, root, key), g, h, elm);
      PaintRoot(Tree(cell, root, key), g);
      h := if cell[root].red then h[root := h[root] + 1] else h;
      cell := cell[root := cell[root].(red := false)];
      ValidFold();
    }

    /** RB_INSERT: x enters the tree, unless a node with its key is there. */
    method Insert(x: Ref, k: int) returns (r: Ref)
      requires Valid() && x != NULL && x !in cell
      modifies this
      ensures Valid()
      ensures r != NULL ==> r in cell && r in key && key[r] == k && cell == old(cell) && root == old(root)
      ensures r == NULL ==>
          (forall n :: n in old(cell) ==> n in old(key) && old(key)[n] != k) && cell.Keys == old(cell.Keys) + {x}
      ensures key == old(key)[x := k]
    {
      hide *;
      ValidParts();
      ghost var t := Tree(cell, root, key);
      key := key[x := k];
      NewKey(t, g, h, x, k);
      WidenShape(Tree(cell, root, key), g, k);
      g := Widened(g, k);
      t := Tree(cell, root, key);
      var tmp, parent, s := root, NULL, L;
      StartDown(t, g, k);
      while tmp != NULL
        invariant Down(t, g, parent, s, tmp, k)
        modifies {}
        decreases if tmp != NULL then 1 + Inside(t, g, tmp) else 0
      {
        DownAt(t, g, parent, s, tmp, k);
        parent := tmp;
        if k < key[parent] {
          DownStep(t, g, parent, L, k);
          tmp := cell[tmp].left;
          s := L;
        } else if k > key[parent] {
          DownStep(t, g, parent, R, k);
          tmp := cell[tmp].right;
          s := R;
        } else {
          ValidFold();
          return tmp;
        }
      }
      DownEnd(t, g, h, parent, s, k, x);
      cell := cell[x := Cell(NULL, NULL, parent, true)];
      if parent != NULL { cell := cell[parent := WithKid(cell[parent], s, x)]; } else { root := x; }
      g := AttachedMarks(t, g, parent, s, x);
      h := h[x := 1];
      InsertColor(x);
      return NULL;
    }

    /** RB_REMOVE_COLOR: a red sibling gives way to a black one. */
    method BlackSibling(parent: Ref, s: Side) returns (tmp: Ref)
      requires Shape(Tree(cell, root, key), g) && Balanced(Tree(cell, root, key), h, LackAt(parent, s))
          && !Red(Tree(cell, root, key), root)
      requires parent in cell && !Red(Tree(cell, root, key), Kid(cell[parent], s))
      modifies this`cell, this`root, this`g, this`h
      ensures Shape(Tree(cell, root, key), g) && Balanced(Tree(cell, root, key), h, LackAt(parent, s))
          && !Red(Tree(cell, root, key), root)
      ensures cell.Keys == old(cell.Keys) && parent in cell
          && (cell[parent].red || (cell == old(cell) && root == old(root) && g == old(g)))
      ensures tmp == Kid(cell[parent], Opp(s)) && tmp != NULL && tmp in cell && !cell[tmp].red
      ensures (cell[tmp].left != NULL ==> cell[tmp].left in cell)
          && (cell[tmp].right != NULL ==> cell[tmp].right in cell)
    {
      hide *;
      Sibling(Tree(cell, root, key), g, h, parent, s);
      tmp := Kid(cell[parent], Opp(s));
      if cell[tmp].red {
        RedAt(Tree(cell, root, key), tmp);
        ghost var t, g0 := Tree(cell, root, key), g;
        RedSiblingReady(t, g, h, parent, s);
        cell := cell[tmp := cell[tmp].(red := false)];
        cell := cell[parent := cell[parent].(red := true)];
        ghost var v := Tree(cell, root, key);
        h := h[parent := h[parent] - 1][tmp := h[parent]];
        Rotate(parent, s);
        RedSiblingDone(t, v, g0, Tree(cell, root, key), h, parent, s);
        Sibling(Tree(cell, root, key), g, h, parent, s);
        tmp := Kid(cell[parent], Opp(s));
      }
    }

    /** RB_REMOVE_COLOR, last case: the black sibling has a red child. */
    method BorrowBlack(parent: Ref, s: Side, sibling: Ref)
      requires Shape(Tree(cell, root, key), g) && Balanced(Tree(cell, root, key), h, LackAt(parent, s))
          && !Red(Tree(cell, root, key), root)
      requires parent in cell && sibling == Kid(cell[parent], Opp(s)) && sibling != NULL && sibling in cell
          && !cell[sibling].red
      requires Red(Tree(cell, root, key), cell[sibling].left) || Red(Tree(cell, root, key), cell[sibling].right)
      modifies this`cell, this`root, this`g, this`h
      ensures Shape(Tree(cell, root, key), g) && Balanced(Tree(cell, root, key), h, NONE)
          && !Red(Tree(cell, root, key), root) && cell.Keys == old(cell.Keys)
    {
      hide *;
      var tmp := sibling;
      BorrowReady(Tree(cell, root, key), g, h, parent, s, tmp);
      if Kid(cell[tmp], Opp(s)) == NULL || !cell[Kid(cell[tmp], Opp(s))].red {
        InnerRedReady(Tree(cell, root, key), g, h, parent, s, tmp);
        var inner := Kid(cell[tmp], s);
        if inner != NULL { cell := cell[inner := cell[inner].(red := false)]; }
        cell := cell[tmp := cell[tmp].(red := true)];
        ghost var v := Tree(cell, root, key);
        h := h[tmp := h[tmp] - 1][inner := h[tmp]];
        ghost var g0 := g;
        Rotate(tmp, Opp(s));
        InnerRedDone(v, g0, Tree(cell, root, key), parent, s, tmp, inner);
        tmp := Kid(cell[parent], Opp(s));
      }
      RedAt(Tree(cell, root, key), Kid(cell[tmp], Opp(s)));
      OuterRedReady(Tree(cell, root, key), g, h, parent, s, tmp);
      var outer := Kid(cell[tmp], Opp(s));
      h := h[tmp := h[parent]][parent := h[outer] + 1][outer := h[outer] + 1];
      ghost var t := Tree(cell, root, key);
      cell := cell[tmp := cell[tmp].(red := cell[parent].red)];
      cell := cell[parent := cell[parent].(red := false)];
      if outer != NULL { cell := cell[outer := cell[outer].(red := false)]; }
      ghost var v, g1 := Tree(cell, root, key), g;
      Rotate(parent, s);
      OuterRedDone(t, v, g1, g, Tree(cell, root, key), h, parent, s, tmp);
    }

    /** RB_REMOVE_COLOR: the sibling and its children are black. */
    method PaintSibling(parent: Ref, s: Side, tmp: Ref) returns (ghost side: Side)
      requires Shape(Tree(cell, root, key), g) && Balanced(Tree(cell, root, key), h, LackAt(parent, s))
          && !Red(Tree(cell, root, key), root)
      requires parent in cell && tmp == Kid(cell[parent], Opp(s)) && tmp != NULL && tmp in cell && !cell[tmp].red
      requires !Red(Tree(cell, root, key), cell[tmp].left) && !Red(Tree(cell, root, key), cell[tmp].right)
      modifies this`cell, this`h
      ensures cell.Keys == old(cell.Keys) && cell[parent] == old(cell)[parent] && Shape(Tree(cell, root, key), g)
      ensures Balanced(Tree(cell, root, key), h, Excuse(cell[parent].parent, side, parent, parent))
          && Place(Tree(cell, root, key), cell[parent].parent, side, parent)
      ensures parent != root ==>
          Outside(Tree(cell, root, key), g, cell[parent].parent) < old(Outside(Tree(cell, root, key), g, parent))
    {
      hide *;
      ghost var t := Tree(cell, root, key);
      side := UpSide(t, g, parent);
      RecolorReady(t, g, h, parent, s, side);
      cell := cell[tmp := cell[tmp].(red := true)];
      h := h[tmp := h[tmp] - 1][parent := h[parent] - 1];
      SameOutside(t, Tree(cell, root, key), g, cell[parent].parent);
    }

    /** RB_REMOVE_COLOR: the subtree of e, which may be empty, is one black node short. */
    method RemoveColor(p: Ref, e: Ref, ghost side0: Side)
      requires Shape(Tree(cell, root, key), g) && Balanced(Tree(cell, root, key), h, Excuse(p, side0, e, e))
          && Place(Tree(cell, root, key), p, side0, e)
      modifies this`cell, this`root, this`g, this`h
      ensures Valid() && cell.Keys == old(cell.Keys)
    {
      hide *;
      var parent, elm := p, e;
      ghost var side := side0;
      PlaceParts(Tree(cell, root, key), g, parent, side, elm);
      while (elm == NULL || !cell[elm].red) && elm != root
        invariant Shape(Tree(cell, root, key), g) && Balanced(Tree(cell, root, key), h, Excuse(parent, side, elm, elm))
            && Place(Tree(cell, root, key), parent, side, elm)
        invariant cell.Keys == old(cell.Keys) && key == old(key) && (elm != NULL ==> elm in cell)
        decreases if (elm == NULL || !cell[elm].red) && elm != root then 1 + Outside(Tree(cell, root, key), g, parent)
            else 0
      {
        RemoveStep(Tree(cell, root, key), g, h, parent, side, elm);
        var s := if cell[parent].left == elm then L else R;
        var tmp := BlackSibling(parent, s);
        RedAt(Tree(cell, root, key), cell[tmp].left);
        RedAt(Tree(cell, root, key), cell[tmp].right);
        if (cell[tmp].left == NULL || !cell[cell[tmp].left].red)
            && (cell[tmp].right == NULL || !cell[cell[tmp].right].red) {
          side := PaintSibling(parent, s, tmp);
          elm := parent;
          parent := cell[elm].parent;
        } else {
          BorrowBlack(parent, s, tmp);
          elm := root;
          parent, side := NULL, L;
          Repaired(Tree(cell, root, key), g, h);
          break;
        }
      }
      if elm != NULL {
        RedAt(Tree(cell, root, key), elm);
        FinishRemove(Tree(cell, root, key), g, h, parent, side, elm);
        FinishShape(Tree(cell, root, key), g, elm);
        h := if cell[elm].red then h[elm := h[elm] + 1] else h;
        cell := cell[elm := cell[elm].(red := false)];
      } else {
        EmptyTree(Tree(cell, root, key), g, h, parent, side);
      }
      ValidFold();
    }

    /** RB_REMOVE of a node of the tree. */
    method Remove(x: Ref)
      requires Valid() && x in cell
      modifies this
      ensures Valid() && cell.Keys == old(cell.Keys) - {x} && key == old(key)
    {
      hide *;
      ValidParts();
      CellRed(Tree(cell, root, key), g, x);
      var elm, child, parent := x, NULL, NULL;
      var red: bool;
      ghost var s, side := L, L;
      if cell[elm].left == NULL {
        child := cell[elm].right;
      } else if cell[elm].right == NULL {
        child, s := cell[elm].left, R;
      } else {
        elm := cell[elm].right;
        StartMin(Tree(cell, root, key), g, x);
        var left := cell[elm].left;
        while left != NULL
          invariant elm in cell && left == cell[elm].left && FirstAfter(Tree(cell, root, key), g, x, elm)
          modifies {}
          decreases Inside(Tree(cell, root, key), g, elm)
        {
          StepMin(Tree(cell, root, key), g, x, elm);
          elm := left;
          left := cell[elm].left;
        }
        child := cell[elm].right;
        parent := cell[elm].parent;
        red := cell[elm].red;
        side := UpSide(Tree(cell, root, key), g, elm);
        Sides(cell[elm], L);
        EndMin(Tree(cell, root, key), g, x, elm);
        Unlink(elm, child, L, side);
        TakePlace(x, elm, parent, side, child, red);
        if parent == x { parent := elm; }
        if !red { RemoveColor(parent, child, side); } else { ValidFold(); }
        return;
      }
      parent := cell[elm].parent;
      red := cell[elm].red;
      side := UpSide(Tree(cell, root, key), g, elm);
      Sides(cell[elm], s);
      Unlink(elm, child, s, side);
      if !red { RemoveColor(parent, child, side); } else { ValidFold(); }
    }

    /** The part of RB_REMOVE that puts elm, already unlinked, in the place of x. */
    method TakePlace(x: Ref, elm: Ref, parent: Ref, ghost side: Side, child: Ref, red: bool)
      requires Shape(Tree(cell, root, key), g) && x in cell && x in key && elm !in cell && elm in key && elm != NULL
          && Follows(Tree(cell, root, key), g, key[x], key[elm])
      requires child != x && child != elm && (child == NULL || child in cell) && parent != elm && cell[x].left != NULL
      requires
          if red then Balanced(Tree(cell, root, key), h, NONE) && !Red(Tree(cell, root, key), root)
          else
            Balanced(Tree(cell, root, key), h, Excuse(parent, side, child, child))
            && Place(Tree(cell, root, key), parent, side, child)
      modifies this`cell, this`root, this`g, this`h
      ensures Shape(Tree(cell, root, key), g) && cell.Keys == old(cell.Keys) - {x} + {elm}
      ensures if red then Balanced(Tree(cell, root, key), h, NONE) && !Red(Tree(cell, root, key), root)
              else var p := if parent == x then elm else parent;
                Balanced(Tree(cell, root, key), h, Excuse(p, side, child, child))
                    && Place(Tree(cell, root, key), p, side, child)
    {
      hide *;
      ghost var u, i := Tree(cell, root, key), h;
      TakeReady(u, g, h, x, elm, parent, side, child, red);
      g := ReplacedMarks(u, g, x, elm);
      h := (h - {x})[elm := h[x]];
      cell := cell[elm := cell[x]];
      var up, left, right := cell[x].parent, cell[x].left, cell[x].right;
      if up != NULL {
        if cell[up].left == x {
          cell := cell[up := cell[up].(left := elm)];
        } else {
          cell := cell[up := cell[up].(right := elm)];
        }
      } else {
        root := elm;
      }
      cell := cell[left := cell[left].(parent := elm)];
      if right != NULL { cell := cell[right := cell[right].(parent := elm)]; }
      cell := cell - {x};
    }

    /** The part of RB_REMOVE that gives the place of elm to its only child. */
    method Unlink(elm: Ref, child: Ref, ghost s: Side, ghost side: Side)
      requires Shape(Tree(cell, root, key), g) && Balanced(Tree(cell, root, key), h, NONE)
          && !Red(Tree(cell, root, key), root)
      requires elm in cell && Kid(cell[elm], s) == NULL && Kid(cell[elm], Opp(s)) == child
          && side == UpSide(Tree(cell, root, key), g, elm)
      modifies this`cell, this`root, this`g, this`h
      ensures old(CanSplice(Tree(cell, root, key), elm, s))
          && Tree(cell, root, key) == old(Spliced(Tree(cell, root, key), elm, s)) && Shape(Tree(cell, root, key), g)
      ensures old(elm in key && elm in g.span) && g == old(SplicedMarks(Tree(cell, root, key), g, elm, s))
          && h == old(h) - {elm} && cell.Keys == old(cell.Keys) - {elm}
      ensures
          if old(cell[elm]).red then Balanced(Tree(cell, root, key), h, NONE) && !Red(Tree(cell, root, key), root)
          else
            Balanced(Tree(cell, root, key), h, Excuse(old(cell[elm]).parent, side, child, child))
            && Place(Tree(cell, root, key), old(cell[elm]).parent, side, child)
    {
      hide *;
      ghost var t := Tree(cell, root, key);
      UnlinkReady(t, g, h, elm, s, side);
      g := SplicedMarks(t, g, elm, s);
      h := h - {elm};
      var parent := cell[elm].parent;
      if child != NULL { cell := cell[child := cell[child].(parent := parent)]; }
      if parent != NULL {
        if cell[parent].left == elm {
          cell := cell[parent := cell[parent].(left := child)];
        } else {
          cell := cell[parent := cell[parent].(right := child)];
        }
      } else {
        root := child;
      }
      cell := cell - {elm};
    }

    /** RB_NEXT: the node with the next greater key. */
    method Next(x: Ref) returns (r: Ref)
      requires Valid() && x in cell
      ensures forall n :: n in cell ==> n in key
      ensures r == NULL ==> forall n :: n in cell ==> key[n] <= key[x]
      ensures r != NULL ==>
          r in cell && key[x] < key[r] && forall n :: n in cell ==> key[n] <= key[x] || key[r] <= key[n]
    {
      hide *;
      ValidParts();
      ghost var t := Tree(cell, root, key);
      CellRed(t, g, x);
      r := x;
      if cell[r].right != NULL {
        r := cell[r].right;
        StartMin(t, g, x);
        while cell[r].left != NULL
          invariant r in cell && FirstAfter(t, g, x, r)
          decreases Inside(t, g, r)
        {
          StepMin(t, g, x, r);
          r := cell[r].left;
        }
        NextDown(t, g, x, r);
      } else {
        StartUp(t, g, x);
        if cell[r].parent != NULL && r == cell[cell[r].parent].left {
          r := cell[r].parent;
        } else {
          while cell[r].parent != NULL && r == cell[cell[r].parent].right
            invariant r in cell && LastBefore(t, g, x, r) && (cell[r].parent != NULL ==> cell[r].parent in cell)
            decreases Outside(t, g, r)
          {
            StepUp(t, g, x, r);
            r := cell[r].parent;
          }
          NextUp(t, g, x, r);
          r := cell[r].parent;
        }
      }
    }

    /** RB_MIN */
    method Min() returns (r: Ref)
      requires Valid()
      ensures r == NULL <==> cell == map[]
      ensures r != NULL ==> r in cell && r in key && forall n :: n in cell ==> n in key && key[r] <= key[n]
    {
      hide *;
      ValidParts();
      ghost var t := Tree(cell, root, key);
      var tmp := root;
      r := NULL;
      StartSearch(t, g);
      EmptyRoot(t, g);
      while tmp != NULL
        invariant (tmp != NULL ==> tmp in cell) && (r != NULL ==> r in cell && r in key && Under(t, g, tmp, key[r]))
            && (r == NULL ==> tmp == root)
        invariant forall n :: n in cell ==> n in key && ((r != NULL && key[r] <= key[n]) || Below(t, g, tmp, n))
        decreases if tmp != NULL then 1 + Inside(t, g, tmp) else 0
      {
        SearchStep(t, g, tmp);
        MinStep(t, g, tmp, r);
        r := tmp;
        tmp := cell[tmp].left;
      }
      NoneBelow(t, g);
    }

    /** RB_FOREACH: every node once, in the order of the keys. */
    method Foreach() returns (s: seq<Ref>)
      requires Valid()
      ensures Ascending(s, key) && forall n :: n in s <==> n in cell
    {
      s := [];
      var x := Min();
      while x != NULL
        invariant Ascending(s, key) && forall n :: n in s ==> n in cell
        invariant x != NULL ==>
            x in cell && x in key && (forall n :: n in s ==> n in key && key[n] < key[x]) && forall n ::
              n in cell ==> n in key && (n in s || key[x] <= key[n])
        invariant x == NULL ==> forall n :: n in cell ==> n in s
        decreases if x != NULL then 1 + |Rest(cell, key, x)| else 0
      {
        var y := Next(x);
        OneKey(Tree(cell, root, key), g);
        hide *;
        if y != NULL { FewerLeft(cell, key, x, y); }
        AscendMore(s, key, x, s + [x]);
        s := s + [x];
        x := y;
      }
    }

    /** No path from the root is longer than twice the logarithm of the number of nodes plus one. */
    lemma HeightBound(n: Ref)
      requires Valid() && n in cell
      ensures Pow2(Depth(Tree(cell, root, key), g, n)) <= (|cell| + 1) * (|cell| + 1)
    {
      DepthBound(Tree(cell, root, key), g, h, n);
    }

    lemma ValidParts()
      requires Valid()
      ensures Shape(Tree(cell, root, key), g) && Balanced(Tree(cell, root, key), h, NONE)
          && !Red(Tree(cell, root, key), root)
    {
    }

    /** RB_FIND */
    method Find(k: int) returns (r: Ref)
      requires Valid()
      ensures r != NULL ==> r in cell && r in key && key[r] == k
      ensures r == NULL ==> forall n :: n in cell ==> n in key && key[n] != k
    {
      hide *;
      ValidParts();
      ghost var t := Tree(cell, root, key);
      r := root;
      StartSearch(t, g);
      while r != NULL
        invariant r != NULL ==> r in cell
        invariant forall n :: n in cell ==> n in key && (key[n] == k ==> Below(t, g, r, n))
        decreases if r != NULL then 1 + Inside(t, g, r) else 0
      {
        SearchStep(t, g, r);
        if k < key[r] { r := cell[r].left; } else if k > key[r] { r := cell[r].right; } else { return; }
      }
      NoneBelow(t, g);
    }

    /** RB_NFIND: the node with the least key that is not below k. */
    method NFind(k: int) returns (r: Ref)
      requires Valid()
      ensures r != NULL ==> r in cell && r in key && key[r] >= k
      ensures forall n :: n in cell ==> n in key && (key[n] >= k ==> r != NULL && key[r] <= key[n])
    {
      hide *;
      ValidParts();
      ghost var t := Tree(cell, root, key);
      var tmp := root;
      r := NULL;
      StartSearch(t, g);
      while tmp != NULL
        invariant (tmp != NULL ==>
            tmp in cell) && (r != NULL ==> r in cell && r in key && key[r] > k && Under(t, g, tmp, key[r]))
        invariant forall n ::
            n in cell ==> n in key && (key[n] >= k ==> (r != NULL && key[r] <= key[n]) || Below(t, g, tmp, n))
        decreases if tmp != NULL then 1 + Inside(t, g, tmp) else 0
      {
        SearchStep(t, g, tmp);
        NFindStep(t, g, tmp, r, k);
        if k < key[tmp] {
          r := tmp;
          tmp := cell[tmp].left;
        } else if k > key[tmp] {
          tmp := cell[tmp].right;
        } else {
          return tmp;
        }
      }
      NoneBelow(t, g);
    }

    lemma ValidFold()
      requires Shape(Tree(cell, root, key), g) && Balanced(Tree(cell, root, key), h, NONE)
          && !Red(Tree(cell, root, key), root)
      ensures Valid()
    {
    }
  }

  lemma PaintRoot(t: Tree, g: Marks)
    requires Shape(t, g) && t.root in t.cell
    ensures Shape(Painted(t, t.root, false), g) && !Red(Painted(t, t.root, false), t.root)
        && Painted(t, t.root, false) == t.(cell := t.cell[t.root := t.cell[t.root].(red := false)])
  {
    PaintShape(t, g, t.root, false);
  }

  lemma SameOutside(t: Tree, u: Tree, g: Marks, n: Ref)
    requires u.cell.Keys == t.cell.Keys && u.key == t.key
    ensures Outside(u, g, n) == Outside(t, g, n) && Inside(u, g, n) == Inside(t, g, n)
  {
    if Known(t, g, n) {
      assert (set m | m in t.cell && m in t.key && !Contains(g.span[n], t.key[m])) == set m | m in u.cell && m in u.key
          && !Contains(g.span[n], u.key[m]);
      assert (set m | m in t.cell && m in t.key && Contains(g.span[n], t.key[m])) == set m | m in u.cell && m in u.key
          && Contains(g.span[n], u.key[m]);
    }
  }

  lemma CellRed(t: Tree, g: Marks, n: Ref)
    requires Shape(t, g) && n in t.cell
    ensures n != NULL && (t.cell[n].parent != NULL ==> t.cell[n].parent in t.cell) && (Red(t, n) <==> t.cell[n].red)
  {
    SpanOf(t, g, n);
    if t.cell[n].parent != NULL { ParentSide(t, g, n); }
  }

  lemma RedAt(t: Tree, n: Ref)
    ensures Red(t, n) <==> n != NULL && n in t.cell && t.cell[n].red
  {
  }

  lemma Sides(c: Cell, s: Side)
    ensures Kid(c, s) == (if s.L? then c.left else c.right) && Kid(c, Opp(s)) == (if s.L? then c.right else c.left)
        && Opp(Opp(s)) == s
  {
  }

  /** The recolouring of CaseUncle, whichever child is painted first. */
  lemma UnclePainted(t: Tree, g: Marks, x: Ref, a: Ref, b: Ref)
    requires Shape(t, g) && x in t.cell && t.cell[x].left != NULL && t.cell[x].right != NULL && a != b
    requires (a == t.cell[x].left && b == t.cell[x].right) || (a == t.cell[x].right && b == t.cell[x].left)
    ensures a in t.cell && b in t.cell && x != a && x != b
    ensures var y, q := t.cell[x].left, t.cell[x].right;
      && q in t.cell && y in t.cell && y != x && q != x
      && t.(cell := t.cell[a := t.cell[a].(red := false)][b := t.cell[b].(red := false)][x := t.cell[x].(red := true)])
        == Painted(Painted(Painted(t, q, false), y, false), x, true)
      && Shape(Painted(Painted(Painted(t, q, false), y, false), x, true), g)
      && (Red(Painted(Painted(Painted(t, q, false), y, false), x, true), t.root) ==> t.root == x || Red(t, t.root))
  {
    KidSpan(t, g, x, L);
    KidSpan(t, g, x, R);
    ReplaceReady(t, g, x);
    var y, q := t.cell[x].left, t.cell[x].right;
    PaintShape(t, g, q, false);
    PaintShape(Painted(t, q, false), g, y, false);
    PaintShape(Painted(Painted(t, q, false), y, false), g, x, true);
    hide Shape, NodeOk;
    assert t.cell[a := t.cell[a].(red := false)][b := t.cell[b].(red := false)][x := t.cell[x].(red := true)]
        == Painted(Painted(Painted(t, q, false), y, false), x, true).cell;
  }

  /** The last step of an insertion, before its rotation. */
  lemma OuterReady(t: Tree, g: Marks, h: map<Ref, int>, x: Ref, s: Side, y: Ref, elm: Ref)
    requires Shape(t, g) && x in t.cell && !t.cell[x].red && Kid(t.cell[x], s) == y && y in t.cell && y != NULL
        && t.cell[y].red && Kid(t.cell[y], s) == elm
    requires elm in t.cell && elm != NULL && t.cell[elm].red && Balanced(t, h, HotAt(elm)) && !Red(t, t.root)
    requires var o := Kid(t.cell[x], Opp(s)); o == NULL || (o in t.cell && !t.cell[o].red)
    ensures x != y && x in t.key && y in h
    ensures var v := Painted(Painted(t, y, false), x, true);
      && v == t.(cell := t.cell[y := t.cell[y].(red := false)][x := t.cell[y := t.cell[y].(red := false)][x].(red
        := true)])
      && Shape(v, g) && Kid(v.cell[x], Opp(Opp(s))) == y && !v.cell[y].red && Kid(v.cell[y], s) == elm
        && v.cell[elm].red
      && (v.root == x || !Red(v, v.root)) && CanRotate(v, x, Opp(s))
        && Balanced(Rotated(v, x, Opp(s)), h[y := h[y] + 1][x := h[y]], NONE)
  {
    SpanOf(t, g, x);
    ReplaceReady(t, g, x);
    ReplaceReady(t, g, y);
    KidSpan(t, g, x, s);
    KidSpan(t, g, y, s);
    BalAt(t, h, HotAt(elm), y);
    BalIn(t, h, HotAt(elm), y);
    CaseOuter(t, g, h, x, Opp(s), elm);
    PaintShape(t, g, y, false);
    PaintShape(Painted(t, y, false), g, x, true);
    hide Shape, NodeOk, Balanced, Rotated, Bal;
  }

  lemma OuterDone(v: Tree, g: Marks, x: Ref, s: Side, y: Ref, elm: Ref, u: Tree, h: map<Ref, int>)
    requires x in v.cell && Kid(v.cell[x], Opp(s)) == y && y != NULL && y in v.cell && !v.cell[y].red
        && Kid(v.cell[y], Opp(s)) == elm && elm != NULL && elm in v.cell && v.cell[elm].red
    requires (v.root == x || !Red(v, v.root)) && CanRotate(v, x, s) && u == Rotated(v, x, s) && Shape(u, g)
        && Balanced(u, h, NONE) && exists g0 :: Shape(v, g0)
    ensures Balanced(u, h, HotAt(elm)) && elm in u.cell && u.cell[elm].red && !Red(u, u.root) && u.cell[elm].parent == y
        && y in u.cell && !u.cell[y].red && u.cell.Keys == v.cell.Keys
  {
    var g0 :| Shape(v, g0);
    RotateColors(v, g0, x, s);
    KidSpan(u, g, y, Opp(s));
    forall n ensures Bal(u, h, HotAt(elm), n) {
      BalAt(u, h, NONE, n);
      hide Shape, Balanced, Rotated;
      if n in u.cell { SpanOf(u, g, n); }
    }
    BalFold(u, h, HotAt(elm));
    hide Shape, Balanced, Rotated;
  }

  // ---- Search

  /** n lies in the subtree of r. */
  ghost predicate Below(t: Tree, g: Marks, r: Ref, n: Ref) {
    r != NULL && Known(t, g, r) && Known(t, g, n) && Contains(g.span[r], t.key[n])
  }

  lemma StartSearch(t: Tree, g: Marks)
    requires Shape(t, g)
    ensures (t.root != NULL ==> t.root in t.cell) && forall n :: n in t.cell ==> n in t.key && Below(t, g, t.root, n)
  {
    forall n | n in t.cell ensures n in t.key && Below(t, g, t.root, n) {
      SpanOf(t, g, n);
      RootIn(t, g, n);
      SpanOf(t, g, t.root);
      RootOnly(t, g, t.root);
    }
  }

  /** A node below r is r itself or below the child on its side. */
  lemma SearchStep(t: Tree, g: Marks, r: Ref)
    requires Shape(t, g) && r in t.cell && r != NULL
    ensures r in t.key && (t.cell[r].left != NULL ==> t.cell[r].left in t.cell)
        && (t.cell[r].right != NULL ==> t.cell[r].right in t.cell)
    ensures forall n ::
        Below(t, g, r, n) ==>
          n in t.key && (t.key[n] < t.key[r] ==> Below(t, g, t.cell[r].left, n))
          && (t.key[n] > t.key[r] ==> Below(t, g, t.cell[r].right, n)) && (t.key[n] == t.key[r] ==> n == r)
    ensures t.cell[r].left != NULL ==> Inside(t, g, t.cell[r].left) < Inside(t, g, r)
    ensures t.cell[r].right != NULL ==> Inside(t, g, t.cell[r].right) < Inside(t, g, r)
  {
    SpanOf(t, g, r);
    if t.cell[r].left != NULL { KidSpan(t, g, r, L); GoDown(t, g, r, L); }
    if t.cell[r].right != NULL { KidSpan(t, g, r, R); GoDown(t, g, r, R); }
    forall n | Below(t, g, r, n)
      ensures n in t.key && (t.key[n] < t.key[r] ==> Below(t, g, t.cell[r].left, n))
          && (t.key[n] > t.key[r] ==> Below(t, g, t.cell[r].right, n)) && (t.key[n] == t.key[r] ==> n == r)
    {
      SpanOf(t, g, n);
      OrderedAt(t, g, r, n);
      hide Shape;
    }
  }

  /** The subtree of tmp only has keys below b. */
  ghost predicate Under(t: Tree, g: Marks, tmp: Ref, b: int) { tmp != NULL && Known(t, g, tmp) ==> g.span[tmp].hi <= b }

  lemma NFindStep(t: Tree, g: Marks, tmp: Ref, r: Ref, k: int)
    requires Shape(t, g) && tmp in t.cell && tmp in t.key && tmp != NULL
        && (r != NULL ==> r in t.key && Under(t, g, tmp, t.key[r]))
    ensures Under(t, g, t.cell[tmp].left, t.key[tmp]) && (r != NULL ==> Under(t, g, t.cell[tmp].right, t.key[r]))
    requires forall n ::
        n in t.cell ==> n in t.key && (t.key[n] >= k ==> (r != NULL && t.key[r] <= t.key[n]) || Below(t, g, tmp, n))
    ensures k < t.key[tmp] ==> forall n ::
        n in t.cell ==> n in t.key && (t.key[n] >= k ==> t.key[tmp] <= t.key[n] || Below(t, g, t.cell[tmp].left, n))
    ensures k > t.key[tmp] ==> forall n :: n in t.cell ==>
        n in t.key && (t.key[n] >= k ==> (r != NULL && t.key[r] <= t.key[n]) || Below(t, g, t.cell[tmp].right, n))
    ensures k == t.key[tmp] ==> forall n :: n in t.cell ==> n in t.key && (t.key[n] >= k ==> t.key[tmp] <= t.key[n])
  {
    SearchStep(t, g, tmp);
    SpanOf(t, g, tmp);
    if t.cell[tmp].left != NULL { KidSpan(t, g, tmp, L); }
    if t.cell[tmp].right != NULL { KidSpan(t, g, tmp, R); }
    if k < t.key[tmp] {
      forall n | n in t.cell ensures n in t.key
          && (t.key[n] >= k ==> t.key[tmp] <= t.key[n] || Below(t, g, t.cell[tmp].left, n)) {
        hide Below;
      }
    }
  }

  lemma NoneBelow(t: Tree, g: Marks)
    ensures forall n :: !Below(t, g, NULL, n)
  {
  }

  /** The way down of an insertion. */
  ghost predicate Down(t: Tree, g: Marks, parent: Ref, s: Side, tmp: Ref, k: int) {
    && Shape(t, g)
    && (if tmp == NULL then Gap(t, g, parent, s, k) else Known(t, g, tmp) && Contains(g.span[tmp], k))
  }

  lemma StartDown(t: Tree, g: Marks, k: int)
    requires Shape(t, g) && Contains(g.all, k)
    ensures Down(t, g, NULL, L, t.root, k)
  {
    if t.root != NULL { RootOnly(t, g, t.root); SpanOf(t, g, t.root); }
  }

  lemma DownAt(t: Tree, g: Marks, parent: Ref, s: Side, tmp: Ref, k: int)
    requires Down(t, g, parent, s, tmp, k) && tmp != NULL
    ensures tmp in t.cell && tmp in t.key && Shape(t, g) && Known(t, g, tmp) && Contains(g.span[tmp], k)
  {
  }

  lemma DownStep(t: Tree, g: Marks, tmp: Ref, s: Side, k: int)
    requires Shape(t, g) && tmp in t.cell && tmp != NULL && Known(t, g, tmp) && Contains(g.span[tmp], k)
        && (if s.L? then k < t.key[tmp] else k > t.key[tmp])
    ensures var x := if s.L? then t.cell[tmp].left else t.cell[tmp].right;
        Down(t, g, tmp, s, x, k) && (x != NULL ==> Inside(t, g, x) < Inside(t, g, tmp))
  {
    if Kid(t.cell[tmp], s) != NULL { KidSpan(t, g, tmp, s); GoDown(t, g, tmp, s); }
  }

  /** The new key has no node yet, and the new node is a red leaf in the right place. */
  lemma DownEnd(t: Tree, g: Marks, h: map<Ref, int>, parent: Ref, s: Side, k: int, x: Ref)
    requires Down(t, g, parent, s, NULL, k) && Balanced(t, h, NONE) && x != NULL && x !in t.cell && x in t.key
        && t.key[x] == k && !Red(t, t.root)
    ensures forall n :: n in t.cell ==> n in t.key && t.key[n] != k
    ensures (parent != NULL ==> parent in t.cell && parent in t.key && parent in g.span && parent != x) && Shape(t, g)
        && Shape(Attached(t, parent, s, x), AttachedMarks(t, g, parent, s, x))
        && Balanced(Attached(t, parent, s, x), h[x := 1], HotAt(x))
    ensures Attached(t, parent, s, x) == var c := t.cell[x := Cell(NULL, NULL, parent, true)]; if parent != NULL then
        Tree(c[parent := WithKid(c[parent], s, x)], t.root, t.key) else Tree(c, x, t.key)
    ensures var u := Attached(t, parent, s, x);
        x in u.cell && u.cell[x].red && (Red(u, u.root) ==> u.root == x) && u.cell.Keys == t.cell.Keys + {x}
  {
    forall n | n in t.cell ensures n in t.key && t.key[n] != k {
      SpanOf(t, g, n);
      if parent != NULL { GapFree(t, g, parent, s, n); }
    }
    AttachShape(t, g, parent, s, x);
    AttachBal(t, g, h, parent, s, x);
    hide Shape, Balanced;
  }

  lemma NewKey(t: Tree, g: Marks, h: map<Ref, int>, x: Ref, k: int)
    requires Shape(t, g) && Balanced(t, h, NONE) && x !in t.cell && !Red(t, t.root)
    ensures var u := t.(key := t.key[x := k]); Shape(u, g) && Balanced(u, h, NONE) && !Red(u, u.root)
  {
    var u := t.(key := t.key[x := k]);
    forall n ensures NodeOk(u, g, n) {
      ShapeAt(t, g, n);
      forall b ensures IsKey(t, b) ==> IsKey(u, b) {
        if IsKey(t, b) { var m :| m in t.cell && m in t.key && t.key[m] == b; assert u.key[m] == b; }
      }
      hide IsKey, Shape;
    }
    forall n, m ensures PairOk(u, g, n, m) { ShapePair(t, g, n, m); hide Ordered; }
    forall n ensures Bal(u, h, NONE, n) { BalAt(t, h, NONE, n); hide Shape, Balanced; }
  }

  // ---- The cases of a removal

  lemma RedSiblingReady(t: Tree, g: Marks, h: map<Ref, int>, x: Ref, s: Side)
    requires Shape(t, g) && x in t.cell && !Red(t, Kid(t.cell[x], s)) && Red(t, Kid(t.cell[x], Opp(s)))
        && Balanced(t, h, LackAt(x, s)) && !Red(t, t.root)
    ensures var y := Kid(t.cell[x], Opp(s));
        y in t.cell && x != y && x in h && Kid(t.cell[y], s) != NULL && Kid(t.cell[y], s) in t.cell
        && !t.cell[Kid(t.cell[y], s)].red
    ensures var y := Kid(t.cell[x], Opp(s)); var v := Painted(Painted(t, y, false), x, true);
      && v == t.(cell := t.cell[y := t.cell[y].(red := false)][x := t.cell[y := t.cell[y].(red := false)][x].(red
        := true)])
      && Shape(v, g) && Kid(v.cell[x], Opp(s)) == y && y != NULL && !v.cell[y].red && (v.root == x || !Red(v, v.root))
      && CanRotate(v, x, s) && Balanced(Rotated(v, x, s), h[x := h[x] - 1][y := h[x]], LackAt(x, s))
  {
    Sibling(t, g, h, x, s);
    var y := Kid(t.cell[x], Opp(s));
    BalAt(t, h, LackAt(x, s), x);
    BalAt(t, h, LackAt(x, s), y);
    if Kid(t.cell[x], s) != NULL { KidSpan(t, g, x, s); BalAt(t, h, LackAt(x, s), Kid(t.cell[x], s)); }
    CaseRedSibling(t, g, h, x, s);
    PaintShape(t, g, y, false);
    PaintShape(Painted(t, y, false), g, x, true);
    hide Shape, NodeOk, Balanced, Rotated;
  }

  lemma RedSiblingDone(t: Tree, v: Tree, g: Marks, u: Tree, h: map<Ref, int>, x: Ref, s: Side)
    requires Shape(t, g) && x in t.cell && var y := Kid(t.cell[x], Opp(s));
        y in t.cell && y != x && y != NULL && v == Painted(Painted(t, y, false), x, true)
    requires var z := Kid(t.cell[Kid(t.cell[x], Opp(s))], s); z in t.cell && !t.cell[z].red && z != NULL
    requires (v.root == x || !Red(v, v.root)) && CanRotate(v, x, s) && u == Rotated(v, x, s)
    ensures !Red(u, u.root) && u.cell.Keys == t.cell.Keys && x in u.cell && u.cell[x].red
        && Kid(u.cell[x], s) == Kid(t.cell[x], s)
    ensures var y := Kid(u.cell[x], Opp(s)); y != NULL ==> y in u.cell && !u.cell[y].red
  {
    var y := Kid(t.cell[x], Opp(s));
    PaintShape(t, g, y, false);
    PaintShape(Painted(t, y, false), g, x, true);
    KidSpan(t, g, x, Opp(s));
    ReplaceReady(t, g, y);
    RotateColors(v, g, x, s);
    hide Shape, Rotated, NodeOk;
  }

  lemma BorrowReady(t: Tree, g: Marks, h: map<Ref, int>, x: Ref, s: Side, y: Ref)
    requires Shape(t, g) && Balanced(t, h, LackAt(x, s)) && x in t.cell && y == Kid(t.cell[x], Opp(s)) && y in t.cell
        && y != NULL
    ensures (Kid(t.cell[y], s) != NULL ==> Kid(t.cell[y], s) in t.cell && Kid(t.cell[y], s) in h)
        && (Kid(t.cell[y], Opp(s)) != NULL ==> Kid(t.cell[y], Opp(s)) in t.cell && Kid(t.cell[y], Opp(s)) in h)
    ensures forall k {:trigger Red(t, k)} :: Red(t, k) <==> k != NULL && k in t.cell && t.cell[k].red
    ensures t.cell[y].left == Kid(t.cell[y], s) || t.cell[y].left == Kid(t.cell[y], Opp(s))
    ensures t.cell[y].right == Kid(t.cell[y], s) || t.cell[y].right == Kid(t.cell[y], Opp(s))
    ensures x in h && y in h
  {
    Sibling(t, g, h, x, s);
  }

  lemma InnerRedReady(t: Tree, g: Marks, h: map<Ref, int>, p: Ref, s: Side, x: Ref)
    requires Shape(t, g) && Balanced(t, h, LackAt(p, s)) && !Red(t, t.root) && p in t.cell
        && x == Kid(t.cell[p], Opp(s)) && x in t.cell && x != NULL && !t.cell[x].red && x in h
    requires var o := Kid(t.cell[x], s); o != NULL && o in t.cell && t.cell[o].red
    requires var w := Kid(t.cell[x], Opp(s)); w == NULL || (w in t.cell && !t.cell[w].red)
    ensures var o := Kid(t.cell[x], s); x != o && x != p && var v := Painted(Painted(t, o, false), x, true);
      && v == t.(cell := t.cell[o := t.cell[o].(red := false)][x := t.cell[o := t.cell[o].(red := false)][x].(red
        := true)])
      && Shape(v, g) && Kid(v.cell[x], Opp(Opp(s))) == o && !v.cell[o].red && v.cell[x].red && p in v.cell
        && Kid(v.cell[p], Opp(s)) == x && v.root != x && !Red(v, v.root)
      && CanRotate(v, x, Opp(s)) && Balanced(Rotated(v, x, Opp(s)), h[x := h[x] - 1][o := h[x]], LackAt(p, s))
  {
    KidSpan(t, g, p, Opp(s));
    SpanOf(t, g, p);
    RootOnly(t, g, x);
    ReplaceReady(t, g, x);
    ReplaceReady(t, g, p);
    KidSpan(t, g, x, s);
    CaseInnerRed(t, g, h, p, s, x) by { if Kid(t.cell[x], Opp(s)) != NULL { KidSpan(t, g, x, Opp(s)); } }
    var o := Kid(t.cell[x], s);
    PaintShape(t, g, o, false);
    PaintShape(Painted(t, o, false), g, x, true);
    hide Shape, NodeOk, Balanced, Rotated;
  }

  lemma InnerRedDone(v: Tree, g: Marks, u: Tree, p: Ref, s: Side, x: Ref, o: Ref)
    requires Shape(v, g) && x in v.cell && o in v.cell && o != NULL && Kid(v.cell[x], Opp(Opp(s))) == o && v.cell[x].red
        && !v.cell[o].red && p in v.cell && Kid(v.cell[p], Opp(s)) == x
    requires v.root != x && !Red(v, v.root) && CanRotate(v, x, Opp(s)) && u == Rotated(v, x, Opp(s)) && x != NULL
    ensures u.cell.Keys == v.cell.Keys && p in u.cell && Kid(u.cell[p], Opp(s)) == o && o in u.cell && !u.cell[o].red
        && Kid(u.cell[o], Opp(s)) == x && x in u.cell && u.cell[x].red && !Red(u, u.root)
  {
    KidSpan(v, g, p, Opp(s));
    AfterRotate(v, g, x, p, Opp(s), Opp(s));
    hide Shape, Rotated;
  }

  /** After the rotation of a child x of q. */
  lemma AfterRotate(t: Tree, g: Marks, x: Ref, q: Ref, d: Side, s: Side)
    requires Shape(t, g) && x in t.cell && Kid(t.cell[x], Opp(s)) in t.cell && Kid(t.cell[x], Opp(s)) != NULL
        && q in t.cell && Kid(t.cell[q], d) == x && x != NULL
    ensures CanRotate(t, x, s) && var u, y := Rotated(t, x, s), Kid(t.cell[x], Opp(s));
      && u.cell.Keys == t.cell.Keys && u.root == t.root && q in u.cell && Kid(u.cell[q], d) == y && y in u.cell
        && u.cell[y].red == t.cell[y].red && Kid(u.cell[y], s) == x
      && x in u.cell && u.cell[x].red == t.cell[x].red && Red(u, u.root) == Red(t, t.root)
  {
    KidSpan(t, g, q, d);
    SpanOf(t, g, q);
    RotateIs(t, g, x, s);
    SpanOf(t, g, x);
    ReplaceReady(t, g, q);
    RotateColors(t, g, x, s);
    hide Shape, Rotated;
  }

  lemma OuterRedReady(t: Tree, g: Marks, h: map<Ref, int>, x: Ref, s: Side, y: Ref)
    requires Shape(t, g) && Balanced(t, h, LackAt(x, s)) && !Red(t, t.root) && x in t.cell
        && y == Kid(t.cell[x], Opp(s)) && y in t.cell && y != NULL && !t.cell[y].red
    requires Red(t, Kid(t.cell[y], Opp(s)))
    ensures var w := Kid(t.cell[y], Opp(s));
        w != NULL && w in t.cell && w in h && x in h && x != y && x != w && y != w && x != NULL
    ensures var w := Kid(t.cell[y], Opp(s)); var v := Painted(Painted(Painted(t, y, t.cell[x].red), x, false), w,
        false);
      && v == t.(cell := t.cell[y := t.cell[y].(red := t.cell[x].red)][x := t.cell[x].(red := false)][w
        := t.cell[w].(red := false)])
      && Shape(v, g) && Kid(v.cell[x], Opp(s)) == y && y in v.cell && v.cell[y].red == t.cell[x].red
      && CanRotate(v, x, s) && Balanced(Rotated(v, x, s), h[y := h[x]][x := h[w] + 1][w := h[w] + 1], LackAt(NULL, s))
  {
    Sibling(t, g, h, x, s);
    ReplaceReady(t, g, y);
    CaseOuterRed(t, g, h, x, s);
    var w := Kid(t.cell[y], Opp(s));
    PaintShape(t, g, y, t.cell[x].red);
    PaintShape(Painted(t, y, t.cell[x].red), g, x, false);
    PaintShape(Painted(Painted(t, y, t.cell[x].red), x, false), g, w, false);
    hide Shape, NodeOk, Balanced, Rotated;
  }

  lemma OuterRedDone(t: Tree, v: Tree, g: Marks, g2: Marks, u: Tree, h: map<Ref, int>, x: Ref, s: Side, y: Ref)
    requires x in t.cell && !Red(t, t.root) && y == Kid(t.cell[x], Opp(s)) && y in t.cell && y != NULL && x != y
        && x != NULL
    requires var w := Kid(t.cell[y], Opp(s));
        w in t.cell && w != x && v == Painted(Painted(Painted(t, y, t.cell[x].red), x, false), w, false) && w != y
    requires Shape(v, g) && Shape(u, g2) && CanRotate(v, x, s) && u == Rotated(v, x, s)
        && Balanced(u, h, LackAt(NULL, s))
    ensures !Red(u, u.root) && u.cell.Keys == t.cell.Keys && Balanced(u, h, NONE)
  {
    RotateColors(v, g, x, s);
    LackNone(u, g2, h, s);
    hide Shape, Rotated, Balanced;
  }

  lemma LackNone(t: Tree, g: Marks, h: map<Ref, int>, s: Side)
    requires Shape(t, g) && Balanced(t, h, LackAt(NULL, s))
    ensures Balanced(t, h, NONE)
  {
    forall n ensures Bal(t, h, NONE, n) {
      BalAt(t, h, LackAt(NULL, s), n);
      if n in t.cell { SpanOf(t, g, n); }
      hide Shape, Balanced;
    }
    BalFold(t, h, NONE);
  }

  lemma PlaceParts(t: Tree, g: Marks, parent: Ref, side: Side, elm: Ref)
    requires Shape(t, g) && Place(t, parent, side, elm)
    ensures elm != NULL ==> elm in t.cell
    ensures elm != t.root ==> parent != NULL && parent in t.cell && Kid(t.cell[parent], side) == elm && !Red(t, t.root)
  {
  }

  /** The side of a node below its parent. */
  ghost function UpSide(t: Tree, g: Marks, x: Ref): Side
    requires Shape(t, g) && x in t.cell
  {
    ShapeAt(t, g, x);
    if t.cell[x].parent != NULL && t.cell[t.cell[x].parent].left == x then L else R
  }

  lemma RecolorReady(t: Tree, g: Marks, h: map<Ref, int>, x: Ref, s: Side, side: Side)
    requires Shape(t, g) && x in t.cell && Balanced(t, h, LackAt(x, s)) && side == UpSide(t, g, x) && !Red(t, t.root)
    requires var y := Kid(t.cell[x], Opp(s));
        y in t.cell && y != NULL && !t.cell[y].red && !Red(t, t.cell[y].left) && !Red(t, t.cell[y].right)
    ensures var y, p := Kid(t.cell[x], Opp(s)), t.cell[x].parent;
        var u := t.(cell := t.cell[y := t.cell[y].(red := true)]);
      && y in h && x in h && x != y && Shape(u, g)
        && Balanced(u, h[y := h[y] - 1][x := h[x] - 1], Excuse(p, side, x, x)) && Place(u, p, side, x)
        && u.cell[x] == t.cell[x]
      && (p != NULL ==> Outside(t, g, p) < Outside(t, g, x)) && (p == NULL <==> x == u.root)
  {
    Sibling(t, g, h, x, s);
    RootOnly(t, g, x);
    if t.cell[x].parent != NULL { ParentSide(t, g, x); GoUp(t, g, x); }
    KidSpan(t, g, x, Opp(s));
    RootOnly(t, g, Kid(t.cell[x], Opp(s)));
    CaseRecolor(t, g, h, x, s, side);
    PaintShape(t, g, Kid(t.cell[x], Opp(s)), true);
    hide Shape, Balanced, NodeOk, Outside;
  }

  lemma Repaired(t: Tree, g: Marks, h: map<Ref, int>)
    requires Shape(t, g) && Balanced(t, h, NONE)
    ensures Balanced(t, h, Excuse(NULL, L, t.root, t.root)) && Place(t, NULL, L, t.root)
        && (t.root != NULL ==> t.root in t.cell)
  {
    forall n ensures Bal(t, h, Excuse(NULL, L, t.root, t.root), n) {
      BalAt(t, h, NONE, n);
      if n in t.cell { SpanOf(t, g, n); }
    }
    BalFold(t, h, Excuse(NULL, L, t.root, t.root));
  }

  lemma FinishShape(t: Tree, g: Marks, elm: Ref)
    requires Shape(t, g) && elm in t.cell
    ensures Shape(Painted(t, elm, false), g)
        && Painted(t, elm, false) == t.(cell := t.cell[elm := t.cell[elm].(red := false)])
  {
    PaintShape(t, g, elm, false);
  }

  lemma EmptyTree(t: Tree, g: Marks, h: map<Ref, int>, parent: Ref, side: Side)
    requires Shape(t, g) && t.root == NULL
    ensures Balanced(t, h, NONE) && !Red(t, t.root)
  {
  }

  lemma RemoveStep(t: Tree, g: Marks, h: map<Ref, int>, parent: Ref, side: Side, elm: Ref)
    requires Shape(t, g) && Place(t, parent, side, elm) && Balanced(t, h, Excuse(parent, side, elm, elm))
        && elm != t.root && (elm == NULL || (elm in t.cell && !t.cell[elm].red))
    ensures Balanced(t, h, LackAt(parent, side)) && parent in t.cell && parent != NULL && !Red(t, t.root)
        && !Red(t, Kid(t.cell[parent], side))
    ensures side == (if t.cell[parent].left == elm then L else R)
    ensures var y := Kid(t.cell[parent], Opp(side));
      y != NULL && y in t.cell && (t.cell[y].left != NULL ==> t.cell[y].left in t.cell)
          && (t.cell[y].right != NULL ==> t.cell[y].right in t.cell)
  {
    NoExcuse(t, g, h, parent, side, elm);
    Sibling(t, g, h, parent, side);
    hide Shape, Balanced;
  }

  // ---- RB_REMOVE

  /** elm is in the subtree right after x. */
  ghost predicate FirstAfter(t: Tree, g: Marks, x: Ref, elm: Ref) {
    Known(t, g, x) && Known(t, g, elm) && g.span[elm].lo == t.key[x] && g.span[elm].hi < g.all.hi + 1
  }

  lemma StartMin(t: Tree, g: Marks, x: Ref)
    requires Shape(t, g) && x in t.cell && t.cell[x].right != NULL
    ensures t.cell[x].right in t.cell && FirstAfter(t, g, x, t.cell[x].right)
  {
    KidSpan(t, g, x, R);
    SpanOf(t, g, t.cell[x].right);
  }

  lemma StepMin(t: Tree, g: Marks, x: Ref, elm: Ref)
    requires Shape(t, g) && FirstAfter(t, g, x, elm) && elm in t.cell && t.cell[elm].left != NULL
    ensures t.cell[elm].left in t.cell && FirstAfter(t, g, x, t.cell[elm].left)
        && Inside(t, g, t.cell[elm].left) < Inside(t, g, elm)
  {
    KidSpan(t, g, elm, L);
    SpanOf(t, g, t.cell[elm].left);
    GoDown(t, g, elm, L);
  }

  lemma EndMin(t: Tree, g: Marks, x: Ref, elm: Ref)
    requires Shape(t, g) && FirstAfter(t, g, x, elm) && elm in t.cell && t.cell[elm].left == NULL && x in t.cell
        && t.cell[x].left != NULL
    ensures elm != NULL && elm != x && elm in t.key && x in t.key && t.cell[elm].right != x && t.cell[elm].right != elm
        && t.cell[elm].parent != elm
    ensures CanSplice(t, elm, L) && elm in g.span && var u := Spliced(t, elm, L);
      Follows(u, SplicedMarks(t, g, elm, L), t.key[x], t.key[elm]) && x in u.cell && u.cell[x].left != NULL
          && elm !in u.cell
    ensures t.cell[elm].right != NULL ==> t.cell[elm].right in t.cell
  {
    SpanOf(t, g, x);
    SpanOf(t, g, elm);
    SpliceReady(t, g, elm, L);
    SpliceData(t, g, elm, L, x);
    if t.cell[elm].right != NULL { KidSpan(t, g, elm, R); SpanOf(t, g, t.cell[elm].right); }
    if t.cell[x].left != NULL { KidSpan(t, g, x, L); SpanOf(t, g, t.cell[x].left); }
    var u, i := Spliced(t, elm, L), SplicedMarks(t, g, elm, L);
    forall n | n in u.cell ensures n in u.key && n in i.span && Clear(u.key[n], t.key[x], t.key[elm])
        && Clear(i.span[n].lo, t.key[x], t.key[elm]) && Clear(i.span[n].hi, t.key[x], t.key[elm]) {
      GapFree(t, g, elm, L, n);
      SpliceData(t, g, elm, L, n);
      OrderedAt(t, g, elm, n);
    }
    hide Shape;
  }

  lemma UnlinkReady(t: Tree, g: Marks, h: map<Ref, int>, elm: Ref, s: Side, side: Side)
    requires Shape(t, g) && Balanced(t, h, NONE) && !Red(t, t.root) && elm in t.cell && Kid(t.cell[elm], s) == NULL
        && side == UpSide(t, g, elm)
    ensures CanSplice(t, elm, s) && elm in t.key && elm in g.span
        && Shape(Spliced(t, elm, s), SplicedMarks(t, g, elm, s))
    ensures var u, child, p := Spliced(t, elm, s), Kid(t.cell[elm], Opp(s)), t.cell[elm].parent;
      && u.cell.Keys == t.cell.Keys - {elm} && (child != NULL ==> child in t.cell && child != elm)
        && (p != NULL ==> p in t.cell && p != elm && p != child)
      && (if t.cell[elm].red then Balanced(u, h - {elm}, NONE) && !Red(u, u.root)
        else Balanced(u, h - {elm}, Excuse(p, side, child, child)) && Place(u, p, side, child))
      && u == (var c1 := if child != NULL then t.cell[child := t.cell[child].(parent := p)] else t.cell;
               var c2 := if p == NULL then c1 else if c1[p].left == elm then c1[p := c1[p].(left := child)]
                   else c1[p := c1[p].(right := child)];
               Tree(c2 - {elm}, if p == NULL then child else t.root, t.key))
  {
    SpliceReady(t, g, elm, s);
    SpliceShape(t, g, elm, s);
    SpliceBal(t, g, h, elm, s, side);
    hide Shape, Balanced, SplicedMarks;
  }

  lemma TakeReady(t: Tree, g: Marks, h: map<Ref, int>, x: Ref, y: Ref, parent: Ref, side: Side, child: Ref, red: bool)
    requires Shape(t, g) && x in t.cell && x in t.key && y !in t.cell && y in t.key && y != NULL
        && Follows(t, g, t.key[x], t.key[y])
    requires child != x && child != y && (child == NULL || child in t.cell) && parent != y && t.cell[x].left != NULL
    requires
        if red then Balanced(t, h, NONE) && !Red(t, t.root)
        else Balanced(t, h, Excuse(parent, side, child, child)) && Place(t, parent, side, child)
    ensures CanReplace(t, x) && x in g.span && x in h && Shape(Replaced(t, x, y), ReplacedMarks(t, g, x, y))
        && Replaced(t, x, y).cell.Keys == t.cell.Keys - {x} + {y}
    ensures var v, i := Replaced(t, x, y), (h - {x})[y := h[x]]; var p := if parent == x then y else parent;
      if red then Balanced(v, i, NONE) && !Red(v, v.root)
      else Balanced(v, i, Excuse(p, side, child, child)) && Place(v, p, side, child)
    ensures var p, l, r := t.cell[x].parent, t.cell[x].left, t.cell[x].right;
      && x != y && l in t.cell && (p != NULL ==> p in t.cell && p != x && p != l && p != r) && l != x
        && (r != NULL ==> r in t.cell && r != x && r != l)
      && Replaced(t, x, y) == (var c1 := t.cell[y := t.cell[x]];
               var c2 := if p == NULL then c1 else if c1[p].left == x then c1[p := c1[p].(left := y)]
                   else c1[p := c1[p].(right := y)];
               var c3 := c2[l := c2[l].(parent := y)];
               var c4 := if r != NULL then c3[r := c3[r].(parent := y)] else c3;
               Tree(c4 - {x}, if p == NULL then y else t.root, t.key))
  {
    ReplaceReady(t, g, x);
    ReplaceShape(t, g, x, y);
    var e := if red then NONE else Excuse(parent, side, child, child);
    BalAt(t, h, e, x);
    ReplaceBal(t, g, h, e, x, y);
    ReplaceCells(t, g, x, y, x);
    RootOnly(t, g, x);
    if !red { PlaceAfter(t, g, x, y, parent, side, child); } else { RootAfter(t, g, x, y); }
    hide Shape, Balanced, ReplacedMarks;
  }

  lemma RootAfter(t: Tree, g: Marks, x: Ref, y: Ref)
    requires Shape(t, g) && x in t.cell && y !in t.cell && y in t.key && y != NULL && !Red(t, t.root)
    ensures CanReplace(t, x) && !Red(Replaced(t, x, y), Replaced(t, x, y).root)
  {
    ReplaceCells(t, g, x, y, t.root);
    RootOnly(t, g, x);
    if t.root != NULL { RootAt(t, g); }
    hide Shape;
  }

  lemma PlaceAfter(t: Tree, g: Marks, x: Ref, y: Ref, parent: Ref, side: Side, child: Ref)
    requires Shape(t, g) && x in t.cell && y !in t.cell && y in t.key && y != NULL && Place(t, parent, side, child)
        && child != x && child != y && parent != y
    ensures CanReplace(t, x) && Place(Replaced(t, x, y), if parent == x then y else parent, side, child)
  {
    ReplaceCells(t, g, x, y, t.root);
    RootOnly(t, g, x);
    if parent != NULL {
      ReplaceCells(t, g, x, y, parent);
      ReplaceReady(t, g, parent);
      if child != NULL { ReplaceCells(t, g, x, y, child); ReplaceReady(t, g, child); }
      if t.cell[x].parent != NULL { ParentSide(t, g, x); }
      RootAfter(t, g, x, y);
    }
    ReplaceReady(t, g, x);
    if t.cell[x].left != NULL { KidSpan(t, g, x, L); }
    if t.cell[x].right != NULL { KidSpan(t, g, x, R); }
    hide Shape, NodeOk, Replaced, ReplacedMarks;
  }

  // ---- RB_NEXT and RB_MIN

  lemma NextDown(t: Tree, g: Marks, x: Ref, r: Ref)
    requires Shape(t, g) && FirstAfter(t, g, x, r) && r in t.cell && t.cell[r].left == NULL && x in t.cell
    ensures r != NULL && x in t.key && r in t.key && t.key[x] < t.key[r] && forall n ::
        n in t.cell ==> n in t.key && (t.key[n] <= t.key[x] || t.key[r] <= t.key[n])
  {
    SpanOf(t, g, r);
    forall n | n in t.cell ensures n in t.key && (t.key[n] <= t.key[x] || t.key[r] <= t.key[n]) {
      SpanOf(t, g, n);
      GapFree(t, g, r, L, n);
    }
  }

  /** x is the last node in the subtree of r. */
  ghost predicate LastBefore(t: Tree, g: Marks, x: Ref, r: Ref) {
    Known(t, g, x) && Known(t, g, r) && t.key[x] < g.span[r].hi && forall n ::
        n in t.cell ==> n in t.key && !(t.key[x] < t.key[n] < g.span[r].hi)
  }

  lemma StartUp(t: Tree, g: Marks, x: Ref)
    requires Shape(t, g) && x in t.cell && t.cell[x].right == NULL
    ensures LastBefore(t, g, x, x) && (t.cell[x].parent != NULL ==> t.cell[x].parent in t.cell)
    ensures forall n :: n in t.cell ==> n in t.key
    ensures var p := t.cell[x].parent; p != NULL && t.cell[p].left == x ==>
        p in t.key && t.key[x] < t.key[p] && forall n :: n in t.cell ==> t.key[n] <= t.key[x] || t.key[p] <= t.key[n]
  {
    SpanOf(t, g, x);
    forall n | n in t.cell ensures n in t.key && !(t.key[x] < t.key[n] < g.span[x].hi) {
      SpanOf(t, g, n);
      GapFree(t, g, x, R, n);
    }
    if t.cell[x].parent != NULL {
      ParentSide(t, g, x);
      if t.cell[t.cell[x].parent].left == x { KidSpan(t, g, t.cell[x].parent, L); }
    }
  }

  lemma StepUp(t: Tree, g: Marks, x: Ref, r: Ref)
    requires Shape(t, g) && LastBefore(t, g, x, r) && r in t.cell && t.cell[r].parent != NULL
        && t.cell[r].parent in t.cell && r == t.cell[t.cell[r].parent].right
    ensures var p := t.cell[r].parent;
        LastBefore(t, g, x, p) && (t.cell[p].parent != NULL ==> t.cell[p].parent in t.cell)
        && Outside(t, g, p) < Outside(t, g, r)
  {
    var p := t.cell[r].parent;
    SpanOf(t, g, r);
    KidSpan(t, g, p, R);
    GoUp(t, g, r);
    if t.cell[p].parent != NULL { ParentSide(t, g, p); }
  }

  lemma NextUp(t: Tree, g: Marks, x: Ref, r: Ref)
    requires Shape(t, g) && LastBefore(t, g, x, r) && r in t.cell
        && (t.cell[r].parent != NULL ==> t.cell[r].parent in t.cell && r != t.cell[t.cell[r].parent].right)
    ensures x in t.key && forall n :: n in t.cell ==> n in t.key
    ensures var p := t.cell[r].parent; p == NULL ==> forall n :: n in t.cell ==> t.key[n] <= t.key[x]
    ensures var p := t.cell[r].parent; p != NULL ==>
        p in t.key && t.key[x] < t.key[p] && forall n :: n in t.cell ==> t.key[n] <= t.key[x] || t.key[p] <= t.key[n]
  {
    var p := t.cell[r].parent;
    if p == NULL {
      RootOnly(t, g, r);
      forall n | n in t.cell ensures t.key[n] <= t.key[x] { SpanOf(t, g, n); }
    } else {
      ParentSide(t, g, r);
      SpanOf(t, g, r);
      KidSpan(t, g, p, L);
    }
  }

  lemma EmptyRoot(t: Tree, g: Marks)
    requires Shape(t, g)
    ensures t.root == NULL <==> t.cell == map[]
  {
  }

  lemma MinStep(t: Tree, g: Marks, tmp: Ref, r: Ref)
    requires Shape(t, g) && tmp in t.cell && tmp in t.key && tmp != NULL
        && (r != NULL ==> r in t.key && Under(t, g, tmp, t.key[r]))
    requires forall n :: n in t.cell ==> n in t.key && ((r != NULL && t.key[r] <= t.key[n]) || Below(t, g, tmp, n))
    ensures Under(t, g, t.cell[tmp].left, t.key[tmp])
    ensures forall n :: n in t.cell ==> n in t.key && (t.key[tmp] <= t.key[n] || Below(t, g, t.cell[tmp].left, n))
  {
    SearchStep(t, g, tmp);
    SpanOf(t, g, tmp);
    if t.cell[tmp].left != NULL { KidSpan(t, g, tmp, L); }
    forall n | n in t.cell ensures n in t.key && (t.key[tmp] <= t.key[n] || Below(t, g, t.cell[tmp].left, n)) {
      hide Below;
    }
  }

  ghost predicate Ascending(s: seq<Ref>, key: map<Ref, int>) {
    forall i, j {:trigger s[i], s[j]} :: 0 <= i < j < |s| ==> s[i] in key && s[j] in key && key[s[i]] < key[s[j]]
  }

  lemma AscendMore(s: seq<Ref>, key: map<Ref, int>, x: Ref, u: seq<Ref>)
    requires Ascending(s, key) && x in key && (forall n :: n in s ==> n in key && key[n] < key[x]) && u == s + [x]
    ensures Ascending(u, key)
  {
    forall i, j {:trigger u[i], u[j]} | 0 <= i < j < |u| ensures u[i] in key && u[j] in key && key[u[i]] < key[u[j]] {
      assert u[i] == s[i] && s[i] in s;
      if j < |s| { assert u[j] == s[j]; } else { assert u[j] == x; }
    }
  }

  /** The nodes after x. */
  ghost function Rest(cell: map<Ref, Cell>, key: map<Ref, int>, x: Ref): set<Ref>
    requires x in key
  {
    set n | n in cell && n in key && key[n] > key[x]
  }

  lemma FewerLeft(cell: map<Ref, Cell>, key: map<Ref, int>, x: Ref, y: Ref)
    requires x in key && y in key && y in cell && key[x] < key[y]
    ensures |Rest(cell, key, y)| < |Rest(cell, key, x)|
  {
    assert y in Rest(cell, key, x) && y !in Rest(cell, key, y);
    Fewer(Rest(cell, key, y), Rest(cell, key, x));
  }

  lemma OneKey(t: Tree, g: Marks)
    requires Shape(t, g)
    ensures forall n, m :: n in t.cell && m in t.cell && n != m ==> n in t.key && m in t.key && t.key[n] != t.key[m]
  {
    forall n, m | n in t.cell && m in t.cell && n != m ensures n in t.key && m in t.key && t.key[n] != t.key[m] {
      SpanOf(t, g, n);
      SpanOf(t, g, m);
      OrderedAt(t, g, n, m);
    }
  }

  // ---- The height

  /** The number of nodes from the root to n. */
  ghost function Depth(t: Tree, g: Marks, n: Ref): nat
    requires Shape(t, g) && n in t.cell
    decreases Outside(t, g, n)
  {
    if t.cell[n].parent == NULL then 1 else GoUp(t, g, n); 1 + Depth(t, g, t.cell[n].parent)
  }

  lemma {:induction false} DepthBlack(t: Tree, g: Marks, h: map<Ref, int>, n: Ref)
    requires Shape(t, g) && Balanced(t, h, NONE) && !Red(t, t.root) && n in t.cell
    ensures n in h && t.root in h && Depth(t, g, n) + 2 * h[n] <= 2 * h[t.root] + if t.cell[n].red then 0 else 1
    decreases Outside(t, g, n)
  {
    SpanOf(t, g, n);
    RootOnly(t, g, n);
    BalAt(t, h, NONE, n);
    var p := t.cell[n].parent;
    if p != NULL {
      GoUp(t, g, n);
      ParentSide(t, g, n);
      DepthBlack(t, g, h, p);
      BalAt(t, h, NONE, p);
    }
    hide Shape, Balanced;
  }

  ghost function InsideSet(t: Tree, g: Marks, n: Ref): set<Ref>
    requires n != NULL ==> Known(t, g, n)
  {
    if n == NULL then {} else set m | m in t.cell && m in t.key && Contains(g.span[n], t.key[m])
  }

  lemma InsideParts(t: Tree, g: Marks, n: Ref)
    requires Shape(t, g) && n in t.cell
    ensures Known(t, g, n) && n != NULL && (t.cell[n].left != NULL ==> Known(t, g, t.cell[n].left))
        && (t.cell[n].right != NULL ==> Known(t, g, t.cell[n].right))
    ensures |InsideSet(t, g, n)| == 1 + |InsideSet(t, g, t.cell[n].left)| + |InsideSet(t, g, t.cell[n].right)|
  {
    SpanOf(t, g, n);
    var l, r := t.cell[n].left, t.cell[n].right;
    if l != NULL { KidSpan(t, g, n, L); }
    if r != NULL { KidSpan(t, g, n, R); }
    var a, b, c := InsideSet(t, g, n), InsideSet(t, g, l), InsideSet(t, g, r);
    forall m ensures m in a <==> m in {n} + b + c { InsideOne(t, g, n, m); }
    hide *;
    assert a == {n} + b + c;
    InsideApart(t, g, n);
    assert |a| == |{n}| + |b| + |c|;
  }

  lemma InsideOne(t: Tree, g: Marks, n: Ref, m: Ref)
    requires Shape(t, g) && n in t.cell && Known(t, g, n) && n != NULL
        && (t.cell[n].left != NULL ==> Known(t, g, t.cell[n].left))
        && (t.cell[n].right != NULL ==> Known(t, g, t.cell[n].right))
    ensures m in InsideSet(t, g, n) <==>
        m == n || m in InsideSet(t, g, t.cell[n].left) || m in InsideSet(t, g, t.cell[n].right)
  {
    if t.cell[n].left != NULL { KidSpan(t, g, n, L); }
    if t.cell[n].right != NULL { KidSpan(t, g, n, R); }
    SpanOf(t, g, n);
    if m in t.cell {
      SpanOf(t, g, m);
      OrderedAt(t, g, n, m);
    }
    hide Shape;
  }

  lemma InsideApart(t: Tree, g: Marks, n: Ref)
    requires Shape(t, g) && n in t.cell && Known(t, g, n) && n != NULL
        && (t.cell[n].left != NULL ==> Known(t, g, t.cell[n].left))
        && (t.cell[n].right != NULL ==> Known(t, g, t.cell[n].right))
    ensures n !in InsideSet(t, g, t.cell[n].left) && n !in InsideSet(t, g, t.cell[n].right)
        && InsideSet(t, g, t.cell[n].left) !! InsideSet(t, g, t.cell[n].right)
  {
    if t.cell[n].left != NULL { KidSpan(t, g, n, L); }
    if t.cell[n].right != NULL { KidSpan(t, g, n, R); }
    SpanOf(t, g, n);
    hide Shape;
    forall m | m in InsideSet(t, g, t.cell[n].left) ensures m !in InsideSet(t, g, t.cell[n].right) {}
  }

  lemma {:induction false} SizeBlack(t: Tree, g: Marks, h: map<Ref, int>, n: Ref)
    requires Shape(t, g) && Balanced(t, h, NONE) && (n == NULL || n in t.cell)
    ensures (n != NULL ==> Known(t, g, n)) && Black(h, n) >= 1 && Pow2(Black(h, n) - 1) <= |InsideSet(t, g, n)| + 1
    decreases if n == NULL then 0 else 1 + Inside(t, g, n)
  {
    if n != NULL {
      InsideParts(t, g, n);
      BalAt(t, h, NONE, n);
      if t.cell[n].left != NULL { GoDown(t, g, n, L); }
      if t.cell[n].right != NULL { GoDown(t, g, n, R); }
      SizeBlack(t, g, h, t.cell[n].left);
      SizeBlack(t, g, h, t.cell[n].right);
    }
  }

  lemma PowDouble(d: nat, b: nat)
    requires d <= 2 * b
    ensures Pow2(d) <= Pow2(b) * Pow2(b)
  {
    Pow2Mono(d, 2 * b);
    PowSquare(b);
  }

  lemma {:induction false} PowSquare(b: nat)
    ensures Pow2(2 * b) == Pow2(b) * Pow2(b)
  {
    if b > 0 {
      PowSquare(b - 1);
      assert Pow2(2 * b) == 2 * Pow2(2 * b - 1) == 4 * Pow2(2 * (b - 1));
    }
  }

  lemma DepthBound(t: Tree, g: Marks, h: map<Ref, int>, n: Ref)
    requires Shape(t, g) && Balanced(t, h, NONE) && !Red(t, t.root) && n in t.cell
    ensures Pow2(Depth(t, g, n)) <= (|t.cell| + 1) * (|t.cell| + 1)
  {
    RootIn(t, g, n);
    DepthBlack(t, g, h, n);
    BalAt(t, h, NONE, n);
    SizeBlack(t, g, h, t.root);
    SizeBlack(t, g, h, n);
    SizeBlack(t, g, h, t.cell[n].left) by { InsideParts(t, g, n); }
    var b := Black(h, t.root) - 1;
    hide Shape, Balanced;
    PowDouble(Depth(t, g, n), b);
    assert InsideSet(t, g, t.root) <= t.cell.Keys;
    Within(InsideSet(t, g, t.root), t.cell.Keys);
    Squares(Pow2(b), |t.cell| + 1);
  }

  lemma Squares(a: nat, b: nat)
    requires a <= b
    ensures a * a <= b * b
  {
    assert a * a <= a * b <= b * b;
  }

  // ---- Runs

  datatype Op = Ins(x: Ref, k: int) | Rem(x: Ref)

  /**
   * What the operations do to a finite map from nodes to keys: a key enters once, and a node that is there is not
   * inserted.
   */
  ghost function Apply(m: map<Ref, int>, op: Op): map<Ref, int> {
    match op
    case Ins(x, k) => if x == NULL || x in m || k in m.Values then m else m[x := k]
    case Rem(x) => m - {x}
  }

  ghost function Replay(ops: seq<Op>): map<Ref, int> {
    if ops == [] then map[] else Apply(Replay(ops[..|ops| - 1]), ops[|ops| - 1])
  }

  /**
   * After any sequence of insertions and removals, the tree holds exactly the nodes and keys it should, and it is
   * shallow.
   */
  method Run(ops: seq<Op>) returns (t: RBTree)
    ensures t.Valid() && t.cell.Keys == Replay(ops).Keys && forall n ::
        n in t.cell ==> n in t.key && t.key[n] == Replay(ops)[n]
    ensures forall n ::
        n in t.cell ==> Pow2(Depth(Tree(t.cell, t.root, t.key), t.g, n)) <= (|t.cell| + 1) * (|t.cell| + 1)
  {
    t := new RBTree();
    for i := 0 to |ops|
      invariant fresh(t) && t.Valid() && t.cell.Keys == Replay(ops[..i]).Keys && forall n ::
          n in t.cell ==> n in t.key && t.key[n] == Replay(ops[..i])[n]
    {
      ghost var m := Replay(ops[..i]);
      assert ops[..i + 1][..i] == ops[..i];
      match ops[i] {
        case Ins(x, k) =>
          if x != NULL && x !in t.cell {
            ghost var c0, k0 := t.cell, t.key;
            var r := t.Insert(x, k);
            if r != NULL {
              assert m[r] == k;
            } else {
              forall n | n in m ensures m[n] != k { assert n in c0 && k0[n] == m[n]; }
            }
          }
        case Rem(x) =>
          if x in t.cell { t.Remove(x); }
      }
    }
    assert ops[..|ops|] == ops;
    forall n | n in t.cell ensures Pow2(Depth(Tree(t.cell, t.root, t.key), t.g, n)) <= (|t.cell| + 1) * (|t.cell| + 1) {
      t.HeightBound(n);
    }
  }
}
