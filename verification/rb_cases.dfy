/** The cases of RB_INSERT_COLOR and RB_REMOVE_COLOR (tree.h). */
module RbCases {
  import opened RbShape
  import opened RbEdit
  import opened RbColor
  import opened RbRemove

  /** The new node is red: only it may be below a red node. */
  ghost function HotAt(n: Ref): Excuse { NONE.(hot := n) }

  /** The child of n on side s is one black node short. */
  ghost function LackAt(n: Ref, s: Side): Excuse { NONE.(lack := n, side := s) }

  // ---- Insertion

  /** elm is the inner child of its red parent x: a rotation makes it the parent. */
  lemma CaseInner(t: Tree, g: Marks, h: map<Ref, int>, x: Ref, s: Side)
    requires Shape(t, g) && x in t.cell && t.cell[x].red && var y := Kid(t.cell[x], Opp(s));
        Red(t, y) && Balanced(t, h, HotAt(y))
    ensures CanRotate(t, x, s) && Balanced(Rotated(t, x, s), h, HotAt(x))
  {
    RotateIs(t, g, x, s);
    var y, u := Kid(t.cell[x], Opp(s)), Rotated(t, x, s);
    BalAt(t, h, HotAt(y), x);
    BalAt(t, h, HotAt(y), y);
    KidSpan(t, g, x, Opp(s));
    SpanOf(t, g, x);
    Apart(t, g, x, s, NULL);
    hide Shape, Balanced, Rotated;
    assert SameAbove(t, h, x, u, h, y);
    TurnBelow(t, g, t, h, h, x, s, NULL);
    BalNull(t, g, u, h, HotAt(x));
    assert Bal(u, h, HotAt(x), x);
    assert Bal(u, h, HotAt(x), y);
    TurnBal(t, g, t, h, h, HotAt(y), HotAt(x), x, s, NULL);
  }

  lemma BalNull(t: Tree, g: Marks, u: Tree, h: map<Ref, int>, e: Excuse)
    requires Shape(t, g) && u.cell.Keys == t.cell.Keys
    ensures Bal(u, h, e, NULL)
  {
    if NULL in t.cell { SpanOf(t, g, NULL); }
    hide Shape;
  }

  /** elm is the outer child of its red parent y: a rotation of the grandparent x ends the repair. */
  lemma CaseOuter(t: Tree, g: Marks, h: map<Ref, int>, x: Ref, s: Side, elm: Ref)
    requires Shape(t, g) && x in t.cell && !t.cell[x].red && var y := Kid(t.cell[x], Opp(s));
        Red(t, y) && Kid(t.cell[y], Opp(s)) == elm && Red(t, elm)
    requires !Red(t, Kid(t.cell[x], s)) && Balanced(t, h, HotAt(elm)) && Kid(t.cell[x], Opp(s)) in h
    ensures var y := Kid(t.cell[x], Opp(s)); var v := Painted(Painted(t, y, false), x, true);
      CanRotate(v, x, s) && Balanced(Rotated(v, x, s), h[y := h[y] + 1][x := h[y]], NONE)
  {
    var y := Kid(t.cell[x], Opp(s));
    var v, i := Painted(Painted(t, y, false), x, true), h[y := h[y] + 1][x := h[y]];
    BalAt(t, h, HotAt(elm), x);
    BalAt(t, h, HotAt(elm), y);
    KidSpan(t, g, x, Opp(s));
    KidSpan(t, g, y, Opp(s));
    ReplaceReady(t, g, y);
    SpanOf(t, g, x);
    Apart(t, g, x, s, NULL);
    assert Repainted(t, v, {x, y, NULL});
    RepaintShape(t, g, v, {x, y, NULL});
    RotateIs(v, g, x, s);
    var u := Rotated(v, x, s);
    hide Shape, Balanced, Rotated;
    assert SameAbove(t, h, x, u, i, y);
    TurnBelow(t, g, v, h, i, x, s, NULL);
    BalNull(t, g, u, i, NONE);
    assert Bal(u, i, NONE, x);
    assert Bal(u, i, NONE, y);
    TurnBal(t, g, v, h, i, HotAt(elm), NONE, x, s, NULL);
  }

  /** Both children of x are red, and so is elm below one of them: the colours move up. */
  lemma CaseUncle(t: Tree, g: Marks, h: map<Ref, int>, x: Ref, elm: Ref)
    requires Shape(t, g) && x in t.cell && !t.cell[x].red && Red(t, t.cell[x].left) && Red(t, t.cell[x].right)
        && Balanced(t, h, HotAt(elm))
    requires elm in t.cell && (t.cell[elm].parent == t.cell[x].left || t.cell[elm].parent == t.cell[x].right)
    ensures var y, q := t.cell[x].left, t.cell[x].right;
      && y in h && q in h && x != y && x != q && y != q && y in t.cell && q in t.cell
        && Painted(Painted(t, q, false), y, false) == Painted(Painted(t, y, false), q, false)
      && Balanced(Painted(Painted(Painted(t, q, false), y, false), x, true), h[y := h[y] + 1][q := h[q] + 1], HotAt(x))
  {
    var y, q := t.cell[x].left, t.cell[x].right;
    BalAt(t, h, HotAt(elm), x);
    BalAt(t, h, HotAt(elm), y);
    BalAt(t, h, HotAt(elm), q);
    ReplaceReady(t, g, x);
    ReplaceReady(t, g, y);
    ReplaceReady(t, g, q);
    KidSpan(t, g, x, L);
    KidSpan(t, g, x, R);
    var v, i := Painted(Painted(Painted(t, q, false), y, false), x, true), h[y := h[y] + 1][q := h[q] + 1];
    hide Shape, NodeOk, Balanced;
    assert Repainted(t, v, {x, y, q}) && SameHeights(h, i, {x, y, q}) && Black(h, x) == Black(i, x);
    forall n ensures Bal(v, i, HotAt(x), n) {
      if n in t.cell && n != x && n != y && n != q { UncleNode(t, g, h, x, elm, v, i, n); }
    }
    BalFold(v, i, HotAt(x));
  }

  lemma UncleNode(t: Tree, g: Marks, h: map<Ref, int>, x: Ref, elm: Ref, v: Tree, i: map<Ref, int>, n: Ref)
    requires Shape(t, g) && x in t.cell && Balanced(t, h, HotAt(elm)) && elm in t.cell
        && (t.cell[elm].parent == t.cell[x].left || t.cell[elm].parent == t.cell[x].right)
    requires var y, q := t.cell[x].left, t.cell[x].right;
        Repainted(t, v, {x, y, q}) && SameHeights(h, i, {x, y, q}) && y != NULL && q != NULL && n != y && n != q
    requires Black(h, x) == Black(i, x) && n in t.cell && n != x
    ensures Bal(v, i, HotAt(x), n)
  {
    BalAt(t, h, HotAt(elm), n);
    SpanOf(t, g, n);
    KidSpan(t, g, x, L);
    KidSpan(t, g, x, R);
    if t.cell[n].left != NULL { KidSpan(t, g, n, L); }
    if t.cell[n].right != NULL { KidSpan(t, g, n, R); }
    hide Shape, NodeOk, Balanced;
  }

  lemma BalFold(t: Tree, h: map<Ref, int>, e: Excuse)
    requires forall n {:trigger Bal(t, h, e, n)} :: Bal(t, h, e, n)
    ensures Balanced(t, h, e)
  {
  }

  // ---- Removal

  /** The sibling y is red: a rotation of the parent x gives a black one. */
  lemma CaseRedSibling(t: Tree, g: Marks, h: map<Ref, int>, x: Ref, s: Side)
    requires Shape(t, g) && x in t.cell && !Red(t, Kid(t.cell[x], s)) && Red(t, Kid(t.cell[x], Opp(s)))
        && Balanced(t, h, LackAt(x, s)) && x in h
    ensures var y := Kid(t.cell[x], Opp(s)); var v := Painted(Painted(t, y, false), x, true);
      CanRotate(v, x, s) && Balanced(Rotated(v, x, s), h[x := h[x] - 1][y := h[x]], LackAt(x, s))
  {
    var y := Kid(t.cell[x], Opp(s));
    var v, i := Painted(Painted(t, y, false), x, true), h[x := h[x] - 1][y := h[x]];
    BalAt(t, h, LackAt(x, s), x);
    BalAt(t, h, LackAt(x, s), y);
    KidSpan(t, g, x, Opp(s));
    SpanOf(t, g, x);
    Apart(t, g, x, s, NULL);
    assert Repainted(t, v, {x, y, NULL});
    RepaintShape(t, g, v, {x, y, NULL});
    RotateIs(v, g, x, s);
    var u := Rotated(v, x, s);
    hide Shape, Balanced, Rotated;
    assert SameAbove(t, h, x, u, i, y);
    TurnBelow(t, g, v, h, i, x, s, NULL);
    BalNull(t, g, u, i, LackAt(x, s));
    assert Bal(u, i, LackAt(x, s), x);
    assert Bal(u, i, LackAt(x, s), y);
    TurnBal(t, g, v, h, i, LackAt(x, s), LackAt(x, s), x, s, NULL);
  }

  /** The sibling y and its children are black: y turns red, and the parent x is what is short now. */
  lemma CaseRecolor(t: Tree, g: Marks, h: map<Ref, int>, x: Ref, s: Side, side: Side)
    requires Shape(t, g) && x in t.cell && x in h && Balanced(t, h, LackAt(x, s))
    requires var y := Kid(t.cell[x], Opp(s));
        y in t.cell && y != NULL && !t.cell[y].red && !Red(t, t.cell[y].left) && !Red(t, t.cell[y].right)
    requires t.cell[x].parent != NULL ==> t.cell[x].parent in t.cell && Kid(t.cell[t.cell[x].parent], side) == x
    ensures var y := Kid(t.cell[x], Opp(s));
      y in h && x != y && Balanced(Painted(t, y, true), h[y := h[y] - 1][x := h[x] - 1],
          Excuse(t.cell[x].parent, side, x, x))
  {
    var y := Kid(t.cell[x], Opp(s));
    BalAt(t, h, LackAt(x, s), x);
    BalAt(t, h, LackAt(x, s), y);
    ReplaceReady(t, g, x);
    ReplaceReady(t, g, y);
    KidSpan(t, g, x, Opp(s));
    var v, i, f := Painted(t, y, true), h[y := h[y] - 1][x := h[x] - 1], Excuse(t.cell[x].parent, side, x, x);
    hide Shape, NodeOk, Balanced;
    assert Repainted(t, v, {x, y}) && SameHeights(h, i, {x, y}) && Black(i, x) == Black(h, x) - 1;
    forall n ensures Bal(v, i, f, n) {
      if n in t.cell && n != x && n != y { RecolorNode(t, g, h, x, s, side, v, i, n); }
    }
    BalFold(v, i, f);
  }

  lemma RecolorNode(t: Tree, g: Marks, h: map<Ref, int>, x: Ref, s: Side, side: Side, v: Tree, i: map<Ref, int>, n: Ref)
    requires Shape(t, g) && x in t.cell && Balanced(t, h, LackAt(x, s))
        && (t.cell[x].parent != NULL ==> t.cell[x].parent in t.cell && Kid(t.cell[t.cell[x].parent], side) == x)
    requires var y := Kid(t.cell[x], Opp(s));
        y != NULL && Repainted(t, v, {x, y}) && SameHeights(h, i, {x, y}) && n != y
    requires Black(i, x) == Black(h, x) - 1 && v.cell[x] == t.cell[x] && n in t.cell && n != x
    ensures Bal(v, i, Excuse(t.cell[x].parent, side, x, x), n)
  {
    BalAt(t, h, LackAt(x, s), n);
    SpanOf(t, g, n);
    KidSpan(t, g, x, Opp(s));
    ReplaceReady(t, g, n);
    if t.cell[n].left != NULL { KidSpan(t, g, n, L); }
    if t.cell[n].right != NULL { KidSpan(t, g, n, R); }
    hide Shape, NodeOk, Balanced;
  }

  /** Only the inner child o of the sibling x is red: a rotation of x makes o the sibling, with a red outer child. */
  lemma CaseInnerRed(t: Tree, g: Marks, h: map<Ref, int>, p: Ref, side: Side, x: Ref)
    requires Shape(t, g) && x in t.cell && x in h && !t.cell[x].red && Balanced(t, h, LackAt(p, side)) && p != x
        && p != Kid(t.cell[x], side)
    requires Red(t, Kid(t.cell[x], side)) && !Red(t, Kid(t.cell[x], Opp(side)))
    ensures var o := Kid(t.cell[x], side); var v := Painted(Painted(t, o, false), x, true);
      CanRotate(v, x, Opp(side)) && Balanced(Rotated(v, x, Opp(side)), h[x := h[x] - 1][o := h[x]], LackAt(p, side))
  {
    var s := Opp(side);
    var y := Kid(t.cell[x], Opp(s));
    var v, i := Painted(Painted(t, y, false), x, true), h[x := h[x] - 1][y := h[x]];
    BalAt(t, h, LackAt(p, side), x);
    BalAt(t, h, LackAt(p, side), y);
    KidSpan(t, g, x, Opp(s));
    SpanOf(t, g, x);
    Apart(t, g, x, s, NULL);
    assert Repainted(t, v, {x, y, NULL});
    RepaintShape(t, g, v, {x, y, NULL});
    RotateIs(v, g, x, s);
    var u := Rotated(v, x, s);
    hide Shape, Balanced, Rotated;
    assert SameAbove(t, h, x, u, i, y);
    TurnBelow(t, g, v, h, i, x, s, NULL);
    BalNull(t, g, u, i, LackAt(p, side));
    assert Bal(u, i, LackAt(p, side), x);
    assert Bal(u, i, LackAt(p, side), y);
    TurnBal(t, g, v, h, i, LackAt(p, side), LackAt(p, side), x, s, NULL);
  }

  /** The outer child w of the sibling y is red: a rotation of the parent x ends the repair. */
  lemma CaseOuterRed(t: Tree, g: Marks, h: map<Ref, int>, x: Ref, s: Side)
    requires Shape(t, g) && x in t.cell && x in h && Balanced(t, h, LackAt(x, s))
    requires var y := Kid(t.cell[x], Opp(s));
        y != NULL && y in t.cell && !t.cell[y].red && Red(t, Kid(t.cell[y], Opp(s))) && Kid(t.cell[y], Opp(s)) in h
    ensures var y := Kid(t.cell[x], Opp(s)); var w := Kid(t.cell[y], Opp(s));
      && x != y && x != w && var v := Painted(Painted(Painted(t, y, t.cell[x].red), x, false), w, false);
      && CanRotate(v, x, s) && Balanced(Rotated(v, x, s), h[y := h[x]][x := h[w] + 1][w := h[w] + 1], LackAt(NULL, s))
  {
    var y := Kid(t.cell[x], Opp(s));
    var w := Kid(t.cell[y], Opp(s));
    KidSpan(t, g, x, Opp(s));
    KidSpan(t, g, y, Opp(s));
    SpanOf(t, g, x);
    Apart(t, g, x, s, w);
    var v, i := Painted(Painted(Painted(t, y, t.cell[x].red), x, false), w, false),
        h[y := h[x]][x := h[w] + 1][w := h[w] + 1];
    assert Repainted(t, v, {x, y, w}) && SameHeights(h, i, {x, y, w});
    RepaintShape(t, g, v, {x, y, w});
    RotateIs(v, g, x, s);
    hide Shape, Balanced, Rotated, Bal, RotateCells;
    assert SameAbove(t, h, x, Rotated(v, x, s), i, y) by { RootLook(v, g, x, s); }
    OuterRedNodes(t, g, h, x, s, v, i);
    TurnBal(t, g, v, h, i, LackAt(x, s), LackAt(NULL, s), x, s, w);
  }

  lemma RootLook(v: Tree, g: Marks, x: Ref, s: Side)
    requires Shape(v, g) && x in v.cell && Kid(v.cell[x], Opp(s)) != NULL
    ensures CanRotate(v, x, s) && var y := Kid(v.cell[x], Opp(s));
        y in v.cell && y in Rotated(v, x, s).cell && Rotated(v, x, s).cell[y].red == v.cell[y].red
  {
    RotateIs(v, g, x, s);
    hide Shape, Rotated;
  }

  lemma OuterRedNodes(t: Tree, g: Marks, h: map<Ref, int>, x: Ref, s: Side, v: Tree, i: map<Ref, int>)
    requires x in t.cell && x in h && Balanced(t, h, LackAt(x, s)) && Kid(t.cell[x], Opp(s)) in t.cell
        && !t.cell[Kid(t.cell[x], Opp(s))].red
    requires var y := Kid(t.cell[x], Opp(s)); var w := Kid(t.cell[y], Opp(s));
        Turn(t, g, v, h, i, x, s, w) && w in h && x != y && x != w && y != w && Red(t, w)
    requires var y := Kid(t.cell[x], Opp(s)); var w := Kid(t.cell[y], Opp(s));
        i == h[y := h[x]][x := h[w] + 1][w := h[w] + 1]
    requires var y := Kid(t.cell[x], Opp(s)); var w := Kid(t.cell[y], Opp(s));
        v == Painted(Painted(Painted(t, y, t.cell[x].red), x, false), w, false)
    ensures CanRotate(v, x, s) && var u := Rotated(v, x, s); var y := Kid(t.cell[x], Opp(s));
      Bal(u, i, LackAt(NULL, s), x) && Bal(u, i, LackAt(NULL, s), y)
          && Bal(u, i, LackAt(NULL, s), Kid(t.cell[y], Opp(s)))
  {
    var y := Kid(t.cell[x], Opp(s));
    BalAt(t, h, LackAt(x, s), x);
    BalAt(t, h, LackAt(x, s), y);
    BalAt(t, h, LackAt(x, s), Kid(t.cell[y], Opp(s)));
    TurnBelow(t, g, v, h, i, x, s, Kid(t.cell[y], Opp(s)));
    hide Shape, Balanced, Rotated, Turn, Repainted;
  }

  // ---- Before and after the repairs

  lemma AttachBal(t: Tree, g: Marks, h: map<Ref, int>, p: Ref, s: Side, x: Ref)
    requires Shape(t, g) && Balanced(t, h, NONE) && x != NULL && x !in t.cell && x in t.key && Gap(t, g, p, s, t.key[x])
        && (p != NULL ==> p in t.cell)
    ensures Balanced(Attached(t, p, s, x), h[x := 1], HotAt(x))
  {
    var u, i := Attached(t, p, s, x), h[x := 1];
    forall n ensures Bal(u, i, HotAt(x), n) {
      BalAt(t, h, NONE, n);
      ShapeAt(t, g, n);
      hide Shape, IsKey, Balanced;
    }
    BalFold(u, i, HotAt(x));
  }

  /** The root turns black at the end of an insertion. */
  lemma FinishInsert(t: Tree, g: Marks, h: map<Ref, int>, elm: Ref)
    requires Shape(t, g) && Balanced(t, h, HotAt(elm)) && elm in t.cell && (Red(t, t.root) ==> t.root == elm)
        && !Red(t, t.cell[elm].parent)
    ensures t.root in t.cell && t.root in h
    ensures Balanced(Painted(t, t.root, false), if t.cell[t.root].red then h[t.root := h[t.root] + 1] else h, NONE)
  {
    RootIn(t, g, elm);
    BalAt(t, h, HotAt(elm), t.root);
    var u, i := Painted(t, t.root, false), if t.cell[t.root].red then h[t.root := h[t.root] + 1] else h;
    forall n ensures Bal(u, i, NONE, n) {
      BalAt(t, h, HotAt(elm), n);
      if n in t.cell { RootKids(t, g, n, elm); }
      hide Shape, Balanced;
    }
    BalFold(u, i, NONE);
  }

  lemma RootIn(t: Tree, g: Marks, n: Ref)
    requires Shape(t, g) && n in t.cell
    ensures t.root in t.cell && t.root != NULL && t.cell[t.root].parent == NULL
  {
    SpanOf(t, g, t.root);
  }

  /** The root is no child; and a node that is a child of n has the parent n. */
  lemma RootKids(t: Tree, g: Marks, n: Ref, x: Ref)
    requires Shape(t, g) && n in t.cell && x in t.cell
    ensures t.cell[n].left != t.root && t.cell[n].right != t.root
    ensures x != NULL && (t.cell[n].left == x || t.cell[n].right == x ==> t.cell[x].parent == n)
    ensures (t.cell[n].left != NULL ==> t.cell[n].left in t.cell)
        && (t.cell[n].right != NULL ==> t.cell[n].right in t.cell)
  {
    RootIn(t, g, n);
    SpanOf(t, g, x);
    if t.cell[n].left != NULL { KidSpan(t, g, n, L); SpanOf(t, g, n); }
    if t.cell[n].right != NULL { KidSpan(t, g, n, R); SpanOf(t, g, n); }
  }

  /** Where the missing black node is: below parent on a side, or nowhere if elm is the root. */
  ghost predicate Place(t: Tree, parent: Ref, side: Side, elm: Ref) {
    if parent == NULL then elm == t.root
    else parent in t.cell && Kid(t.cell[parent], side) == elm && elm != t.root && !Red(t, t.root) && (elm != NULL ==>
        elm in t.cell && t.cell[elm].parent == parent)
  }

  /** If what is short is black, it does not matter that it might be red. */
  lemma NoExcuse(t: Tree, g: Marks, h: map<Ref, int>, parent: Ref, side: Side, elm: Ref)
    requires Shape(t, g) && Balanced(t, h, Excuse(parent, side, elm, elm)) && !Red(t, elm)
    ensures Balanced(t, h, LackAt(parent, side))
  {
    forall n ensures Bal(t, h, LackAt(parent, side), n) {
      BalAt(t, h, Excuse(parent, side, elm, elm), n);
      if n in t.cell { SpanOf(t, g, n); }
      hide Shape, Balanced;
    }
    BalFold(t, h, LackAt(parent, side));
  }

  /** The sibling of what is short exists. */
  lemma Sibling(t: Tree, g: Marks, h: map<Ref, int>, x: Ref, s: Side)
    requires Shape(t, g) && Balanced(t, h, LackAt(x, s)) && x in t.cell
    ensures x in h && x != NULL && var y := Kid(t.cell[x], Opp(s));
        y != NULL && y != Kid(t.cell[x], s) && y in t.cell && y in h && y != x
    ensures var y := Kid(t.cell[x], Opp(s));
        (t.cell[y].left != NULL ==> t.cell[y].left in t.cell && t.cell[y].left in h)
        && (t.cell[y].right != NULL ==> t.cell[y].right in t.cell && t.cell[y].right in h)
    ensures var y := Kid(t.cell[x], Opp(s)); x != t.cell[y].left && x != t.cell[y].right
  {
    BalAt(t, h, LackAt(x, s), x);
    ReplaceReady(t, g, x);
    SpanOf(t, g, x);
    var a, y := Kid(t.cell[x], s), Kid(t.cell[x], Opp(s));
    if a != NULL { KidSpan(t, g, x, s); BalAt(t, h, LackAt(x, s), a); }
    if y != NULL {
      KidSpan(t, g, x, Opp(s));
      ReplaceReady(t, g, y);
      if t.cell[y].left != NULL { KidSpan(t, g, y, L); BalAt(t, h, LackAt(x, s), t.cell[y].left); }
      if t.cell[y].right != NULL { KidSpan(t, g, y, R); BalAt(t, h, LackAt(x, s), t.cell[y].right); }
      BalAt(t, h, LackAt(x, s), y);
    }
    hide Shape, Balanced, NodeOk;
  }

  /** What is short turns black at the end of a removal. */
  lemma FinishRemove(t: Tree, g: Marks, h: map<Ref, int>, parent: Ref, side: Side, elm: Ref)
    requires Shape(t, g) && Balanced(t, h, Excuse(parent, side, elm, elm)) && Place(t, parent, side, elm)
        && (elm == t.root || Red(t, elm)) && elm != NULL
    ensures elm in t.cell && elm in h
    ensures var u := Painted(t, elm, false); !Red(u, u.root) && Balanced(u, if t.cell[elm].red then h[elm := h[elm] + 1]
        else h, NONE)
  {
    if elm == t.root { RootAt(t, g); }
    BalAt(t, h, Excuse(parent, side, elm, elm), elm);
    var u, i := Painted(t, elm, false), if t.cell[elm].red then h[elm := h[elm] + 1] else h;
    forall n ensures Bal(u, i, NONE, n) {
      BalAt(t, h, Excuse(parent, side, elm, elm), n);
      if n in t.cell {
        RootKids(t, g, n, elm);
        ReplaceReady(t, g, n);
        SpanOf(t, g, n);
      }
      hide Shape, Balanced, NodeOk;
    }
    BalFold(u, i, NONE);
  }

  lemma RootAt(t: Tree, g: Marks)
    requires Shape(t, g)
    ensures t.root != NULL ==> t.root in t.cell
  {
  }

  // ---- Unlinking

  lemma SpliceBal(t: Tree, g: Marks, h: map<Ref, int>, x: Ref, s: Side, side: Side)
    requires Shape(t, g) && Balanced(t, h, NONE) && x in t.cell && Kid(t.cell[x], s) == NULL && !Red(t, t.root)
    requires var p := t.cell[x].parent; p != NULL ==> p in t.cell && Kid(t.cell[p], side) == x
    ensures CanSplice(t, x, s)
    ensures var u, c, p := Spliced(t, x, s), Kid(t.cell[x], Opp(s)), t.cell[x].parent;
      if t.cell[x].red then !Red(u, u.root) && Balanced(u, h - {x}, NONE)
          else Balanced(u, h - {x}, Excuse(p, side, c, c)) && Place(u, p, side, c)
  {
    SpliceReady(t, g, x, s);
    var u, c, p := Spliced(t, x, s), Kid(t.cell[x], Opp(s)), t.cell[x].parent;
    var f := if t.cell[x].red then NONE else Excuse(p, side, c, c);
    BalAt(t, h, NONE, x);
    ReplaceReady(t, g, x);
    if p != NULL { ReplaceReady(t, g, p); BalAt(t, h, NONE, p); RootOnly(t, g, x); }
    if c != NULL { BalAt(t, h, NONE, c); }
    forall n ensures Bal(u, h - {x}, f, n) { SpliceBalNode(t, g, h, x, s, side, n); }
    BalFold(u, h - {x}, f);
    hide Shape, Balanced, NodeOk;
  }

  lemma SpliceBalNode(t: Tree, g: Marks, h: map<Ref, int>, x: Ref, s: Side, side: Side, n: Ref)
    requires Shape(t, g) && Balanced(t, h, NONE) && x in t.cell && Kid(t.cell[x], s) == NULL && !Red(t, t.root)
    requires var p := t.cell[x].parent; p != NULL ==> p in t.cell && Kid(t.cell[p], side) == x
    ensures CanSplice(t, x, s)
    ensures var u, c, p := Spliced(t, x, s), Kid(t.cell[x], Opp(s)), t.cell[x].parent;
        Bal(u, h - {x}, if t.cell[x].red then NONE else Excuse(p, side, c, c), n)
  {
    hide *;
    SpliceReady(t, g, x, s);
    var u, c, p := Spliced(t, x, s), Kid(t.cell[x], Opp(s)), t.cell[x].parent;
    if n !in t.cell || n == x {
      SpliceGone(t, x, s, n);
      BalNone(u, h - {x}, if t.cell[x].red then NONE else Excuse(p, side, c, c), n);
    } else {
      BalAt(t, h, NONE, n);
      BalAt(t, h, NONE, x);
      SpliceKids(t, g, x, s, n);
      SpliceAbove(t, g, h, x, s, t.cell[n].left);
      SpliceAbove(t, g, h, x, s, t.cell[n].right);
      SpliceAbove(t, g, h, x, s, c);
      SpliceMove(t, h, x, s, side, n, u);
    }
  }

  lemma SpliceGone(t: Tree, x: Ref, s: Side, n: Ref)
    requires CanSplice(t, x, s) && (n !in t.cell || n == x)
    ensures n !in Spliced(t, x, s).cell
  {
  }

  lemma SpliceKids(t: Tree, g: Marks, x: Ref, s: Side, n: Ref)
    requires Shape(t, g) && x in t.cell && Kid(t.cell[x], s) == NULL && n in t.cell && n != x
    ensures CanSplice(t, x, s)
    ensures var u, c := Spliced(t, x, s), Kid(t.cell[x], Opp(s));
      && n in u.cell && n != NULL && x != NULL && u.cell[n].red == t.cell[n].red
        && (n == t.cell[x].parent <==> t.cell[n].left == x || t.cell[n].right == x)
      && u.cell[n].left == (if t.cell[n].left == x then c else t.cell[n].left)
        && u.cell[n].right == (if t.cell[n].right == x then c else t.cell[n].right)
      && (t.cell[n].left == NULL || (t.cell[n].left in t.cell && t.cell[n].left != t.cell[n].right
        && (t.cell[n].left == c ==> c == NULL)))
      && (t.cell[n].right == NULL || (t.cell[n].right in t.cell && (t.cell[n].right == c ==> c == NULL)))
      && (c == NULL || c in t.cell)
  {
    SpliceReady(t, g, x, s);
    SpliceData(t, g, x, s, n);
    ReplaceReady(t, g, n);
    if t.cell[n].left != NULL { KidSpan(t, g, n, L); }
    if t.cell[n].right != NULL { KidSpan(t, g, n, R); }
    hide Shape, NodeOk;
  }

  lemma SpliceAbove(t: Tree, g: Marks, h: map<Ref, int>, x: Ref, s: Side, k: Ref)
    requires Shape(t, g) && x in t.cell && Kid(t.cell[x], s) == NULL && (k == NULL || k in t.cell)
    ensures CanSplice(t, x, s) && (k != x ==> SameAbove(t, h, k, Spliced(t, x, s), h - {x}, k))
  {
    SpliceReady(t, g, x, s);
    if k in t.cell && k != x { SpliceKids(t, g, x, s, k); }
    hide Shape, NodeOk, Spliced;
  }

  lemma SpliceMove(t: Tree, h: map<Ref, int>, x: Ref, s: Side, side: Side, n: Ref, u: Tree)
    requires x in t.cell && n in t.cell && n != x && Kid(t.cell[x], s) == NULL && Bal(t, h, NONE, n)
        && Bal(t, h, NONE, x) && x != NULL && n != NULL
    requires var p := t.cell[x].parent; p != NULL ==> p in t.cell && Kid(t.cell[p], side) == x
    requires var c := Kid(t.cell[x], Opp(s));
      && n in u.cell && u.cell[n].red == t.cell[n].red
        && (n == t.cell[x].parent <==> t.cell[n].left == x || t.cell[n].right == x)
      && u.cell[n].left == (if t.cell[n].left == x then c else t.cell[n].left)
        && u.cell[n].right == (if t.cell[n].right == x then c else t.cell[n].right)
      && (t.cell[n].left == NULL || t.cell[n].left != t.cell[n].right) && SameAbove(t, h, c, u, h - {x}, c)
      && (t.cell[n].left != x ==> SameAbove(t, h, t.cell[n].left, u, h - {x}, t.cell[n].left))
      && (t.cell[n].right != x ==> SameAbove(t, h, t.cell[n].right, u, h - {x}, t.cell[n].right))
    ensures Bal(u, h - {x}, if t.cell[x].red then NONE else Excuse(t.cell[x].parent, side, Kid(t.cell[x], Opp(s)),
        Kid(t.cell[x], Opp(s))), n)
  {
  }

  lemma ReplaceBal(t: Tree, g: Marks, h: map<Ref, int>, e: Excuse, x: Ref, y: Ref)
    requires Shape(t, g) && Balanced(t, h, e) && x in t.cell && y !in t.cell && y in t.key && y != NULL && e.hot != y
        && e.loose != y && e.lack != y && e.hot != x && e.loose != x && x in h
    ensures CanReplace(t, x) && Balanced(Replaced(t, x, y), (h - {x})[y := h[x]], if e.lack == x then e.(lack := y)
        else e)
  {
    ReplaceReady(t, g, x);
    var u, i, f := Replaced(t, x, y), (h - {x})[y := h[x]], if e.lack == x then e.(lack := y) else e;
    forall n ensures Bal(u, i, f, n) { ReplaceBalNode(t, g, h, e, x, y, n); }
    BalFold(u, i, f);
  }

  lemma ReplaceBalNode(t: Tree, g: Marks, h: map<Ref, int>, e: Excuse, x: Ref, y: Ref, n: Ref)
    requires Shape(t, g) && Balanced(t, h, e) && x in t.cell && y !in t.cell && y in t.key && y != NULL && e.hot != y
        && e.loose != y && e.lack != y && e.hot != x && e.loose != x && x in h
    ensures CanReplace(t, x) && Bal(Replaced(t, x, y), (h - {x})[y := h[x]], if e.lack == x then e.(lack := y)
        else e, n)
  {
    hide *;
    var o := if n == y then x else n;
    ReplaceReady(t, g, x);
    ReplaceCells(t, g, x, y, n);
    var u, i, f := Replaced(t, x, y), (h - {x})[y := h[x]], if e.lack == x then e.(lack := y) else e;
    if o !in t.cell || n == x {
      BalNone(u, i, f, n);
    } else {
      BalAt(t, h, e, o);
      ReplaceKids(t, g, x, y, o);
      ReplaceAbove(t, g, h, x, y, t.cell[o].left);
      ReplaceAbove(t, g, h, x, y, t.cell[o].right);
      BalIn(t, h, e, o);
      BalMove(t, h, e, o, u, i, f, n);
    }
  }

  lemma BalIn(t: Tree, h: map<Ref, int>, e: Excuse, n: Ref)
    requires Bal(t, h, e, n) && n in t.cell
    ensures n in h
  {
  }

  /** A node that looks like another, with children that look like those of the other. */
  lemma BalMove(t: Tree, h: map<Ref, int>, e: Excuse, n: Ref, u: Tree, i: map<Ref, int>, f: Excuse, m: Ref)
    requires Bal(t, h, e, n) && n in t.cell && m in u.cell && m in i && n in h && i[m] == h[n]
        && u.cell[m].red == t.cell[n].red
    requires SameAbove(t, h, t.cell[n].left, u, i, u.cell[m].left)
        && SameAbove(t, h, t.cell[n].right, u, i, u.cell[m].right)
    requires e.side == f.side && (n == e.lack <==> m == f.lack) && (n == e.loose ==> m == f.loose)
    requires (t.cell[n].left == e.hot != NULL ==> u.cell[m].left == f.hot)
        && (t.cell[n].right == e.hot != NULL ==> u.cell[m].right == f.hot)
    ensures Bal(u, i, f, m)
  {
  }

  /** The children of a node after a replacement. */
  lemma ReplaceKids(t: Tree, g: Marks, x: Ref, y: Ref, n: Ref)
    requires Shape(t, g) && x in t.cell && y !in t.cell && y in t.key && y != NULL && n in t.cell
    ensures CanReplace(t, x) && var u, m := Replaced(t, x, y), if n == x then y else n;
      && m in u.cell && n != NULL && u.cell[m].red == t.cell[n].red
      && u.cell[m].left == (if t.cell[n].left == x then y else t.cell[n].left)
        && u.cell[m].right == (if t.cell[n].right == x then y else t.cell[n].right)
      && (t.cell[n].left == NULL || t.cell[n].left in t.cell) && (t.cell[n].right == NULL || t.cell[n].right in t.cell)
  {
    ReplaceCells(t, g, x, y, n);
    ReplaceReady(t, g, x);
    ReplaceReady(t, g, n);
    SpanOf(t, g, n);
    if t.cell[x].parent != NULL { ParentSide(t, g, x); }
    if t.cell[n].left != NULL { KidSpan(t, g, n, L); }
    if t.cell[n].right != NULL { KidSpan(t, g, n, R); }
    hide Shape, NodeOk, Replaced, ReplacedMarks;
  }

  lemma ReplaceAbove(t: Tree, g: Marks, h: map<Ref, int>, x: Ref, y: Ref, k: Ref)
    requires Shape(t, g) && x in t.cell && y !in t.cell && y in t.key && y != NULL && x in h
        && (k == NULL || k in t.cell)
    ensures CanReplace(t, x) && SameAbove(t, h, k, Replaced(t, x, y), (h - {x})[y := h[x]], if k == x then y else k)
  {
    ReplaceReady(t, g, x);
    if k in t.cell { ReplaceKids(t, g, x, y, k); }
    hide Shape, NodeOk, Replaced;
  }
}
