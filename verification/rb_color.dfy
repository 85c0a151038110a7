/** Colours and black heights of a red-black tree (tree.h), and what repairs them. */
module RbColor {
  import opened RbShape
  import opened RbEdit
  import opened RbRemove

  ghost predicate Red(t: Tree, x: Ref) { x != NULL && x in t.cell && t.cell[x].red }

  /** The black height of a subtree. */
  ghost function Black(h: map<Ref, int>, x: Ref): int { if x == NULL then 1 else if x in h then h[x] else 0 }

  /**
   * Where a tree may be out of balance for now: the child of lack on a side is one black node short, node hot may be
   * red below a red node, and node loose may be red above one.
   */
  datatype Excuse = Excuse(lack: Ref, side: Side, hot: Ref, loose: Ref)

  const NONE := Excuse(NULL, L, NULL, NULL)

  /** The colour and the black height of one node agree with those of its children. */
  ghost predicate Bal(t: Tree, h: map<Ref, int>, e: Excuse, n: Ref) {
    n in t.cell ==>
      var c := t.cell[n];
      var l := Black(h, c.left) + if n == e.lack && e.side.L? then 1 else 0;
      var r := Black(h, c.right) + if n == e.lack && e.side.R? then 1 else 0;
      && n in h && l == r && h[n] == l + (if c.red then 0 else 1) && l >= 1
      && (c.red && n != e.loose ==> (c.left == e.hot || !Red(t, c.left)) && (c.right == e.hot || !Red(t, c.right)))
  }

  ghost predicate Balanced(t: Tree, h: map<Ref, int>, e: Excuse) {
    forall n {:trigger Bal(t, h, e, n)} :: Bal(t, h, e, n)
  }

  lemma BalAt(t: Tree, h: map<Ref, int>, e: Excuse, n: Ref)
    requires Balanced(t, h, e)
    ensures Bal(t, h, e, n)
  {
  }

  /** What a node looks like from above. */
  ghost predicate SameAbove(t: Tree, h: map<Ref, int>, x: Ref, u: Tree, i: map<Ref, int>, y: Ref) {
    Black(h, x) == Black(i, y) && Red(t, x) == Red(u, y)
  }

  /** u has the links of t, and the colours and heights outside a set of nodes. */
  ghost predicate Repainted(t: Tree, u: Tree, S: set<Ref>) {
    && u.cell.Keys == t.cell.Keys && u.root == t.root && u.key == t.key
    && forall n {:trigger u.cell[n]} ::
        n in t.cell ==> u.cell[n] == t.cell[n].(red := u.cell[n].red) && (n !in S ==> u.cell[n] == t.cell[n])
  }

  ghost predicate SameHeights(h: map<Ref, int>, i: map<Ref, int>, S: set<Ref>) {
    forall n {:trigger n in i} {:trigger n in h} :: n !in S ==> (n in h <==> n in i) && (n in h ==> h[n] == i[n])
  }

  lemma RepaintShape(t: Tree, g: Marks, u: Tree, S: set<Ref>)
    requires Shape(t, g) && Repainted(t, u, S)
    ensures Shape(u, g)
  {
    SameKeys(t, u);
    forall n ensures NodeOk(u, g, n) {
      ShapeAt(t, g, n);
      if n in t.cell { assert u.cell[n] == t.cell[n].(red := u.cell[n].red); }
      hide IsKey;
    }
    forall n, m ensures PairOk(u, g, n, m) { ShapePair(t, g, n, m); hide Ordered; }
    if t.root in t.cell { assert u.cell[t.root] == t.cell[t.root].(red := u.cell[t.root].red); }
  }

  /** A rotation of x, after x, its child y and a child w of y changed colour and height. */
  ghost predicate Turn(t: Tree, g: Marks, v: Tree, h: map<Ref, int>, i: map<Ref, int>, x: Ref, s: Side, w: Ref) {
    && Shape(t, g) && x in t.cell && var y := Kid(t.cell[x], Opp(s));
    && y != NULL && y in t.cell && Repainted(t, v, {x, y, w}) && SameHeights(h, i, {x, y, w})
      && (w == NULL || w == Kid(t.cell[y], Opp(s)))
    && CanRotate(v, x, s) && SameAbove(t, h, x, Rotated(v, x, s), i, y)
  }

  /** The nodes around a rotation. */
  ghost predicate Around(t: Tree, v: Tree, u: Tree, x: Ref, y: Ref, z: Ref, p: Ref, s: Side, w: Ref) {
    && x in t.cell && y in t.cell && x != NULL && y != NULL && x != y && z != x && z != y && p != x && p != y
    && (z != NULL ==> z in t.cell) && (p != NULL ==>
        p in t.cell && p != z && (t.cell[p].left == x || t.cell[p].right == x) && t.cell[p].left != t.cell[p].right)
    && (w != NULL ==> w in t.cell && t.cell[w].parent == y) && t.cell[x].parent == p && t.cell[y].parent == x
    && Repainted(t, v, {x, y, w}) && RotateCells(v, u, x, y, z, p, s)
  }

  lemma TurnIs(t: Tree, g: Marks, v: Tree, h: map<Ref, int>, i: map<Ref, int>, x: Ref, s: Side, w: Ref)
    requires Turn(t, g, v, h, i, x, s, w)
    ensures x in t.cell && CanRotate(v, x, s)
    ensures var y := Kid(t.cell[x], Opp(s));
        y in t.cell && Around(t, v, Rotated(v, x, s), x, y, Kid(t.cell[y], s), t.cell[x].parent, s, w)
    ensures var y := Kid(t.cell[x], Opp(s)); SameHeights(h, i, {x, y, w}) && SameAbove(t, h, x, Rotated(v, x, s), i, y)
  {
    var y := Kid(t.cell[x], Opp(s));
    RepaintShape(t, g, v, {x, y, w});
    assert v.cell[x] == t.cell[x].(red := v.cell[x].red) && v.cell[y] == t.cell[y].(red := v.cell[y].red);
    RotateIs(v, g, x, s);
    RotateIs(t, g, x, s);
    KidSpan(t, g, x, Opp(s));
    SpanOf(t, g, x);
    SpanOf(t, g, y);
    if w != NULL { KidSpan(t, g, y, Opp(s)); }
    if t.cell[x].parent != NULL {
      ParentSide(t, g, x);
      ReplaceReady(t, g, t.cell[x].parent);
    }
    hide Shape, Rotated, RotateCells, Repainted;
  }

  /** What the rotation does to a node apart from x, y and w. */
  lemma TurnKid(t: Tree, v: Tree, u: Tree, h: map<Ref, int>, i: map<Ref, int>, x: Ref, y: Ref, z: Ref, p: Ref, s: Side,
      w: Ref, n: Ref, d: Side)
    requires Around(t, v, u, x, y, z, p, s, w) && n in t.cell && n != NULL && n != x && n != y && n != w
        && SameAbove(t, h, x, u, i, y) && SameHeights(h, i, {x, y, w})
    requires var k := Kid(t.cell[n], d); k != NULL ==> k in t.cell && t.cell[k].parent == n
    ensures n in u.cell && u.cell[n].red == t.cell[n].red && (n in h <==> n in i) && (n in h ==> h[n] == i[n])
    ensures SameAbove(t, h, Kid(t.cell[n], d), u, i, Kid(u.cell[n], d))
  {
    hide SameAbove;
    var k := Kid(t.cell[n], d);
    assert v.cell[n] == t.cell[n];
    if n != z && n != p { assert u.cell[n] == v.cell[n]; }
    if k != x {
      if k != NULL {
        assert k != y && k != w && v.cell[k] == t.cell[k];
        if k != z && k != p { assert u.cell[k] == v.cell[k]; }
        SameThere(t, h, k, u, i);
      } else {
        NullThere(t, h, u, i);
      }
    }
  }

  lemma SameThere(t: Tree, h: map<Ref, int>, k: Ref, u: Tree, i: map<Ref, int>)
    requires k in t.cell && k in u.cell && t.cell[k].red == u.cell[k].red && (k in h <==> k in i)
        && (k in h ==> h[k] == i[k])
    ensures SameAbove(t, h, k, u, i, k)
  {
  }

  lemma NullThere(t: Tree, h: map<Ref, int>, u: Tree, i: map<Ref, int>)
    ensures SameAbove(t, h, NULL, u, i, NULL)
  {
  }

  /** Below a rotation with new colours, the nodes around it cannot tell the difference. */
  lemma RotateBal(t: Tree, g: Marks, v: Tree, h: map<Ref, int>, i: map<Ref, int>, e: Excuse, f: Excuse, x: Ref, s: Side,
      w: Ref, n: Ref)
    requires Turn(t, g, v, h, i, x, s, w) && Bal(t, h, e, n)
    requires e.hot == NULL || (e.hot in t.cell
        && (t.cell[e.hot].parent == x || t.cell[e.hot].parent == Kid(t.cell[x], Opp(s))))
    requires n != x && n != Kid(t.cell[x], Opp(s)) && n != w && (n == e.lack <==> n == f.lack) && e.side == f.side
        && n != e.loose
    ensures Bal(Rotated(v, x, s), i, f, n)
  {
    hide *;
    TurnIs(t, g, v, h, i, x, s, w);
    TurnShape(t, g, v, h, i, x, s, w);
    var y := Kid(t.cell[x], Opp(s));
    var u := Rotated(v, x, s);
    if n in t.cell {
      SpanOf(t, g, n);
      if Kid(t.cell[n], L) != NULL { KidSpan(t, g, n, L); }
      if Kid(t.cell[n], R) != NULL { KidSpan(t, g, n, R); }
      KnownCell(t, g, Kid(t.cell[n], L));
      KnownCell(t, g, Kid(t.cell[n], R));
      TurnKid(t, v, u, h, i, x, y, Kid(t.cell[y], s), t.cell[x].parent, s, w, n, L);
      TurnKid(t, v, u, h, i, x, y, Kid(t.cell[y], s), t.cell[x].parent, s, w, n, R);
      BalFrame(t, h, e, u, i, f, n);
    } else {
      BalNone(u, i, f, n);
    }
  }

  lemma KnownCell(t: Tree, g: Marks, n: Ref)
    ensures Known(t, g, n) ==> n in t.cell
  {
  }

  lemma TurnShape(t: Tree, g: Marks, v: Tree, h: map<Ref, int>, i: map<Ref, int>, x: Ref, s: Side, w: Ref)
    requires Turn(t, g, v, h, i, x, s, w)
    ensures Shape(t, g) && CanRotate(v, x, s) && Rotated(v, x, s).cell.Keys == t.cell.Keys
  {
    TurnIs(t, g, v, h, i, x, s, w);
  }

  lemma BalNone(t: Tree, h: map<Ref, int>, e: Excuse, n: Ref)
    requires n !in t.cell
    ensures Bal(t, h, e, n)
  {
  }

  lemma BalFrame(t: Tree, h: map<Ref, int>, e: Excuse, u: Tree, i: map<Ref, int>, f: Excuse, n: Ref)
    requires Bal(t, h, e, n) && n in t.cell && n in u.cell && u.cell[n].red == t.cell[n].red && (n in h <==> n in i)
        && (n in h ==> h[n] == i[n])
    requires SameAbove(t, h, Kid(t.cell[n], L), u, i, Kid(u.cell[n], L))
        && SameAbove(t, h, Kid(t.cell[n], R), u, i, Kid(u.cell[n], R))
    requires (n == e.lack <==> n == f.lack) && e.side == f.side && n != e.loose
        && (e.hot == NULL || (Kid(t.cell[n], L) != e.hot && Kid(t.cell[n], R) != e.hot))
    ensures Bal(u, i, f, n)
  {
  }

  /** The nodes of a rotation in the new tree, and that what hangs below them did not change. */
  lemma TurnBelow(t: Tree, g: Marks, v: Tree, h: map<Ref, int>, i: map<Ref, int>, x: Ref, s: Side, w: Ref)
    requires Turn(t, g, v, h, i, x, s, w)
    ensures CanRotate(v, x, s) && x in t.cell && Shape(t, g)
    ensures var y, u := Kid(t.cell[x], Opp(s)), Rotated(v, x, s);
      && y in t.cell && x in u.cell && y in u.cell && x != NULL && y != NULL && x in v.cell && y in v.cell
      && u.cell[x].red == v.cell[x].red && u.cell[y].red == v.cell[y].red
      && Kid(u.cell[x], s) == Kid(t.cell[x], s) && Kid(u.cell[x], Opp(s)) == Kid(t.cell[y], s) && Kid(u.cell[y], s) == x
        && Kid(u.cell[y], Opp(s)) == Kid(t.cell[y], Opp(s))
      && SameAbove(t, h, Kid(t.cell[x], s), u, i, Kid(t.cell[x], s))
        && SameAbove(t, h, Kid(t.cell[y], s), u, i, Kid(t.cell[y], s))
      && (w == NULL ==> SameAbove(t, h, Kid(t.cell[y], Opp(s)), u, i, Kid(t.cell[y], Opp(s))))
      && (w != NULL ==> w in t.cell && w in u.cell && w in v.cell && u.cell[w] == t.cell[w].(red := v.cell[w].red))
      && (w != NULL ==>
          SameAbove(t, h, t.cell[w].left, u, i, t.cell[w].left)
          && SameAbove(t, h, t.cell[w].right, u, i, t.cell[w].right))
  {
    hide Shape, Rotated, SameAbove;
    TurnIs(t, g, v, h, i, x, s, w);
    TurnShape(t, g, v, h, i, x, s, w);
    var y, u := Kid(t.cell[x], Opp(s)), Rotated(v, x, s);
    assert v.cell[x] == t.cell[x].(red := v.cell[x].red) && v.cell[y] == t.cell[y].(red := v.cell[y].red);
    Apart(t, g, x, s, w);
    BelowSame(t, v, u, h, i, x, y, Kid(t.cell[y], s), t.cell[x].parent, s, w, Kid(t.cell[x], s));
    BelowSame(t, v, u, h, i, x, y, Kid(t.cell[y], s), t.cell[x].parent, s, w, Kid(t.cell[y], s));
    if w == NULL {
      BelowSame(t, v, u, h, i, x, y, Kid(t.cell[y], s), t.cell[x].parent, s, w, Kid(t.cell[y], Opp(s)));
    } else {
      assert v.cell[w] == t.cell[w].(red := v.cell[w].red);
      assert u.cell[w] == v.cell[w];
      BelowSame(t, v, u, h, i, x, y, Kid(t.cell[y], s), t.cell[x].parent, s, w, t.cell[w].left);
      BelowSame(t, v, u, h, i, x, y, Kid(t.cell[y], s), t.cell[x].parent, s, w, t.cell[w].right);
    }
  }

  ghost predicate Free(t: Tree, k: Ref, x: Ref, y: Ref) { k != NULL ==> k in t.cell && k != x && k != y }

  /** The nodes below a rotation are apart from those that change. */
  lemma Apart(t: Tree, g: Marks, x: Ref, s: Side, w: Ref)
    requires Shape(t, g) && x in t.cell && var y := Kid(t.cell[x], Opp(s));
        y != NULL && y in t.cell && (w == NULL || w == Kid(t.cell[y], Opp(s)))
    ensures var y := Kid(t.cell[x], Opp(s)); var a, z, b := Kid(t.cell[x], s), Kid(t.cell[y], s),
        Kid(t.cell[y], Opp(s));
      && Free(t, a, x, y) && Free(t, z, x, y) && Free(t, b, x, y)
      && (w != NULL ==> w in t.cell && w != a && w != z && w != x && w != y && w != t.cell[x].parent)
      && (w != NULL ==>
          Free(t, t.cell[w].left, x, y) && Free(t, t.cell[w].right, x, y) && t.cell[w].left != w
          && t.cell[w].right != w)
      && (t.cell[x].parent != NULL ==> t.cell[x].parent != a)
  {
    var y := Kid(t.cell[x], Opp(s));
    ReplaceReady(t, g, x);
    ReplaceReady(t, g, y);
    KidSpan(t, g, x, Opp(s));
    if Kid(t.cell[x], s) != NULL { KidSpan(t, g, x, s); }
    if Kid(t.cell[y], s) != NULL { KidSpan(t, g, y, s); }
    if Kid(t.cell[y], Opp(s)) != NULL { KidSpan(t, g, y, Opp(s)); }
    if w != NULL {
      ReplaceReady(t, g, w);
      if t.cell[w].left != NULL { KidSpan(t, g, w, L); }
      if t.cell[w].right != NULL { KidSpan(t, g, w, R); }
      SpanOf(t, g, x);
      SpanOf(t, g, y);
      SpanOf(t, g, w);
      if t.cell[x].parent == w { ParentSpans(t, g, x, w); }
    }
    hide Shape, NodeOk;
  }

  lemma ParentSpans(t: Tree, g: Marks, x: Ref, w: Ref)
    requires Shape(t, g) && x in t.cell && t.cell[x].parent == w && w != NULL
    ensures Known(t, g, w) && Known(t, g, x) && Within(g.span[x], g.span[w]) && g.span[x] != g.span[w]
  {
    ParentSide(t, g, x);
    SpanOf(t, g, x);
    if t.cell[w].left == x { KidSpan(t, g, w, L); } else { KidSpan(t, g, w, R); }
    SpanOf(t, g, w);
  }

  lemma BelowSame(t: Tree, v: Tree, u: Tree, h: map<Ref, int>, i: map<Ref, int>, x: Ref, y: Ref, z: Ref, p: Ref,
      s: Side, w: Ref, k: Ref)
    requires Around(t, v, u, x, y, z, p, s, w) && SameHeights(h, i, {x, y, w}) && k != x && k != y
        && (k != NULL ==> k != w && k in t.cell)
    ensures SameAbove(t, h, k, u, i, k)
  {
    if k == NULL {
      NullThere(t, h, u, i);
    } else {
      assert v.cell[k] == t.cell[k];
      if k != z && k != p { assert u.cell[k] == v.cell[k]; }
      SameThere(t, h, k, u, i);
    }
  }

  /** A rotation with new colours balances the tree, if it balances the nodes that it touches. */
  lemma TurnBal(t: Tree, g: Marks, v: Tree, h: map<Ref, int>, i: map<Ref, int>, e: Excuse, f: Excuse, x: Ref, s: Side,
      w: Ref)
    requires Turn(t, g, v, h, i, x, s, w) && Balanced(t, h, e) && e.side == f.side && e.loose == NULL
        && (e.lack == f.lack || (e.lack == x && f.lack == NULL))
    requires e.hot == NULL || (e.hot in t.cell
        && (t.cell[e.hot].parent == x || t.cell[e.hot].parent == Kid(t.cell[x], Opp(s))))
    requires CanRotate(v, x, s) && var u := Rotated(v, x, s);
        Bal(u, i, f, x) && Bal(u, i, f, Kid(t.cell[x], Opp(s))) && Bal(u, i, f, w)
    ensures Balanced(Rotated(v, x, s), i, f)
  {
    TurnShape(t, g, v, h, i, x, s, w);
    hide Turn, Shape, Bal, Rotated;
    forall n ensures Bal(Rotated(v, x, s), i, f, n) {
      if n != x && n != Kid(t.cell[x], Opp(s)) && n != w {
        if n == NULL || n !in t.cell {
          BalAway(t, g, v, h, i, f, x, s, w, n);
        } else {
          RotateBal(t, g, v, h, i, e, f, x, s, w, n);
        }
      }
    }
  }

  lemma BalAway(t: Tree, g: Marks, v: Tree, h: map<Ref, int>, i: map<Ref, int>, f: Excuse, x: Ref, s: Side, w: Ref,
      n: Ref)
    requires Turn(t, g, v, h, i, x, s, w) && (n == NULL || n !in t.cell) && CanRotate(v, x, s)
    ensures Bal(Rotated(v, x, s), i, f, n)
  {
    TurnShape(t, g, v, h, i, x, s, w);
    if n in t.cell { SpanOf(t, g, n); }
    hide Shape, Rotated;
  }
}
