/** How nodes enter and leave the links of a red-black tree (tree.h). */
module RbEdit {
  import opened RbShape

  // ---- Colours and bounds do not matter for the shape

  ghost function Painted(t: Tree, n: Ref, red: bool): Tree
    requires n in t.cell
  {
    t.(cell := t.cell[n := t.cell[n].(red := red)])
  }

  lemma PaintShape(t: Tree, g: Marks, n: Ref, red: bool)
    requires Shape(t, g) && n in t.cell
    ensures Shape(Painted(t, n, red), g)
  {
    var u := Painted(t, n, red);
    SameKeys(t, u);
    forall m ensures NodeOk(u, g, m) { ShapeAt(t, g, m); hide IsKey; }
    forall m, o ensures PairOk(u, g, m, o) { ShapePair(t, g, m, o); hide Ordered; }
  }

  function Least(a: int, b: int): int { if a < b then a else b }

  function Greatest(a: int, b: int): int { if a < b then b else a }

  /** The same spans when the whole tree may also hold the key k. */
  ghost function Widened(g: Marks, k: int): Marks {
    var lo, hi := Least(g.all.lo, k - 1), Greatest(g.all.hi, k + 1);
    Marks(map n | n in g.span :: Span(if g.span[n].lo == g.all.lo then lo else g.span[n].lo, if g.span[n].hi
        == g.all.hi then hi else g.span[n].hi), Span(lo, hi))
  }

  lemma WidenShape(t: Tree, g: Marks, k: int)
    requires Shape(t, g)
    ensures Shape(t, Widened(g, k)) && Contains(Widened(g, k).all, k)
  {
    var h := Widened(g, k);
    forall n ensures NodeOk(t, h, n) { WidenNode(t, g, k, n); }
    forall n, m ensures PairOk(t, h, n, m) {
      ShapeAt(t, g, n);
      ShapeAt(t, g, m);
      ShapePair(t, g, n, m);
    }
  }

  lemma WidenNode(t: Tree, g: Marks, k: int, n: Ref)
    requires Shape(t, g)
    ensures NodeOk(t, Widened(g, k), n)
  {
    ShapeAt(t, g, n);
    hide Shape, IsKey;
    if n in t.cell {
      WidenKid(t, g, k, n, L);
      WidenKid(t, g, k, n, R);
    }
  }

  lemma WidenKid(t: Tree, g: Marks, k: int, n: Ref, s: Side)
    requires Known(t, g, n) && KidOk(t, g, n, s) && Contains(g.span[n], t.key[n]) && Within(g.span[n], g.all)
    ensures KidOk(t, Widened(g, k), n, s)
  {
  }

  // ---- A new leaf

  /** The place for key k: below p on side s, which is free; or the root of the empty tree. */
  ghost predicate Gap(t: Tree, g: Marks, p: Ref, s: Side, k: int) {
    if p == NULL then t.root == NULL && Contains(g.all, k)
    else Known(t, g, p) && Kid(t.cell[p], s) == NULL && Contains(Part(g.span[p], t.key[p], s), k)
  }

  ghost function Attached(t: Tree, p: Ref, s: Side, x: Ref): Tree
    requires p != NULL ==> p in t.cell
  {
    var c := t.cell[x := Cell(NULL, NULL, p, true)];
    if p == NULL then Tree(c, x, t.key) else Tree(c[p := WithKid(c[p], s, x)], t.root, t.key)
  }

  ghost function AttachedMarks(t: Tree, g: Marks, p: Ref, s: Side, x: Ref): Marks
    requires p != NULL ==> p in g.span && p in t.key
  {
    g.(span := g.span[x := if p == NULL then g.all else Part(g.span[p], t.key[p], s)])
  }

  lemma AttachShape(t: Tree, g: Marks, p: Ref, s: Side, x: Ref)
    requires Shape(t, g) && x != NULL && x !in t.cell && x in t.key && Gap(t, g, p, s, t.key[x])
    ensures Shape(Attached(t, p, s, x), AttachedMarks(t, g, p, s, x))
  {
    var u, h := Attached(t, p, s, x), AttachedMarks(t, g, p, s, x);
    if p == NULL {
      assert forall n :: NodeOk(u, h, n);
      assert forall n, m :: PairOk(u, h, n, m);
    } else {
      SpanOf(t, g, p);
      forall n ensures NodeOk(u, h, n) { AttachNode(t, g, p, s, x, n); }
      forall n, m ensures PairOk(u, h, n, m) { AttachPair(t, g, p, s, x, n, m); }
    }
  }

  lemma MoreKeys(t: Tree, u: Tree)
    requires t.cell.Keys <= u.cell.Keys && u.key == t.key
    ensures forall k {:trigger IsKey(u, k)} :: IsKey(t, k) ==> IsKey(u, k)
  {
  }

  lemma AttachNode(t: Tree, g: Marks, p: Ref, s: Side, x: Ref, n: Ref)
    requires Shape(t, g) && x != NULL && x !in t.cell && x in t.key && Gap(t, g, p, s, t.key[x]) && p != NULL && p != x
    ensures NodeOk(Attached(t, p, s, x), AttachedMarks(t, g, p, s, x), n)
  {
    ShapeAt(t, g, n);
    ShapeAt(t, g, p);
    MoreKeys(t, Attached(t, p, s, x));
    assert IsKey(t, t.key[p]);
    hide Shape, IsKey;
  }

  /** No key of the tree, and no end of a span, lies in a gap. */
  lemma GapFree(t: Tree, g: Marks, p: Ref, s: Side, n: Ref)
    requires Shape(t, g) && Known(t, g, p) && Kid(t.cell[p], s) == NULL && n in t.cell
    ensures Known(t, g, n) && var gap := Part(g.span[p], t.key[p], s);
      && !Contains(gap, t.key[n]) && !Contains(gap, g.span[n].lo) && !Contains(gap, g.span[n].hi)
  {
    SpanOf(t, g, p);
    ShapeAt(t, g, n);
    var gap := Part(g.span[p], t.key[p], s);
    forall m | m in t.cell ensures m in t.key && !Contains(gap, t.key[m]) {
      SpanOf(t, g, m);
      OrderedAt(t, g, p, m);
    }
  }

  lemma AttachPair(t: Tree, g: Marks, p: Ref, s: Side, x: Ref, n: Ref, m: Ref)
    requires Shape(t, g) && x != NULL && x !in t.cell && x in t.key && Gap(t, g, p, s, t.key[x]) && p != NULL && p != x
    ensures PairOk(Attached(t, p, s, x), AttachedMarks(t, g, p, s, x), n, m)
  {
    var u, h := Attached(t, p, s, x), AttachedMarks(t, g, p, s, x);
    if Known(u, h, n) && Known(u, h, m) && n != m {
      if n == x {
        AttachOne(t, g, p, s, x, m);
      } else if m == x {
        AttachOne(t, g, p, s, x, n);
      } else {
        hide Shape, Ordered, Contains, Within;
        PairData(t, g, n, m);
        AttachKids(g.span[n], t.key[n], t.cell[n].left != NULL, t.cell[n].right != NULL, g.span[m], t.key[m]);
      }
    }
  }

  lemma AttachKids(a: Span, j: int, left: bool, right: bool, b: Span, k: int)
    requires Ordered(a, j, left, right, b, k)
    ensures Ordered(a, j, true, right, b, k) && Ordered(a, j, left, true, b, k)
  {
  }

  lemma AttachOne(t: Tree, g: Marks, p: Ref, s: Side, x: Ref, n: Ref)
    requires Shape(t, g) && x != NULL && x !in t.cell && x in t.key && Gap(t, g, p, s, t.key[x]) && p != NULL && p != x
        && n in t.cell
    ensures PairOk(Attached(t, p, s, x), AttachedMarks(t, g, p, s, x), n, x)
    ensures PairOk(Attached(t, p, s, x), AttachedMarks(t, g, p, s, x), x, n)
  {
    SpanOf(t, g, p);
    SpanOf(t, g, n);
    PairData(t, g, n, p);
    GapFree(t, g, p, s, n);
    hide Shape, IsKey;
    var u, h := Attached(t, p, s, x), AttachedMarks(t, g, p, s, x);
    assert u.cell[x] == Cell(NULL, NULL, p, true) && (n != p ==> u.cell[n] == t.cell[n]);
    if n != p {
      GapOrdered(g.span[p], t.key[p], t.cell[p].left != NULL, t.cell[p].right != NULL, g.span[n], t.key[n],
          t.cell[n].left != NULL, t.cell[n].right != NULL, t.key[x], s);
    }
  }

  lemma GapOrdered(a: Span, j: int, al: bool, ar: bool, b: Span, k: int, bl: bool, br: bool, i: int, s: Side)
    requires Ordered(a, j, al, ar, b, k) && Ordered(b, k, bl, br, a, j) && Contains(a, j) && Contains(b, k)
        && !(if s.L? then al else ar)
    requires Contains(Part(a, j, s), i) && !Contains(Part(a, j, s), k) && !Contains(Part(a, j, s), b.lo)
        && !Contains(Part(a, j, s), b.hi)
    ensures Ordered(b, k, bl, br, Part(a, j, s), i) && Ordered(Part(a, j, s), i, false, false, b, k)
  {
  }
}
