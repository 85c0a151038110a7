/** Unlinking nodes of a red-black tree (tree.h). */
module RbRemove {
  import opened RbShape
  import opened RbEdit

  // ---- A node with at most one child gives its place to that child

  ghost predicate CanSplice(t: Tree, x: Ref, s: Side) {
    && x in t.cell && Kid(t.cell[x], s) == NULL
    && (var c := Kid(t.cell[x], Opp(s)); c != NULL ==> c in t.cell)
    && (t.cell[x].parent != NULL ==> t.cell[x].parent in t.cell)
  }

  ghost function Relinked(c: Cell, x: Ref, y: Ref): Cell { if c.left == x then c.(left := y) else c.(right := y) }

  ghost function Spliced(t: Tree, x: Ref, s: Side): Tree
    requires CanSplice(t, x, s)
  {
    var c, p := Kid(t.cell[x], Opp(s)), t.cell[x].parent;
    var c1 := if c != NULL then t.cell[c := t.cell[c].(parent := p)] else t.cell;
    var c2 := if p != NULL then c1[p := Relinked(c1[p], x, c)] else c1;
    Tree(c2 - {x}, if p == NULL then c else t.root, t.key)
  }

  /** Where x was a bound, its own bound on side s takes its place. */
  ghost function Moved(b: int, k: int, sp: Span, s: Side): int { if b != k then b else if s.L? then sp.lo else sp.hi }

  ghost function MovedSpan(a: Span, k: int, sp: Span, s: Side): Span {
    Span(Moved(a.lo, k, sp, s), Moved(a.hi, k, sp, s))
  }

  ghost function SplicedMarks(t: Tree, g: Marks, x: Ref, s: Side): Marks
    requires x in t.key && x in g.span
  {
    Marks(map n | n in g.span && n != x :: MovedSpan(g.span[n], t.key[x], g.span[x], s), g.all)
  }

  lemma SpliceReady(t: Tree, g: Marks, x: Ref, s: Side)
    requires Shape(t, g) && x in t.cell && Kid(t.cell[x], s) == NULL
    ensures CanSplice(t, x, s) && Known(t, g, x) && x != NULL && x in t.key && x in g.span
    ensures var c, p := Kid(t.cell[x], Opp(s)), t.cell[x].parent;
      && (c != NULL ==>
          Known(t, g, c) && c != x && t.cell[c].parent == x && g.span[c] == Part(g.span[x], t.key[x], Opp(s)))
      && (p != NULL ==>
          Known(t, g, p) && p != x && p != c && (t.cell[p].left == x || t.cell[p].right == x)
          && (t.cell[p].left == x <==> t.key[x] < t.key[p])
          && g.span[x] == Part(g.span[p], t.key[p], if t.cell[p].left == x then L else R))
      && (p == NULL ==> t.root == x && g.span[x] == g.all)
  {
    ShapeAt(t, g, x);
    var c, p := Kid(t.cell[x], Opp(s)), t.cell[x].parent;
    if c != NULL { ShapeAt(t, g, c); }
    if p != NULL { ShapeAt(t, g, p); }
    hide Shape, IsKey;
  }

  /** No bound is x itself on the side without a child. */
  lemma NoBound(t: Tree, g: Marks, x: Ref, s: Side, n: Ref)
    requires Shape(t, g) && x in t.cell && Kid(t.cell[x], s) == NULL && n in t.cell && n != x
    ensures Known(t, g, n) && Known(t, g, x) && (if s.L? then g.span[n].hi else g.span[n].lo) != t.key[x]
        && t.key[n] != t.key[x]
  {
    SpanOf(t, g, x);
    SpanOf(t, g, n);
    PairData(t, g, n, x);
    GapFree(t, g, x, s, n);
  }

  lemma SpliceShape(t: Tree, g: Marks, x: Ref, s: Side)
    requires Shape(t, g) && x in t.cell && Kid(t.cell[x], s) == NULL
    ensures CanSplice(t, x, s) && Known(t, g, x) && Shape(Spliced(t, x, s), SplicedMarks(t, g, x, s))
  {
    SpliceReady(t, g, x, s);
    var u, h := Spliced(t, x, s), SplicedMarks(t, g, x, s);
    forall n ensures NodeOk(u, h, n) { SpliceNode(t, g, x, s, n); }
    forall n, m ensures PairOk(u, h, n, m) { SplicePair(t, g, x, s, n, m); }
    SpliceRoot(t, g, x, s);
  }

  lemma SpliceRoot(t: Tree, g: Marks, x: Ref, s: Side)
    requires Shape(t, g) && x in t.cell && Kid(t.cell[x], s) == NULL && CanSplice(t, x, s)
    ensures var u := Spliced(t, x, s);
        if u.root == NULL then u.cell == map[] else u.root in u.cell && u.cell[u.root].parent == NULL
  {
    SpliceReady(t, g, x, s);
    var u := Spliced(t, x, s);
    var c, p := Kid(t.cell[x], Opp(s)), t.cell[x].parent;
    if p == NULL && c == NULL {
      forall n | n in t.cell ensures n == x {
        SpanOf(t, g, n);
        SpanOf(t, g, x);
        PairData(t, g, x, n);
      }
      assert u.cell == map[];
    } else if p != NULL {
      ShapeAt(t, g, t.root);
      ShapeAt(t, g, p);
    }
  }

  lemma FewerKeys(t: Tree, g: Marks, u: Tree, x: Ref)
    requires u.cell.Keys == t.cell.Keys - {x} && u.key == t.key && x in t.key
    ensures forall k {:trigger IsKey(u, k)} :: IsKey(t, k) && k != t.key[x] ==> IsKey(u, k)
  {
    forall k | IsKey(t, k) && k != t.key[x] ensures IsKey(u, k) {
      var n :| n in t.cell && n in t.key && t.key[n] == k;
      assert n in u.cell;
    }
  }

  lemma SpliceNode(t: Tree, g: Marks, x: Ref, s: Side, n: Ref)
    requires Shape(t, g) && x in t.cell && Kid(t.cell[x], s) == NULL && CanSplice(t, x, s) && Known(t, g, x)
    ensures NodeOk(Spliced(t, x, s), SplicedMarks(t, g, x, s), n)
  {
    SpliceReady(t, g, x, s);
    ShapeAt(t, g, x);
    var u, h := Spliced(t, x, s), SplicedMarks(t, g, x, s);
    FewerKeys(t, g, u, x);
    if n in u.cell {
      ShapeAt(t, g, n);
      NoBound(t, g, x, s, n);
      hide Shape, IsKey;
      SpliceKid(t, g, x, s, n, L);
      SpliceKid(t, g, x, s, n, R);
    }
  }

  /** What a splice does to one of the other nodes. */
  lemma SpliceData(t: Tree, g: Marks, x: Ref, s: Side, n: Ref)
    requires Shape(t, g) && x in t.cell && Kid(t.cell[x], s) == NULL && CanSplice(t, x, s) && Known(t, g, x)
    requires n in t.cell && n != x
    ensures var u, h := Spliced(t, x, s), SplicedMarks(t, g, x, s); var c, p := Kid(t.cell[x], Opp(s)),
        t.cell[x].parent;
      && u.key == t.key && n in u.cell && u.cell[n].parent == (if n == c && n != NULL then p else t.cell[n].parent)
        && n in u.key && n in h.span && n in g.span && x in g.span
        && h.span[n] == MovedSpan(g.span[n], t.key[x], g.span[x], s)
      && (if n != p then u.cell[n].left == t.cell[n].left && u.cell[n].right == t.cell[n].right
          else if t.cell[n].left == x then u.cell[n].left == c && u.cell[n].right == t.cell[n].right
          else u.cell[n].left == t.cell[n].left && u.cell[n].right == c)
  {
    SpliceReady(t, g, x, s);
    SpanOf(t, g, n);
  }

  lemma SpliceKid(t: Tree, g: Marks, x: Ref, s: Side, n: Ref, side: Side)
    requires Shape(t, g) && x in t.cell && Kid(t.cell[x], s) == NULL && CanSplice(t, x, s) && Known(t, g, x)
        && n in t.cell && n != x
    ensures Known(Spliced(t, x, s), SplicedMarks(t, g, x, s), n)
        && KidOk(Spliced(t, x, s), SplicedMarks(t, g, x, s), n, side)
  {
    SpliceReady(t, g, x, s);
    NoBound(t, g, x, s, n);
    SpanOf(t, g, n);
    SpanOf(t, g, x);
    SpliceData(t, g, x, s, n);
    var k, c := Kid(t.cell[n], side), Kid(t.cell[x], Opp(s));
    if k != NULL {
      KidSpan(t, g, n, side);
      SpanOf(t, g, k);
      if k != x { NoBound(t, g, x, s, k); SpliceData(t, g, x, s, k); }
    }
    if c != NULL { SpliceData(t, g, x, s, c); }
    hide Shape, NodeOk, Spliced, SplicedMarks;
  }

  lemma SplicePair(t: Tree, g: Marks, x: Ref, s: Side, n: Ref, m: Ref)
    requires Shape(t, g) && x in t.cell && Kid(t.cell[x], s) == NULL && CanSplice(t, x, s) && Known(t, g, x)
    ensures PairOk(Spliced(t, x, s), SplicedMarks(t, g, x, s), n, m)
  {
    hide *;
    SpliceReady(t, g, x, s);
    var u, h := Spliced(t, x, s), SplicedMarks(t, g, x, s);
    if !(n in t.cell && m in t.cell && n != x && m != x && n != m) {
      SpliceNone(t, g, x, s, n, m);
      return;
    }
    NoBound(t, g, x, s, n);
    NoBound(t, g, x, s, m);
    PairData(t, g, n, m);
    PairData(t, g, n, x);
    PairData(t, g, m, x);
    SpliceData(t, g, x, s, n);
    SpliceData(t, g, x, s, m);
    var xl, xr, nl, nr := t.cell[x].left != NULL, t.cell[x].right != NULL, t.cell[n].left != NULL,
        t.cell[n].right != NULL;
    XKids(t.cell[x], s);
    SpliceOrdered(g.span[n], t.key[n], nl, nr, g.span[m], t.key[m], t.cell[m].left != NULL, t.cell[m].right != NULL,
        g.span[x], t.key[x], xl, xr, s);
    if n == t.cell[x].parent {
      SpliceParent(g.span[n], t.key[n], nl, nr, g.span[m], t.key[m], g.span[x], t.key[x], xl, xr, s, if t.cell[n].left
          == x then L else R);
    }
    PairFold(u, h, n, m);
  }

  lemma XKids(c: Cell, s: Side)
    ensures Kid(c, s) == (if s.L? then c.left else c.right) && Kid(c, Opp(s)) == (if s.L? then c.right else c.left)
  {
  }

  lemma SpliceNone(t: Tree, g: Marks, x: Ref, s: Side, n: Ref, m: Ref)
    requires CanSplice(t, x, s) && Known(t, g, x) && !(n in t.cell && m in t.cell && n != x && m != x && n != m)
    ensures PairOk(Spliced(t, x, s), SplicedMarks(t, g, x, s), n, m)
  {
  }

  lemma SpliceOrdered(a: Span, j: int, al: bool, ar: bool, b: Span, k: int, bl: bool, br: bool, d: Span, i: int,
      dl: bool, dr: bool, s: Side)
    requires Ordered(a, j, al, ar, b, k) && Ordered(a, j, al, ar, d, i) && Ordered(d, i, dl, dr, a, j)
        && Ordered(b, k, bl, br, d, i) && Ordered(d, i, dl, dr, b, k)
    requires Contains(a, j) && Contains(b, k) && Contains(d, i) && !(if s.L? then dl else dr)
    requires (if s.L? then a.hi else a.lo) != i && (if s.L? then b.hi else b.lo) != i
    ensures Ordered(MovedSpan(a, i, d, s), j, al, ar, MovedSpan(b, i, d, s), k)
  {
  }

  lemma SpliceParent(a: Span, j: int, al: bool, ar: bool, b: Span, k: int, d: Span, i: int, dl: bool, dr: bool, s: Side,
      side: Side)
    requires Ordered(MovedSpan(a, i, d, s), j, al, ar, MovedSpan(b, i, d, s), k) && Ordered(d, i, dl, dr, b, k)
        && d == Part(a, j, side) && Contains(d, i)
    requires !(if s.L? then dl else dr)
    ensures var c := if s.L? then dr else dl;
      Ordered(MovedSpan(a, i, d, s), j, if side.L? then c else al, if side.L? then ar else c, MovedSpan(b, i, d, s), k)
  {
  }

  // ---- A node takes the place of another that is next to it in the order

  ghost predicate CanReplace(t: Tree, x: Ref) {
    && x in t.cell && (t.cell[x].parent != NULL ==> t.cell[x].parent in t.cell)
    && (t.cell[x].left != NULL ==> t.cell[x].left in t.cell) && (t.cell[x].right != NULL ==> t.cell[x].right in t.cell)
  }

  ghost function Replaced(t: Tree, x: Ref, y: Ref): Tree
    requires CanReplace(t, x)
  {
    var p, l, r := t.cell[x].parent, t.cell[x].left, t.cell[x].right;
    var c1 := t.cell[y := t.cell[x]];
    var c2 := if p != NULL then c1[p := Relinked(c1[p], x, y)] else c1;
    var c3 := if l != NULL then c2[l := c2[l].(parent := y)] else c2;
    var c4 := if r != NULL then c3[r := c3[r].(parent := y)] else c3;
    Tree(c4 - {x}, if p == NULL then y else t.root, t.key)
  }

  ghost function Swap(b: int, j: int, k: int): int { if b == j then k else b }

  ghost function SwapSpan(a: Span, j: int, k: int): Span { Span(Swap(a.lo, j, k), Swap(a.hi, j, k)) }

  ghost function ReplacedMarks(t: Tree, g: Marks, x: Ref, y: Ref): Marks
    requires x in t.key && y in t.key && x in g.span
  {
    Marks(map n | n in (g.span.Keys - {x}) + {y} :: SwapSpan(if n == y then g.span[x] else g.span[n], t.key[x],
        t.key[y]), g.all)
  }

  /** The value b does not tell j and k apart. */
  ghost predicate Clear(b: int, j: int, k: int) { b <= j || k < b }

  /** Key k, not in the tree, comes right after key j. */
  ghost predicate Follows(t: Tree, g: Marks, j: int, k: int) {
    && j < k < g.all.hi
    && forall n {:trigger n in t.cell} :: n in t.cell ==>
        n in t.key && n in g.span && Clear(t.key[n], j, k) && Clear(g.span[n].lo, j, k) && Clear(g.span[n].hi, j, k)
  }

  lemma ReplaceReady(t: Tree, g: Marks, x: Ref)
    requires Shape(t, g) && x in t.cell
    ensures CanReplace(t, x) && Known(t, g, x) && x != NULL
    ensures var p, l, r := t.cell[x].parent, t.cell[x].left, t.cell[x].right;
      && (p != NULL ==> p != x && p != l && p != r) && (l != NULL ==> l != x && l != r) && (r != NULL ==> r != x)
  {
    ShapeAt(t, g, x);
    if t.cell[x].parent != NULL { ShapeAt(t, g, t.cell[x].parent); }
    if t.cell[x].left != NULL { ShapeAt(t, g, t.cell[x].left); }
    if t.cell[x].right != NULL { ShapeAt(t, g, t.cell[x].right); }
    hide Shape, IsKey;
  }

  /** What a replacement does to one of the nodes. */
  lemma ReplaceCells(t: Tree, g: Marks, x: Ref, y: Ref, n: Ref)
    requires Shape(t, g) && x in t.cell && y !in t.cell && y in t.key && y != NULL
    ensures CanReplace(t, x) && Known(t, g, x) && x != y
    ensures var u, h := Replaced(t, x, y), ReplacedMarks(t, g, x, y);
      && u.key == t.key && u.cell.Keys == t.cell.Keys - {x} + {y} && h.all == g.all
        && u.root == (if t.cell[x].parent == NULL then y else t.root)
      && y in h.span && h.span[y] == SwapSpan(g.span[x], t.key[x], t.key[y]) && u.cell[y] == t.cell[x]
      && (n in t.cell && n != x ==>
          n in g.span && n in h.span && h.span[n] == SwapSpan(g.span[n], t.key[x], t.key[y])
          && u.cell[n] == ReplacedCell(t, x, y, n))
  {
    ReplaceReady(t, g, x);
    if n in t.cell { SpanOf(t, g, n); }
    hide Shape;
  }

  ghost function ReplacedCell(t: Tree, x: Ref, y: Ref, n: Ref): Cell
    requires x in t.cell && n in t.cell
  {
    if n == t.cell[x].parent && n != NULL then Relinked(t.cell[n], x, y)
    else if n != NULL && (n == t.cell[x].left || n == t.cell[x].right) then t.cell[n].(parent := y)
    else t.cell[n]
  }

  lemma ReplaceShape(t: Tree, g: Marks, x: Ref, y: Ref)
    requires Shape(t, g) && x in t.cell && y !in t.cell && y in t.key && y != NULL && x in t.key
        && Follows(t, g, t.key[x], t.key[y])
    ensures CanReplace(t, x) && x in g.span && Shape(Replaced(t, x, y), ReplacedMarks(t, g, x, y))
  {
    ReplaceCells(t, g, x, y, t.root);
    ShapeAt(t, g, x);
    forall n ensures NodeOk(Replaced(t, x, y), ReplacedMarks(t, g, x, y), n) { ReplaceNode(t, g, x, y, n); }
    forall n, m ensures PairOk(Replaced(t, x, y), ReplacedMarks(t, g, x, y), n, m) { ReplacePair(t, g, x, y, n, m); }
    ShapeAt(t, g, t.root);
  }

  lemma SwapKeys(t: Tree, u: Tree, x: Ref, y: Ref)
    requires u.cell.Keys == t.cell.Keys - {x} + {y} && u.key == t.key && x in t.key && y in t.key
    ensures forall k {:trigger IsKey(u, Swap(k, t.key[x], t.key[y]))} ::
        IsKey(t, k) ==> IsKey(u, Swap(k, t.key[x], t.key[y]))
  {
    forall k | IsKey(t, k) ensures IsKey(u, Swap(k, t.key[x], t.key[y])) {
      if k == t.key[x] { assert y in u.cell; } else {
        var n :| n in t.cell && n in t.key && t.key[n] == k;
        assert n in u.cell;
      }
    }
  }

  lemma ReplaceNode(t: Tree, g: Marks, x: Ref, y: Ref, n: Ref)
    requires Shape(t, g) && x in t.cell && y !in t.cell && y in t.key && y != NULL && x in t.key
        && Follows(t, g, t.key[x], t.key[y])
    ensures CanReplace(t, x) && x in g.span && NodeOk(Replaced(t, x, y), ReplacedMarks(t, g, x, y), n)
  {
    ReplaceCells(t, g, x, y, n);
    var u, h := Replaced(t, x, y), ReplacedMarks(t, g, x, y);
    if n in u.cell {
      var o := if n == y then x else n;
      ShapeAt(t, g, o);
      SwapKeys(t, u, x, y);
      ReplaceKid(t, g, x, y, o, L);
      ReplaceKid(t, g, x, y, o, R);
      ReplaceParent(t, g, x, y, o);
      hide Shape, IsKey, KidOk, Replaced;
      assert IsKey(u, Swap(g.span[o].lo, t.key[x], t.key[y])) || g.span[o].lo == g.all.lo;
      assert IsKey(u, Swap(g.span[o].hi, t.key[x], t.key[y])) || g.span[o].hi == g.all.hi;
    }
  }

  lemma ReplaceKid(t: Tree, g: Marks, x: Ref, y: Ref, n: Ref, s: Side)
    requires Shape(t, g) && n in t.cell && x in t.cell && y !in t.cell && y in t.key && y != NULL && x in t.key
        && Follows(t, g, t.key[x], t.key[y])
    ensures CanReplace(t, x) && x in g.span
    ensures var u, h := Replaced(t, x, y), ReplacedMarks(t, g, x, y);
        var o := if n == x then y else n; Known(u, h, o) && KidOk(u, h, o, s)
  {
    ReplaceCells(t, g, x, y, n);
    ReplaceReady(t, g, x);
    SpanOf(t, g, n);
    var k := Kid(t.cell[n], s);
    if n == x {
      hide Shape, NodeOk, IsKey, Replaced, ReplacedMarks, Follows;
      if k != NULL {
        KidSpan(t, g, n, s);
        ReplaceCells(t, g, x, y, k);
      }
    } else {
      ReplaceOtherKid(t, g, x, y, n, s);
    }
  }

  lemma KeysDiffer(t: Tree, g: Marks, n: Ref, m: Ref)
    requires Shape(t, g) && Known(t, g, n) && Known(t, g, m) && n != m
    ensures t.key[n] != t.key[m]
  {
    OrderedAt(t, g, n, m);
  }

  lemma ReplaceOtherKid(t: Tree, g: Marks, x: Ref, y: Ref, n: Ref, s: Side)
    requires Shape(t, g) && n in t.cell && n != x && x in t.cell && y !in t.cell && y in t.key && y != NULL
        && x in t.key
    ensures CanReplace(t, x) && x in g.span
    ensures var u, h := Replaced(t, x, y), ReplacedMarks(t, g, x, y); Known(u, h, n) && KidOk(u, h, n, s)
  {
    ReplaceCells(t, g, x, y, n);
    ReplaceReady(t, g, n);
    SpanOf(t, g, n);
    SpanOf(t, g, x);
    KeysDiffer(t, g, n, x);
    if t.cell[x].left != NULL { KidSpan(t, g, x, L); }
    if t.cell[x].right != NULL { KidSpan(t, g, x, R); }
    if t.cell[x].parent != NULL { ParentSide(t, g, x); }
    var k := Kid(t.cell[n], s);
    if k != NULL {
      KidSpan(t, g, n, s);
      ReplaceCells(t, g, x, y, k);
      if Kid(t.cell[n], Opp(s)) != NULL { KidSpan(t, g, n, Opp(s)); }
    }
    hide Shape, NodeOk, IsKey, Replaced, ReplacedMarks, Ordered, Contains, Within;
    if k == x {
      assert n == t.cell[x].parent;
    } else if k != NULL {
      assert ReplacedCell(t, x, y, k).parent == n;
      assert Kid(ReplacedCell(t, x, y, n), s) == k;
    }
  }

  lemma RootOnly(t: Tree, g: Marks, n: Ref)
    requires Shape(t, g) && n in t.cell
    ensures n in g.span && (t.cell[n].parent == NULL <==> n == t.root) && (n == t.root ==> g.span[n] == g.all)
  {
    ShapeAt(t, g, n);
  }

  lemma ReplaceParent(t: Tree, g: Marks, x: Ref, y: Ref, n: Ref)
    requires Shape(t, g) && n in t.cell && x in t.cell && y !in t.cell && y in t.key && y != NULL && x in t.key
        && Follows(t, g, t.key[x], t.key[y])
    ensures CanReplace(t, x) && x in g.span
    ensures var u, h := Replaced(t, x, y), ReplacedMarks(t, g, x, y);
        var o := if n == x then y else n; o in u.cell && var p := u.cell[o].parent;
      if p == NULL then u.root == o && h.span[o] == h.all
      else u.root != o && Known(u, h, p) && (u.cell[p].left == o || u.cell[p].right == o)
  {
    ReplaceCells(t, g, x, y, n);
    ReplaceReady(t, g, x);
    RootOnly(t, g, n);
    RootOnly(t, g, x);
    SpanOf(t, g, n);
    SpanOf(t, g, x);
    if t.cell[x].left != NULL { KidSpan(t, g, x, L); }
    if t.cell[x].right != NULL { KidSpan(t, g, x, R); }
    if t.cell[x].parent != NULL { ParentSide(t, g, x); }
    var p := t.cell[n].parent;
    hide Shape, NodeOk, IsKey, Replaced, ReplacedMarks, Follows;
    if p != NULL {
      ParentSide(t, g, n);
      SpanOf(t, g, p);
      ReplaceReady(t, g, p);
      ReplaceCells(t, g, x, y, p);
    }
  }

  lemma ReplacePair(t: Tree, g: Marks, x: Ref, y: Ref, n: Ref, m: Ref)
    requires Shape(t, g) && x in t.cell && y !in t.cell && y in t.key && y != NULL && x in t.key
        && Follows(t, g, t.key[x], t.key[y])
    ensures CanReplace(t, x) && x in g.span && PairOk(Replaced(t, x, y), ReplacedMarks(t, g, x, y), n, m)
  {
    hide *;
    ReplaceData(t, g, x, y, n);
    ReplaceData(t, g, x, y, m);
    var u, h := Replaced(t, x, y), ReplacedMarks(t, g, x, y);
    if n in u.cell && m in u.cell && n != m {
      var o, q := if n == y then x else n, if m == y then x else m;
      PairData(t, g, o, q);
      SwapOrdered(g.span[o], t.key[o], t.cell[o].left != NULL, t.cell[o].right != NULL, g.span[q], t.key[q], t.key[x],
          t.key[y]);
      PairFold(u, h, n, m);
    } else {
      PairNot(u, h, n, m);
    }
  }

  lemma PairNot(t: Tree, g: Marks, n: Ref, m: Ref)
    requires !(n in t.cell && m in t.cell && n != m)
    ensures PairOk(t, g, n, m)
  {
  }

  /** What the order of the nodes depends on, after a replacement. */
  lemma ReplaceData(t: Tree, g: Marks, x: Ref, y: Ref, n: Ref)
    requires Shape(t, g) && x in t.cell && y !in t.cell && y in t.key && y != NULL && x in t.key
        && Follows(t, g, t.key[x], t.key[y])
    ensures CanReplace(t, x) && x in g.span && t.key[x] < t.key[y]
    ensures var u, h := Replaced(t, x, y), ReplacedMarks(t, g, x, y); n in u.cell ==>
      var o := if n == y then x else n;
      && n != x && Known(t, g, o) && o in t.cell && o in t.key && o in g.span && n in u.key && n in h.span
        && u.key == t.key
      && t.key[n] == Swap(t.key[o], t.key[x], t.key[y]) && h.span[n] == SwapSpan(g.span[o], t.key[x], t.key[y])
      && (u.cell[n].left != NULL <==> t.cell[o].left != NULL) && (u.cell[n].right != NULL <==> t.cell[o].right != NULL)
      && Clear(t.key[o], t.key[x], t.key[y]) && Clear(g.span[o].lo, t.key[x], t.key[y])
        && Clear(g.span[o].hi, t.key[x], t.key[y])
  {
    ReplaceCells(t, g, x, y, n);
    ReplaceReady(t, g, x);
    var o := if n == y then x else n;
    if o in t.cell {
      SpanOf(t, g, o);
      SpanOf(t, g, x);
      OrderedAt(t, g, o, x);
      if t.cell[x].parent != NULL { ParentSide(t, g, x); }
    }
    hide Shape, Replaced, ReplacedMarks;
  }

  lemma SwapOrdered(a: Span, i: int, left: bool, right: bool, b: Span, l: int, j: int, k: int)
    requires Ordered(a, i, left, right, b, l) && j < k && Clear(i, j, k) && Clear(l, j, k) && Clear(a.lo, j, k)
        && Clear(a.hi, j, k) && Clear(b.lo, j, k) && Clear(b.hi, j, k)
    ensures Ordered(SwapSpan(a, j, k), Swap(i, j, k), left, right, SwapSpan(b, j, k), Swap(l, j, k))
  {
  }
}
