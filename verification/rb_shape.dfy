/** The links of a red-black tree (tree.h): search order, parent links and rotations. */
module RbShape {

  type Ref = int

  const NULL: Ref := 0

  datatype Side = L | R

  function Opp(s: Side): Side { if s.L? then R else L }

  datatype Cell = Cell(left: Ref, right: Ref, parent: Ref, red: bool)

  function Kid(c: Cell, s: Side): Ref { if s.L? then c.left else c.right }

  function WithKid(c: Cell, s: Side, x: Ref): Cell { if s.L? then c.(left := x) else c.(right := x) }

  /** The nodes of a tree, its root and the key of each node. */
  datatype Tree = Tree(cell: map<Ref, Cell>, root: Ref, key: map<Ref, int>)

  /** An open interval of keys. */
  datatype Span = Span(lo: int, hi: int)

  ghost predicate Contains(sp: Span, k: int) { sp.lo < k < sp.hi }

  ghost predicate Within(a: Span, b: Span) { b.lo <= a.lo && a.hi <= b.hi }

  /** The part of a span on one side of a key. */
  ghost function Part(sp: Span, k: int, s: Side): Span { if s.L? then Span(sp.lo, k) else Span(k, sp.hi) }

  /** The span of every subtree, and of the whole tree: the keys it may hold lie between two keys above it. */
  datatype Marks = Marks(span: map<Ref, Span>, all: Span)

  ghost predicate IsKey(t: Tree, k: int) { exists n :: n in t.cell && n in t.key && t.key[n] == k }

  ghost predicate Known(t: Tree, g: Marks, n: Ref) { n in t.cell && n in t.key && n in g.span }

  ghost predicate KidOk(t: Tree, g: Marks, n: Ref, s: Side)
    requires Known(t, g, n)
  {
    var x := Kid(t.cell[n], s);
    x != NULL ==> Known(t, g, x) && t.cell[x].parent == n && g.span[x] == Part(g.span[n], t.key[n], s)
  }

  ghost predicate NodeOk(t: Tree, g: Marks, n: Ref) {
    n in t.cell ==>
      && Known(t, g, n) && n != NULL && Contains(g.span[n], t.key[n]) && Within(g.span[n], g.all)
      && KidOk(t, g, n, L) && KidOk(t, g, n, R)
      && (var p := t.cell[n].parent;
          if p == NULL then t.root == n && g.span[n] == g.all
          else t.root != n && Known(t, g, p) && (t.cell[p].left == n || t.cell[p].right == n))
      && (g.span[n].lo == g.all.lo || IsKey(t, g.span[n].lo)) && (g.span[n].hi == g.all.hi || IsKey(t, g.span[n].hi))
  }

  /**
   * Two subtrees, with their keys and what children they have: either one lies on one side of the other, or they are
   * apart.
   */
  ghost predicate Ordered(a: Span, j: int, left: bool, right: bool, b: Span, k: int) {
    && j != k
    && (Contains(a, k) ==> if k < j then left && Within(b, Part(a, j, L)) else right && Within(b, Part(a, j, R)))
    && (k == a.hi ==> b.lo < j)
    && (k == a.lo ==> j < b.hi)
  }

  ghost predicate PairOk(t: Tree, g: Marks, n: Ref, m: Ref) {
    Known(t, g, n) && Known(t, g, m) && n != m ==>
      Ordered(g.span[n], t.key[n], t.cell[n].left != NULL, t.cell[n].right != NULL, g.span[m], t.key[m])
  }

  /** Consistent links, and search order. */
  ghost predicate Shape(t: Tree, g: Marks) {
    && (if t.root == NULL then t.cell == map[] else t.root in t.cell && t.cell[t.root].parent == NULL)
    && (forall n {:trigger NodeOk(t, g, n)} :: NodeOk(t, g, n))
    && (forall n, m {:trigger PairOk(t, g, n, m)} :: PairOk(t, g, n, m))
  }

  lemma ShapeAt(t: Tree, g: Marks, n: Ref)
    requires Shape(t, g)
    ensures NodeOk(t, g, n)
  {
  }

  lemma ShapePair(t: Tree, g: Marks, n: Ref, m: Ref)
    requires Shape(t, g)
    ensures PairOk(t, g, n, m) && PairOk(t, g, m, n)
  {
  }

  lemma SpanOf(t: Tree, g: Marks, n: Ref)
    requires Shape(t, g) && n in t.cell
    ensures Known(t, g, n) && Contains(g.span[n], t.key[n]) && n != NULL && Within(g.span[n], g.all)
  {
    ShapeAt(t, g, n);
  }

  lemma KidSpan(t: Tree, g: Marks, n: Ref, s: Side)
    requires Shape(t, g) && n in t.cell && Kid(t.cell[n], s) != NULL
    ensures var x := Kid(t.cell[n], s);
        Known(t, g, n) && Known(t, g, x) && t.cell[x].parent == n && g.span[x] == Part(g.span[n], t.key[n], s)
  {
    ShapeAt(t, g, n);
  }

  lemma OrderedAt(t: Tree, g: Marks, n: Ref, m: Ref)
    requires Shape(t, g) && Known(t, g, n) && Known(t, g, m)
    ensures n != m ==> Ordered(g.span[n], t.key[n], t.cell[n].left != NULL, t.cell[n].right != NULL, g.span[m],
        t.key[m])
    ensures n != m ==> Ordered(g.span[m], t.key[m], t.cell[m].left != NULL, t.cell[m].right != NULL, g.span[n],
        t.key[n])
  {
    ShapePair(t, g, n, m);
  }

  // ---- Rotations

  ghost predicate CanRotate(t: Tree, x: Ref, s: Side) {
    && x in t.cell && Kid(t.cell[x], Opp(s)) != NULL && Kid(t.cell[x], Opp(s)) in t.cell
    && (var z := Kid(t.cell[Kid(t.cell[x], Opp(s))], s); z != NULL ==> z in t.cell)
    && (t.cell[x].parent != NULL ==> t.cell[x].parent in t.cell)
  }

  /** The tree after x and its child on the other side have rotated to side s. */
  ghost function Rotated(t: Tree, x: Ref, s: Side): Tree
    requires CanRotate(t, x, s)
  {
    var y := Kid(t.cell[x], Opp(s));
    var z, p := Kid(t.cell[y], s), t.cell[x].parent;
    var c1 := t.cell[x := WithKid(t.cell[x], Opp(s), z)];
    var c2 := if z != NULL then c1[z := c1[z].(parent := x)] else c1;
    var c3 := c2[y := c2[y].(parent := p)];
    var c4 := if p == NULL then c3 else if c3[p].left == x then c3[p := c3[p].(left := y)]
        else c3[p := c3[p].(right := y)];
    var c5 := c4[y := WithKid(c4[y], s, x)];
    var c6 := c5[x := c5[x].(parent := y)];
    Tree(c6, if p == NULL then y else t.root, t.key)
  }

  ghost function RotatedMarks(t: Tree, g: Marks, x: Ref, s: Side): Marks
    requires CanRotate(t, x, s) && Known(t, g, x) && Kid(t.cell[x], Opp(s)) in t.key
  {
    var y := Kid(t.cell[x], Opp(s));
    Marks(g.span[y := g.span[x]][x := Part(g.span[x], t.key[y], s)], g.all)
  }

  lemma RotateReady(t: Tree, g: Marks, x: Ref, s: Side)
    requires Shape(t, g) && x in t.cell && Kid(t.cell[x], Opp(s)) != NULL
    ensures CanRotate(t, x, s) && Known(t, g, x) && Known(t, g, Kid(t.cell[x], Opp(s)))
  {
    ShapeAt(t, g, x);
    ShapeAt(t, g, Kid(t.cell[x], Opp(s)));
  }

  /** What a rotation does to each node. */
  ghost predicate RotateCells(t: Tree, u: Tree, x: Ref, y: Ref, z: Ref, p: Ref, s: Side)
    requires x in t.cell && y in t.cell && (z != NULL ==> z in t.cell) && (p != NULL ==> p in t.cell)
  {
    && u.cell.Keys == t.cell.Keys && u.key == t.key && u.root == (if p == NULL then y else t.root)
    && u.cell[x] == WithKid(t.cell[x], Opp(s), z).(parent := y)
    && u.cell[y] == WithKid(t.cell[y], s, x).(parent := p)
    && (z != NULL ==> u.cell[z] == t.cell[z].(parent := x))
    && (p != NULL ==> u.cell[p] == if t.cell[p].left == x then t.cell[p].(left := y) else t.cell[p].(right := y))
    && forall n {:trigger u.cell[n]} :: n in t.cell && n != x && n != y && n != z && n != p ==> u.cell[n] == t.cell[n]
  }

  lemma RotateIs(t: Tree, g: Marks, x: Ref, s: Side)
    requires Shape(t, g) && x in t.cell && Kid(t.cell[x], Opp(s)) != NULL
    ensures CanRotate(t, x, s) && Known(t, g, x)
    ensures var y := Kid(t.cell[x], Opp(s)); var z, p := Kid(t.cell[y], s), t.cell[x].parent;
      && Known(t, g, y) && x != y && (z != NULL ==> Known(t, g, z) && z != x && z != y)
        && (p != NULL ==> Known(t, g, p) && p != x && p != y && p != z)
      && RotateCells(t, Rotated(t, x, s), x, y, z, p, s)
  {
    RotateReady(t, g, x, s);
    var y := Kid(t.cell[x], Opp(s));
    ShapeAt(t, g, x);
    ShapeAt(t, g, y);
    var z, p := Kid(t.cell[y], s), t.cell[x].parent;
    if z != NULL { ShapeAt(t, g, z); }
    if p != NULL { ShapeAt(t, g, p); }
    hide Shape, IsKey;
    RotateApart(t, g, x, y, z, p, s);
  }

  lemma RotateApart(t: Tree, g: Marks, x: Ref, y: Ref, z: Ref, p: Ref, s: Side)
    requires NodeOk(t, g, x) && NodeOk(t, g, y) && x in t.cell && y in t.cell && Known(t, g, x) && Known(t, g, y)
        && y == Kid(t.cell[x], Opp(s)) && y != NULL
    requires z == Kid(t.cell[y], s) && p == t.cell[x].parent && (z != NULL ==> NodeOk(t, g, z))
        && (p != NULL ==> NodeOk(t, g, p))
    ensures x != y && (z != NULL ==> z != x && z != y) && (p != NULL ==> p != x && p != y && p != z)
  {
    assert g.span[y] == Part(g.span[x], t.key[x], Opp(s));
    if z != NULL { assert g.span[z] == Part(g.span[y], t.key[y], s); }
    if p != NULL { assert g.span[x] == Part(g.span[p], t.key[p], L) || g.span[x] == Part(g.span[p], t.key[p], R); }
  }

  /** A rotation keeps the shape. */
  lemma RotateShape(t: Tree, g: Marks, x: Ref, s: Side)
    requires Shape(t, g) && x in t.cell && Kid(t.cell[x], Opp(s)) != NULL
    ensures CanRotate(t, x, s) && Known(t, g, x) && Kid(t.cell[x], Opp(s)) in t.key
    ensures Shape(Rotated(t, x, s), RotatedMarks(t, g, x, s))
  {
    RotateIs(t, g, x, s);
    var y := Kid(t.cell[x], Opp(s));
    var u, h := Rotated(t, x, s), RotatedMarks(t, g, x, s);
    var z, p := Kid(t.cell[y], s), t.cell[x].parent;
    forall n ensures NodeOk(u, h, n) { RotateNode(t, g, u, h, x, y, z, p, s, n); }
    forall n, m ensures PairOk(u, h, n, m) { RotatePair(t, g, u, h, x, y, z, p, s, n, m); }
    ShapeAt(t, g, x);
    ShapeAt(t, g, y);
    if z != NULL { ShapeAt(t, g, z); }
    if p == NULL { assert u.cell[y].parent == NULL; } else { assert u.cell[t.root].parent == NULL; }
  }

  lemma SameKeys(t: Tree, u: Tree)
    requires u.cell.Keys == t.cell.Keys && u.key == t.key
    ensures forall k {:trigger IsKey(u, k)} :: IsKey(u, k) <==> IsKey(t, k)
  {
  }

  lemma RotateNode(t: Tree, g: Marks, u: Tree, h: Marks, x: Ref, y: Ref, z: Ref, p: Ref, s: Side, n: Ref)
    requires Shape(t, g) && Known(t, g, x) && Known(t, g, y) && y == Kid(t.cell[x], Opp(s)) && y != NULL && x != y
    requires z == Kid(t.cell[y], s) && p == t.cell[x].parent
    requires (z != NULL ==>
        Known(t, g, z) && z != x && z != y) && (p != NULL ==> Known(t, g, p) && p != x && p != y && p != z)
    requires RotateCells(t, u, x, y, z, p, s) && h == Marks(g.span[y := g.span[x]][x := Part(g.span[x], t.key[y], s)],
        g.all)
    ensures NodeOk(u, h, n)
  {
    ShapeAt(t, g, n);
    ShapeAt(t, g, x);
    ShapeAt(t, g, y);
    SameKeys(t, u);
    assert IsKey(t, t.key[x]) && IsKey(t, t.key[y]);
    hide Shape, IsKey;
    if n == x {
      RotateX(t, g, u, h, x, y, z, p, s);
    } else if n == y {
      RotateY(t, g, u, h, x, y, z, p, s);
    } else if n == z {
      RotateZ(t, g, u, h, x, y, z, p, s);
    } else if n == p {
      RotateP(t, g, u, h, x, y, z, p, s);
    } else {
      RotateOther(t, g, u, h, x, y, z, p, s, n);
    }
  }

  lemma RotateX(t: Tree, g: Marks, u: Tree, h: Marks, x: Ref, y: Ref, z: Ref, p: Ref, s: Side)
    requires NodeOk(t, g, x) && NodeOk(t, g, y) && Known(t, g, x) && Known(t, g, y) && y == Kid(t.cell[x], Opp(s))
        && y != NULL && x != y
    requires z == Kid(t.cell[y], s) && p == t.cell[x].parent
    requires (z != NULL ==>
        Known(t, g, z) && z != x && z != y) && (p != NULL ==> Known(t, g, p) && p != x && p != y && p != z)
    requires RotateCells(t, u, x, y, z, p, s) && h == Marks(g.span[y := g.span[x]][x := Part(g.span[x], t.key[y], s)],
        g.all)
    requires (forall k {:trigger IsKey(u, k)} :: IsKey(u, k) <==> IsKey(t, k)) && IsKey(t, t.key[x])
        && IsKey(t, t.key[y])
    ensures NodeOk(u, h, x)
  {
    hide IsKey;
    if s.L? {} else {}
  }

  lemma RotateY(t: Tree, g: Marks, u: Tree, h: Marks, x: Ref, y: Ref, z: Ref, p: Ref, s: Side)
    requires NodeOk(t, g, x) && NodeOk(t, g, y) && Known(t, g, x) && Known(t, g, y) && y == Kid(t.cell[x], Opp(s))
        && y != NULL && x != y
    requires z == Kid(t.cell[y], s) && p == t.cell[x].parent
    requires (z != NULL ==>
        Known(t, g, z) && z != x && z != y) && (p != NULL ==> Known(t, g, p) && p != x && p != y && p != z)
    requires RotateCells(t, u, x, y, z, p, s) && h == Marks(g.span[y := g.span[x]][x := Part(g.span[x], t.key[y], s)],
        g.all)
    requires (forall k {:trigger IsKey(u, k)} :: IsKey(u, k) <==> IsKey(t, k)) && IsKey(t, t.key[x])
        && IsKey(t, t.key[y])
    ensures NodeOk(u, h, y)
  {
    hide IsKey;
    if s.L? {} else {}
  }

  lemma RotateZ(t: Tree, g: Marks, u: Tree, h: Marks, x: Ref, y: Ref, z: Ref, p: Ref, s: Side)
    requires NodeOk(t, g, x) && NodeOk(t, g, y) && Known(t, g, x) && Known(t, g, y) && y == Kid(t.cell[x], Opp(s))
        && y != NULL && x != y
    requires z == Kid(t.cell[y], s) && p == t.cell[x].parent
    requires (z != NULL ==>
        Known(t, g, z) && z != x && z != y) && (p != NULL ==> Known(t, g, p) && p != x && p != y && p != z)
    requires RotateCells(t, u, x, y, z, p, s) && h == Marks(g.span[y := g.span[x]][x := Part(g.span[x], t.key[y], s)],
        g.all)
    requires (forall k {:trigger IsKey(u, k)} :: IsKey(u, k) <==> IsKey(t, k)) && IsKey(t, t.key[x])
        && IsKey(t, t.key[y]) && NodeOk(t, g, z)
    ensures NodeOk(u, h, z)
  {
    hide IsKey;
    if z != NULL {
      KidStays(t, g, u, h, x, y, z, p, s, z, L);
      KidStays(t, g, u, h, x, y, z, p, s, z, R);
    }
  }

  lemma RotateP(t: Tree, g: Marks, u: Tree, h: Marks, x: Ref, y: Ref, z: Ref, p: Ref, s: Side)
    requires NodeOk(t, g, x) && NodeOk(t, g, y) && Known(t, g, x) && Known(t, g, y) && y == Kid(t.cell[x], Opp(s))
        && y != NULL && x != y
    requires z == Kid(t.cell[y], s) && p == t.cell[x].parent
    requires (z != NULL ==>
        Known(t, g, z) && z != x && z != y) && (p != NULL ==> Known(t, g, p) && p != x && p != y && p != z)
    requires RotateCells(t, u, x, y, z, p, s) && h == Marks(g.span[y := g.span[x]][x := Part(g.span[x], t.key[y], s)],
        g.all)
    requires (forall k {:trigger IsKey(u, k)} :: IsKey(u, k) <==> IsKey(t, k)) && IsKey(t, t.key[x])
        && IsKey(t, t.key[y]) && NodeOk(t, g, p)
    ensures NodeOk(u, h, p)
  {
    hide IsKey;
    if p != NULL {
      if t.cell[p].left == x {
        KidStays(t, g, u, h, x, y, z, p, s, p, R);
      } else {
        KidStays(t, g, u, h, x, y, z, p, s, p, L);
      }
    }
  }

  lemma RotateOther(t: Tree, g: Marks, u: Tree, h: Marks, x: Ref, y: Ref, z: Ref, p: Ref, s: Side, n: Ref)
    requires NodeOk(t, g, n) && NodeOk(t, g, x) && NodeOk(t, g, y) && Known(t, g, x) && Known(t, g, y)
        && y == Kid(t.cell[x], Opp(s)) && y != NULL && x != y
    requires z == Kid(t.cell[y], s) && p == t.cell[x].parent && n != x && n != y && n != z && n != p
    requires (z != NULL ==>
        Known(t, g, z) && z != x && z != y) && (p != NULL ==> Known(t, g, p) && p != x && p != y && p != z)
    requires RotateCells(t, u, x, y, z, p, s) && h == Marks(g.span[y := g.span[x]][x := Part(g.span[x], t.key[y], s)],
        g.all)
    requires forall k {:trigger IsKey(u, k)} :: IsKey(u, k) <==> IsKey(t, k)
    ensures NodeOk(u, h, n)
  {
    hide IsKey;
    if n in t.cell {
      assert u.cell[n] == t.cell[n];
      KidStays(t, g, u, h, x, y, z, p, s, n, L);
      KidStays(t, g, u, h, x, y, z, p, s, n, R);
      var q := t.cell[n].parent;
      if q != NULL && q != x && q != y && q != z && q != p { assert u.cell[q] == t.cell[q]; }
    }
  }

  lemma KidStays(t: Tree, g: Marks, u: Tree, h: Marks, x: Ref, y: Ref, z: Ref, p: Ref, s: Side, n: Ref, side: Side)
    requires Known(t, g, n) && KidOk(t, g, n, side) && Known(t, g, x) && Known(t, g, y) && x != y
        && z == Kid(t.cell[y], s) && p == t.cell[x].parent && t.cell[y].parent == x
    requires n != x && n != y && (z != NULL ==> Known(t, g, z) && t.cell[z].parent == y)
        && (p != NULL ==> Known(t, g, p) && p != x && p != y && p != z)
    requires RotateCells(t, u, x, y, z, p, s) && h == Marks(g.span[y := g.span[x]][x := Part(g.span[x], t.key[y], s)],
        g.all)
    requires Kid(u.cell[n], side) == Kid(t.cell[n], side) && Kid(t.cell[n], side) != x
    ensures Known(u, h, n) && KidOk(u, h, n, side)
  {
    var k := Kid(t.cell[n], side);
    if k != NULL && k != p && k != z && k != y { assert u.cell[k] == t.cell[k]; }
  }

  lemma RotatePair(t: Tree, g: Marks, u: Tree, h: Marks, x: Ref, y: Ref, z: Ref, p: Ref, s: Side, n: Ref, m: Ref)
    requires Shape(t, g) && Known(t, g, x) && Known(t, g, y) && y == Kid(t.cell[x], Opp(s)) && y != NULL && x != y
    requires z == Kid(t.cell[y], s) && p == t.cell[x].parent
    requires (z != NULL ==>
        Known(t, g, z) && z != x && z != y) && (p != NULL ==> Known(t, g, p) && p != x && p != y && p != z)
    requires RotateCells(t, u, x, y, z, p, s) && h == Marks(g.span[y := g.span[x]][x := Part(g.span[x], t.key[y], s)],
        g.all)
    ensures PairOk(u, h, n, m)
  {
    hide *;
    RotateKnown(t, g, u, h, x, y, z, p, s, n);
    RotateKnown(t, g, u, h, x, y, z, p, s, m);
    if !(Known(u, h, n) && Known(u, h, m) && n != m) {
      PairNone(u, h, n, m);
    } else if (n == x && m == y) || (n == y && m == x) {
      RotatePairXY(t, g, u, h, x, y, z, p, s);
    } else if n == x || m == x {
      RotatePairX(t, g, u, h, x, y, z, p, s, if n == x then m else n);
    } else if n == y || m == y {
      RotatePairY(t, g, u, h, x, y, z, p, s, if n == y then m else n);
    } else {
      PairData(t, g, n, m);
      PairData(t, g, x, y);
      RotateKids(t, g, u, x, y, z, p, s, n);
      PairFold(u, h, n, m);
    }
  }

  lemma RotatePairXY(t: Tree, g: Marks, u: Tree, h: Marks, x: Ref, y: Ref, z: Ref, p: Ref, s: Side)
    requires Shape(t, g) && Known(t, g, x) && Known(t, g, y) && y == Kid(t.cell[x], Opp(s)) && y != NULL && x != y
    requires z == Kid(t.cell[y], s) && p == t.cell[x].parent
    requires (z != NULL ==>
        Known(t, g, z) && z != x && z != y) && (p != NULL ==> Known(t, g, p) && p != x && p != y && p != z)
    requires RotateCells(t, u, x, y, z, p, s) && h == Marks(g.span[y := g.span[x]][x := Part(g.span[x], t.key[y], s)],
        g.all)
    ensures PairOk(u, h, x, y) && PairOk(u, h, y, x)
  {
    hide *;
    PairData(t, g, x, y);
    KidSpan(t, g, x, Opp(s));
    RotateKids(t, g, u, x, y, z, p, s, x);
    RotateKids(t, g, u, x, y, z, p, s, y);
    RotateKnown(t, g, u, h, x, y, z, p, s, x);
    RotateKnown(t, g, u, h, x, y, z, p, s, y);
    PairXY(g.span[x], t.key[x], t.cell[x].left != NULL, t.cell[x].right != NULL, g.span[y], t.key[y],
        t.cell[y].left != NULL, t.cell[y].right != NULL, s);
    PairFold(u, h, x, y);
    PairFold(u, h, y, x);
  }

  lemma RotatePairX(t: Tree, g: Marks, u: Tree, h: Marks, x: Ref, y: Ref, z: Ref, p: Ref, s: Side, m: Ref)
    requires Shape(t, g) && Known(t, g, x) && Known(t, g, y) && y == Kid(t.cell[x], Opp(s)) && y != NULL && x != y
    requires z == Kid(t.cell[y], s) && p == t.cell[x].parent
    requires (z != NULL ==>
        Known(t, g, z) && z != x && z != y) && (p != NULL ==> Known(t, g, p) && p != x && p != y && p != z)
    requires RotateCells(t, u, x, y, z, p, s) && h == Marks(g.span[y := g.span[x]][x := Part(g.span[x], t.key[y], s)],
        g.all)
    requires m != x && m != y && Known(t, g, m)
    ensures PairOk(u, h, x, m) && PairOk(u, h, m, x)
  {
    hide *;
    PairData(t, g, x, y);
    KidSpan(t, g, x, Opp(s));
    RotateKids(t, g, u, x, y, z, p, s, x);
    RotateKids(t, g, u, x, y, z, p, s, y);
    RotateKnown(t, g, u, h, x, y, z, p, s, x);
    RotateKnown(t, g, u, h, x, y, z, p, s, y);
    RotateKids(t, g, u, x, y, z, p, s, m);
    RotateKnown(t, g, u, h, x, y, z, p, s, m);
    PairData(t, g, x, m);
    PairData(t, g, y, m);
    PairX(g.span[x], t.key[x], t.cell[x].left != NULL, t.cell[x].right != NULL, g.span[y], t.key[y],
        t.cell[y].left != NULL, t.cell[y].right != NULL,
      g.span[m], t.key[m], t.cell[m].left != NULL, t.cell[m].right != NULL, s);
    PairFold(u, h, x, m);
    PairFold(u, h, m, x);
  }

  lemma RotatePairY(t: Tree, g: Marks, u: Tree, h: Marks, x: Ref, y: Ref, z: Ref, p: Ref, s: Side, m: Ref)
    requires Shape(t, g) && Known(t, g, x) && Known(t, g, y) && y == Kid(t.cell[x], Opp(s)) && y != NULL && x != y
    requires z == Kid(t.cell[y], s) && p == t.cell[x].parent
    requires (z != NULL ==>
        Known(t, g, z) && z != x && z != y) && (p != NULL ==> Known(t, g, p) && p != x && p != y && p != z)
    requires RotateCells(t, u, x, y, z, p, s) && h == Marks(g.span[y := g.span[x]][x := Part(g.span[x], t.key[y], s)],
        g.all)
    requires m != x && m != y && Known(t, g, m)
    ensures PairOk(u, h, y, m) && PairOk(u, h, m, y)
  {
    hide *;
    PairData(t, g, x, y);
    KidSpan(t, g, x, Opp(s));
    RotateKids(t, g, u, x, y, z, p, s, x);
    RotateKids(t, g, u, x, y, z, p, s, y);
    RotateKnown(t, g, u, h, x, y, z, p, s, x);
    RotateKnown(t, g, u, h, x, y, z, p, s, y);
    RotateKids(t, g, u, x, y, z, p, s, m);
    RotateKnown(t, g, u, h, x, y, z, p, s, m);
    PairData(t, g, x, m);
    PairData(t, g, y, m);
    PairY(g.span[x], t.key[x], t.cell[x].left != NULL, t.cell[x].right != NULL, g.span[y], t.key[y],
        t.cell[y].left != NULL, t.cell[y].right != NULL,
      g.span[m], t.key[m], t.cell[m].left != NULL, t.cell[m].right != NULL, s);
    PairFold(u, h, y, m);
    PairFold(u, h, m, y);
  }

  lemma ParentSide(t: Tree, g: Marks, x: Ref)
    requires Shape(t, g) && x in t.cell && t.cell[x].parent != NULL
    ensures var p := t.cell[x].parent; p in t.cell && (t.cell[p].left == x || t.cell[p].right == x)
  {
    ShapeAt(t, g, x);
  }

  lemma PairNone(t: Tree, g: Marks, n: Ref, m: Ref)
    requires !(Known(t, g, n) && Known(t, g, m) && n != m)
    ensures PairOk(t, g, n, m)
  {
  }

  lemma PairFold(t: Tree, g: Marks, n: Ref, m: Ref)
    requires n in t.cell && m in t.cell && n in t.key && m in t.key && n in g.span && m in g.span
    requires Ordered(g.span[n], t.key[n], t.cell[n].left != NULL, t.cell[n].right != NULL, g.span[m], t.key[m])
    ensures PairOk(t, g, n, m)
  {
  }

  lemma PairData(t: Tree, g: Marks, n: Ref, m: Ref)
    requires Shape(t, g) && Known(t, g, n) && Known(t, g, m)
    ensures n in t.cell && m in t.cell && n in t.key && m in t.key && n in g.span && m in g.span
    ensures n != m ==> Ordered(g.span[n], t.key[n], t.cell[n].left != NULL, t.cell[n].right != NULL, g.span[m],
        t.key[m])
    ensures n != m ==> Ordered(g.span[m], t.key[m], t.cell[m].left != NULL, t.cell[m].right != NULL, g.span[n],
        t.key[n])
    ensures Contains(g.span[n], t.key[n]) && Contains(g.span[m], t.key[m]) && n != NULL && m != NULL
  {
    SpanOf(t, g, n);
    SpanOf(t, g, m);
    OrderedAt(t, g, n, m);
  }

  lemma RotateKnown(t: Tree, g: Marks, u: Tree, h: Marks, x: Ref, y: Ref, z: Ref, p: Ref, s: Side, n: Ref)
    requires Known(t, g, x) && Known(t, g, y) && (z != NULL ==> Known(t, g, z)) && (p != NULL ==> Known(t, g, p))
    requires RotateCells(t, u, x, y, z, p, s) && h == Marks(g.span[y := g.span[x]][x := Part(g.span[x], t.key[y], s)],
        g.all)
    ensures u.key == t.key
    ensures Known(u, h, n) <==> Known(t, g, n)
    ensures Known(u, h, n) ==> n in u.cell && n in u.key && n in h.span
  {
  }

  lemma RotateKids(t: Tree, g: Marks, u: Tree, x: Ref, y: Ref, z: Ref, p: Ref, s: Side, n: Ref)
    requires Shape(t, g) && Known(t, g, x) && Known(t, g, y) && y == Kid(t.cell[x], Opp(s)) && y != NULL && x != y
    requires z == Kid(t.cell[y], s) && p == t.cell[x].parent && Known(t, g, n)
    requires (z != NULL ==>
        Known(t, g, z) && z != x && z != y) && (p != NULL ==> Known(t, g, p) && p != x && p != y && p != z)
    requires RotateCells(t, u, x, y, z, p, s)
    ensures n in u.cell
    ensures n == x && s.L? ==> u.cell[n].left == t.cell[n].left && u.cell[n].right == z == t.cell[y].left
    ensures n == x && s.R? ==> u.cell[n].right == t.cell[n].right && u.cell[n].left == z == t.cell[y].right
    ensures n == y && s.L? ==> u.cell[n].left == x && u.cell[n].right == t.cell[n].right
    ensures n == y && s.R? ==> u.cell[n].right == x && u.cell[n].left == t.cell[n].left
    ensures n != x && n != y ==>
        (u.cell[n].left != NULL <==> t.cell[n].left != NULL) && (u.cell[n].right != NULL <==> t.cell[n].right != NULL)
  {
    SpanOf(t, g, x);
    SpanOf(t, g, n);
    if p != NULL { ParentSide(t, g, x); }
    if n != x && n != y && n != z && n != p { assert u.cell[n] == t.cell[n]; }
  }

  lemma PairXY(a: Span, j: int, al: bool, ar: bool, b: Span, k: int, bl: bool, br: bool, s: Side)
    requires Ordered(a, j, al, ar, b, k) && Ordered(b, k, bl, br, a, j) && Contains(a, j) && Contains(b, k)
        && b == Part(a, j, Opp(s))
    ensures var zl := if s.L? then bl else br; Ordered(Part(a, k, s), j, if s.L? then al else zl, if s.L? then zl
        else ar, a, k)
    ensures Ordered(a, k, if s.L? then true else bl, if s.L? then br else true, Part(a, k, s), j)
  {
  }

  lemma PairX(a: Span, j: int, al: bool, ar: bool, b: Span, k: int, bl: bool, br: bool, c: Span, i: int, cl: bool,
      cr: bool, s: Side)
    requires Ordered(a, j, al, ar, b, k) && Ordered(b, k, bl, br, a, j) && Contains(a, j) && Contains(b, k)
        && b == Part(a, j, Opp(s))
    requires Ordered(a, j, al, ar, c, i) && Ordered(c, i, cl, cr, a, j) && Ordered(b, k, bl, br, c, i)
        && Ordered(c, i, cl, cr, b, k) && Contains(c, i)
    ensures var zl := if s.L? then bl else br; Ordered(Part(a, k, s), j, if s.L? then al else zl, if s.L? then zl
        else ar, c, i)
    ensures Ordered(c, i, cl, cr, Part(a, k, s), j)
  {
  }

  lemma PairY(a: Span, j: int, al: bool, ar: bool, b: Span, k: int, bl: bool, br: bool, c: Span, i: int, cl: bool,
      cr: bool, s: Side)
    requires Ordered(a, j, al, ar, b, k) && Ordered(b, k, bl, br, a, j) && Contains(a, j) && Contains(b, k)
        && b == Part(a, j, Opp(s))
    requires Ordered(a, j, al, ar, c, i) && Ordered(c, i, cl, cr, a, j) && Ordered(b, k, bl, br, c, i)
        && Ordered(c, i, cl, cr, b, k) && Contains(c, i)
    ensures Ordered(a, k, if s.L? then true else bl, if s.L? then br else true, c, i)
    ensures Ordered(c, i, cl, cr, a, k)
  {
  }
}
