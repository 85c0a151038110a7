/** Forests of binary search trees (tree.h): cutting a subtree off and grafting it elsewhere. */
module SplayForest {

  type Ref = int

  const NULL: Ref := 0

  datatype Side = L | R

  function Opp(s: Side): Side { if s.L? then R else L }

  datatype Cell = Cell(left: Ref, right: Ref)

  function Kid(c: Cell, s: Side): Ref { if s.L? then c.left else c.right }

  function WithKid(c: Cell, s: Side, x: Ref): Cell { if s.L? then c.(left := x) else c.(right := x) }

  /** The nodes, the nodes under each of them (itself included), and their keys. */
  datatype Forest = Forest(cell: map<Ref, Cell>, under: map<Ref, set<Ref>>, key: map<Ref, int>)

  /** k lies further to side s than j. */
  predicate Beyond(s: Side, j: int, k: int) { if s.L? then k < j else j < k }

  ghost function Under(f: Forest, x: Ref): set<Ref> { if x == NULL || x !in f.under then {} else f.under[x] }

  /** All keys of x's tree lie beyond key j. */
  ghost predicate AllBeyond(f: Forest, s: Side, j: int, nodes: set<Ref>) {
    forall q {:trigger q in nodes} :: q in nodes ==> q in f.key && Beyond(s, j, f.key[q])
  }

  ghost predicate Known(f: Forest, n: Ref) { n in f.cell && n in f.under && n in f.key && n != NULL }

  ghost predicate KidOk(f: Forest, n: Ref, s: Side)
    requires Known(f, n)
  {
    var x := Kid(f.cell[n], s);
    x == NULL || (Known(f, x) && AllBeyond(f, s, f.key[n], f.under[x]))
  }

  ghost predicate NodeOk(f: Forest, n: Ref) {
    n in f.cell ==>
      && Known(f, n) && KidOk(f, n, L) && KidOk(f, n, R) && f.under[n] <= f.cell.Keys
      && f.under[n] == {n} + Under(f, f.cell[n].left) + Under(f, f.cell[n].right)
  }

  /** Two subtrees are nested or apart. */
  ghost predicate Nested(a: set<Ref>, n: Ref, b: set<Ref>, m: Ref) {
    (m in a && n !in b && b <= a) || (n in b && m !in a && a <= b) || a !! b
  }

  ghost predicate PairOk(f: Forest, n: Ref, m: Ref) {
    Known(f, n) && Known(f, m) && n != m ==> f.key[n] != f.key[m] && Nested(f.under[n], n, f.under[m], m)
  }

  ghost predicate Shape(f: Forest) {
    && (forall n {:trigger NodeOk(f, n)} :: NodeOk(f, n))
    && (forall n, m {:trigger PairOk(f, n, m)} :: PairOk(f, n, m))
  }

  ghost predicate Top(f: Forest, x: Ref) {
    Known(f, x) && forall m {:trigger f.under[m]} :: Known(f, m) && x in f.under[m] ==> m == x
  }

  lemma At(f: Forest, n: Ref)
    requires Shape(f) && n in f.cell
    ensures NodeOk(f, n) && Known(f, n) && n in f.under[n]
  {
    assert NodeOk(f, n);
    assert n in {n} + Under(f, f.cell[n].left) + Under(f, f.cell[n].right);
  }

  lemma Pair(f: Forest, n: Ref, m: Ref)
    requires Shape(f)
    ensures PairOk(f, n, m) && PairOk(f, m, n)
  {
  }

  /** What is under a node below n is under n, but n is not. */
  lemma Below(f: Forest, n: Ref, s: Side)
    requires Shape(f) && n in f.cell
    ensures var x := Kid(f.cell[n], s);
        n !in Under(f, x) && Under(f, x) !! Under(f, Kid(f.cell[n], Opp(s)))
        && (x != NULL ==>
          Known(f, x) && x in f.under[x] && Known(f, n) && x in f.under[n] && f.under[x] <= f.under[n] && n != x)
  {
    At(f, n);
    var x := Kid(f.cell[n], s);
    var l, r := f.cell[n].left, f.cell[n].right;
    assert KidOk(f, n, L) && KidOk(f, n, R);
    forall q | q in Under(f, l) ensures q !in Under(f, r) && q != n {
      assert Beyond(L, f.key[n], f.key[q]);
      assert q in Under(f, r) ==> Beyond(R, f.key[n], f.key[q]);
    }
    forall q | q in Under(f, r) ensures q != n { assert Beyond(R, f.key[n], f.key[q]); }
    if x != NULL { At(f, x); }
  }

  /** Subtrees are nested one way only. */
  lemma Within(f: Forest, n: Ref, m: Ref)
    requires Shape(f) && Known(f, n) && Known(f, m) && m in f.under[n]
    ensures f.under[m] <= f.under[n] && (m != n ==> n !in f.under[m])
  {
    At(f, m);
    Pair(f, n, m);
  }

  // ---- Cutting

  ghost function Cut(f: Forest, p: Ref, s: Side): Forest
    requires Known(f, p)
  {
    var x := Kid(f.cell[p], s);
    Forest(f.cell[p := WithKid(f.cell[p], s, NULL)], f.under[p := f.under[p] - Under(f, x)], f.key)
  }

  lemma CutOk(f: Forest, p: Ref, s: Side)
    requires Shape(f) && Top(f, p)
    ensures var t, x := Cut(f, p, s), Kid(f.cell[p], s);
        Shape(t) && Top(t, p) && (x != NULL ==> Top(t, x) && Under(t, x) == Under(f, x) && p !in Under(t, x))
    ensures forall y {:trigger Top(f, y)} :: Top(f, y) ==> Top(Cut(f, p, s), y)
  {
    var t, x := Cut(f, p, s), Kid(f.cell[p], s);
    forall n ensures NodeOk(t, n) { CutNode(f, p, s, n); }
    forall n, m ensures PairOk(t, n, m) { CutPair(f, p, s, n, m); }
    Below(f, p, s);
    if x != NULL {
      forall m {:trigger t.under[m]} | Known(t, m) && x in t.under[m] ensures m == x { CutTop(f, p, s, m); }
    }
  }

  lemma CutNode(f: Forest, p: Ref, s: Side, n: Ref)
    requires Shape(f) && Top(f, p)
    ensures NodeOk(Cut(f, p, s), n)
  {
    if n in f.cell {
      At(f, n);
      Below(f, n, L);
      Below(f, n, R);
      Below(f, p, s);
      hide Shape;
    }
  }

  lemma CutPair(f: Forest, p: Ref, s: Side, n: Ref, m: Ref)
    requires Shape(f) && Top(f, p)
    ensures PairOk(Cut(f, p, s), n, m)
  {
    Pair(f, n, m);
    if Known(f, n) && Known(f, m) && n != m && (n == p || m == p) {
      var o := if n == p then m else n;
      CutApart(f, p, s, o);
      At(f, p);
      At(f, o);
    }
    hide Shape;
  }

  /** Another node is apart from p's tree, or under one of its children. */
  lemma CutApart(f: Forest, p: Ref, s: Side, o: Ref)
    requires Shape(f) && Top(f, p) && Known(f, o) && o != p
    ensures f.under[o] !! f.under[p]
        || (o in f.under[p] && (f.under[o] <= Under(f, Kid(f.cell[p], s)) || (o !in Under(f, Kid(f.cell[p], s))
        && f.under[o] !! Under(f, Kid(f.cell[p], s)) && f.under[o] <= f.under[p] - Under(f, Kid(f.cell[p], s)))))
  {
    Pair(f, p, o);
    At(f, p);
    if o in f.under[p] {
      Below(f, p, L);
      Below(f, p, R);
      var side := if o in Under(f, f.cell[p].left) then L else R;
      var x := Kid(f.cell[p], side);
      assert o in Under(f, x);
      assert x in f.cell by { assert KidOk(f, p, side); }
      Within(f, x, o);
      At(f, o);
    }
    hide Shape;
  }

  lemma CutTop(f: Forest, p: Ref, s: Side, m: Ref)
    requires Shape(f) && Top(f, p) && Kid(f.cell[p], s) != NULL && Known(f, m)
        && Kid(f.cell[p], s) in Cut(f, p, s).under[m]
    ensures m == Kid(f.cell[p], s)
  {
    var x := Kid(f.cell[p], s);
    Below(f, p, s);
    At(f, m);
    if m != p {
      CutApart(f, p, s, m);
      if m != x { Pair(f, x, m); }
    }
    hide Shape;
  }

  // ---- Grafting

  ghost function Graft(f: Forest, p: Ref, s: Side, x: Ref): Forest
    requires Known(f, p)
  {
    if x == NULL || x !in f.under then f else
      Forest(f.cell[p := WithKid(f.cell[p], s, x)], map m | m in f.under :: if p in f.under[m] then
          f.under[m] + f.under[x] else f.under[m], f.key)
  }

  /** p may have the tree x on side s: its keys compare with those above p as p does. */
  ghost predicate CanGraft(f: Forest, p: Ref, s: Side, x: Ref) {
    && Known(f, p) && Kid(f.cell[p], s) == NULL
    && (x != NULL ==>
      && Top(f, x) && p !in f.under[x] && AllBeyond(f, s, f.key[p], f.under[x])
      && (forall m {:trigger f.under[m]} ::
          Known(f, m) && p in f.under[m] && m != p ==> forall c: Side {:trigger Beyond(c, f.key[m], f.key[p])} ::
            Beyond(c, f.key[m], f.key[p]) ==> AllBeyond(f, c, f.key[m], f.under[x])))
  }

  lemma GraftOk(f: Forest, p: Ref, s: Side, x: Ref)
    requires Shape(f) && CanGraft(f, p, s, x)
    ensures var t := Graft(f, p, s, x); Shape(t) && (forall y {:trigger Top(t, y)} :: Top(f, y) && y != x ==> Top(t, y))
  {
    var t := Graft(f, p, s, x);
    if x != NULL {
      forall n ensures NodeOk(t, n) { GraftNode(f, p, s, x, n); }
      forall n, m ensures PairOk(t, n, m) { GraftPair(f, p, s, x, n, m); }
      forall y {:trigger Top(t, y)} | Top(f, y) && y != x ensures Top(t, y) { At(f, x); }
    }
  }

  lemma GraftNode(f: Forest, p: Ref, s: Side, x: Ref, n: Ref)
    requires Shape(f) && CanGraft(f, p, s, x) && x != NULL
    ensures NodeOk(Graft(f, p, s, x), n)
  {
    if n in f.cell {
      At(f, n);
      At(f, x);
      Below(f, n, L);
      Below(f, n, R);
      if n == p { GraftHere(f, p, s, x); } else if p in f.under[n] { GraftAbove(f, p, s, x, n); }
      hide Shape, Top;
    }
  }

  lemma GraftHere(f: Forest, p: Ref, s: Side, x: Ref)
    requires Shape(f) && CanGraft(f, p, s, x) && x != NULL
    ensures NodeOk(Graft(f, p, s, x), p)
  {
    At(f, p);
    At(f, x);
    Below(f, p, Opp(s));
    assert KidOk(f, p, L) && KidOk(f, p, R);
    hide Shape, Top;
  }

  lemma GraftAbove(f: Forest, p: Ref, s: Side, x: Ref, n: Ref)
    requires Shape(f) && CanGraft(f, p, s, x) && x != NULL && Known(f, n) && n != p && p in f.under[n]
    ensures NodeOk(Graft(f, p, s, x), n)
  {
    At(f, n);
    At(f, x);
    var c := if p in Under(f, f.cell[n].left) then L else R;
    Below(f, n, c);
    Below(f, n, Opp(c));
    assert KidOk(f, n, c) && KidOk(f, n, Opp(c));
    assert Beyond(c, f.key[n], f.key[p]);
    assert AllBeyond(f, c, f.key[n], f.under[x]);
    var t, y, o := Graft(f, p, s, x), Kid(f.cell[n], c), Kid(f.cell[n], Opp(c));
    assert Under(t, y) == Under(f, y) + f.under[x] && Under(t, o) == Under(f, o);
    assert AllBeyond(t, c, t.key[n], t.under[y]);
    hide Shape, Top, AllBeyond;
  }

  lemma GraftPair(f: Forest, p: Ref, s: Side, x: Ref, n: Ref, m: Ref)
    requires Shape(f) && CanGraft(f, p, s, x) && x != NULL
    ensures PairOk(Graft(f, p, s, x), n, m)
  {
    Pair(f, n, m);
    Pair(f, x, m);
    Pair(f, x, n);
    if Known(f, n) && Known(f, m) {
      At(f, n);
      At(f, m);
      At(f, x);
      At(f, p);
    }
    hide Shape;
  }

  // ---- The steps of a splay

  /** The root of a tree goes down to side Opp(s) of its child on side s. */
  ghost function Rotated(f: Forest, root: Ref, s: Side): Forest
    requires Known(f, root) && Known(f, Kid(f.cell[root], s)) && Kid(f.cell[root], s) != root
  {
    var x := Kid(f.cell[root], s);
    var z := Kid(f.cell[x], Opp(s));
    Graft(Graft(Cut(Cut(f, root, s), x, Opp(s)), root, s, z), x, Opp(s), root)
  }

  /** Nothing has changed except in some nodes. */
  ghost predicate Elsewhere(f: Forest, t: Forest, nodes: set<Ref>) {
    && t.key == f.key && t.cell.Keys == f.cell.Keys && t.under.Keys == f.under.Keys
    && (forall n {:trigger t.cell[n]} {:trigger t.under[n]} ::
        n in f.cell && n in f.under && n !in nodes ==> t.cell[n] == f.cell[n] && t.under[n] == f.under[n])
  }

  lemma RotateOk(f: Forest, root: Ref, s: Side)
    requires Shape(f) && Top(f, root) && Kid(f.cell[root], s) != NULL
    ensures Known(f, Kid(f.cell[root], s)) && Kid(f.cell[root], s) != root
    ensures var t, x := Rotated(f, root, s), Kid(f.cell[root], s);
        Shape(t) && Top(t, x) && t.under[x] == f.under[root] && Elsewhere(f, t, f.under[root])
    ensures forall y {:trigger Top(f, y)} :: Top(f, y) && y != root ==> Top(Rotated(f, root, s), y)
    ensures var t, x := Rotated(f, root, s), Kid(f.cell[root], s);
        t.cell == f.cell[root := WithKid(f.cell[root], s, Kid(f.cell[x], Opp(s)))][x := WithKid(f.cell[x], Opp(s),
        root)]
  {
    var x := Kid(f.cell[root], s);
    Below(f, root, s);
    RotateCut(f, root, s);
    var z := Kid(f.cell[x], Opp(s));
    var t1 := Cut(f, root, s);
    var t2 := Cut(t1, x, Opp(s));
    GraftOk(t2, root, s, z);
    var t3 := Graft(t2, root, s, z);
    GraftTop(t2, root, s, z);
    RotateReady(t2, root, s, z, x);
    GraftOk(t3, x, Opp(s), root);
    GraftTop(t3, x, Opp(s), root);
    var t4 := Graft(t3, x, Opp(s), root);
    CutCells(f, root, s);
    CutCells(t1, x, Opp(s));
    hide *;
    RotatedIs(f, root, s);
    RotateCells(f.cell, root, x, s, z);
    ElsewhereChain(f, t2, t3, t4, {root, x}, {root}, {x}, f.under[root]);
  }

  lemma RotateCells(c: map<Ref, Cell>, root: Ref, x: Ref, s: Side, z: Ref)
    requires root in c && x in c && root != x && z == Kid(c[x], Opp(s))
    ensures var c1 := c[root := WithKid(c[root], s, NULL)];
        var c2 := c1[x := WithKid(c1[x], Opp(s), NULL)]; var c3 := c2[root := WithKid(c2[root], s, z)];
          c3[x := WithKid(c3[x], Opp(s), root)] == c[root := WithKid(c[root], s, z)][x := WithKid(c[x], Opp(s), root)]
  {
  }

  lemma RotatedIs(f: Forest, root: Ref, s: Side)
    requires Known(f, root) && Known(f, Kid(f.cell[root], s)) && Kid(f.cell[root], s) != root
    ensures var x := Kid(f.cell[root], s);
        Rotated(f, root, s) == Graft(Graft(Cut(Cut(f, root, s), x, Opp(s)), root, s, Kid(f.cell[x], Opp(s))), x,
        Opp(s), root)
  {
  }

  lemma CutCells(f: Forest, p: Ref, s: Side)
    requires Known(f, p)
    ensures Cut(f, p, s).cell == f.cell[p := WithKid(f.cell[p], s, NULL)]
  {
  }

  lemma ElsewhereChain(f: Forest, t: Forest, u: Forest, v: Forest, a: set<Ref>, b: set<Ref>, c: set<Ref>, all: set<Ref>)
    requires Elsewhere(f, t, a) && Elsewhere(t, u, b) && Elsewhere(u, v, c) && a + b + c <= all
    ensures Elsewhere(f, v, all)
  {
    forall n | n in f.cell && n in f.under && n !in all ensures v.cell[n] == f.cell[n] && v.under[n] == f.under[n] {
      assert t.cell[n] == f.cell[n] && u.cell[n] == t.cell[n] && v.cell[n] == u.cell[n];
    }
  }

  /** Both links on the way down are cut. */
  lemma RotateCut(f: Forest, root: Ref, s: Side)
    requires Shape(f) && Top(f, root) && Kid(f.cell[root], s) != NULL && Known(f, Kid(f.cell[root], s))
        && Kid(f.cell[root], s) != root
    ensures var x := Kid(f.cell[root], s); Top(Cut(f, root, s), x) && forall y {:trigger Top(f, y)} ::
        Top(f, y) ==> Top(Cut(Cut(f, root, s), x, Opp(s)), y)
    ensures var x := Kid(f.cell[root], s); var z := Kid(f.cell[x], Opp(s));
      var t := Cut(Cut(f, root, s), x, Opp(s));
          Shape(t) && Top(t, root) && Top(t, x) && CanGraft(t, root, s, z) && root !in t.under[x] && x !in t.under[root]
          && x !in Under(t, z) && Elsewhere(f, t, {root, x})
          && AllBeyond(t, Opp(s), t.key[x], t.under[root] + Under(t, z)) && Kid(t.cell[x], Opp(s)) == NULL
          && f.under[root] == t.under[root] + t.under[x] + Under(t, z) && root in f.under[root] && x in f.under[root]
  {
    var x := Kid(f.cell[root], s);
    var z := Kid(f.cell[x], Opp(s));
    var t1 := Cut(f, root, s);
    CutOk(f, root, s);
    CutAll(f, root, s);
    var t2 := Cut(t1, x, Opp(s));
    CutOk(t1, x, Opp(s));
    CutAll(t1, x, Opp(s));
    Below(f, root, s);
    At(f, root);
    At(t1, x);
    At(t2, x);
    At(t2, root);
    hide Shape, CanGraft, Cut, KidOk, NodeOk;
    RotateSets(f, t1, t2, root, x, z, s);
    CanGraftTop(t2, root, s, z);
  }

  lemma RotateSets(f: Forest, t1: Forest, t2: Forest, root: Ref, x: Ref, z: Ref, s: Side)
    requires Known(f, root) && Known(f, x) && root != x && Known(t1, root) && Known(t1, x) && Known(t2, root)
        && Known(t2, x) && x != NULL
    requires Elsewhere(f, t1, {root}) && Elsewhere(t1, t2, {x}) && z == Kid(t1.cell[x], Opp(s))
    requires f.under[root] == t1.under[root] + f.under[x] && t1.under[x] == f.under[x]
        && t1.under[x] == t2.under[x] + Under(t1, z) && Under(t2, z) == Under(t1, z)
    requires x in f.under[x] && root !in f.under[x] && t1.under[root] !! f.under[x]
        && AllBeyond(f, s, f.key[root], f.under[x]) && AllBeyond(t1, Opp(s), t1.key[x], Under(t1, z))
    requires root in t1.under[root] && t1.under[root] == {root} + Under(f, Kid(f.cell[root], Opp(s)))
        && AllBeyond(f, Opp(s), f.key[root], Under(f, Kid(f.cell[root], Opp(s)))) && x in t2.under[x]
        && t2.under[x] !! Under(t1, z)
    ensures root !in t2.under[x] && x !in t2.under[root] && x !in Under(t2, z) && Elsewhere(f, t2, {root, x})
        && AllBeyond(t2, Opp(s), t2.key[x], t2.under[root] + Under(t2, z))
        && AllBeyond(t2, s, t2.key[root], Under(t2, z))
    ensures f.under[root] == t2.under[root] + t2.under[x] + Under(t2, z) && root !in Under(t2, z)
  {
    assert t2.under[root] == t1.under[root];
    assert Beyond(s, f.key[root], f.key[x]);
    forall q | q in t2.under[root] + Under(t2, z) ensures q in t2.key && Beyond(Opp(s), t2.key[x], t2.key[q]) {
      if q in t2.under[root] && q != root { assert Beyond(Opp(s), f.key[root], f.key[q]); }
    }
  }

  lemma CanGraftTop(f: Forest, p: Ref, s: Side, x: Ref)
    requires Top(f, p) && Kid(f.cell[p], s) == NULL && (x != NULL ==>
        Top(f, x) && p !in f.under[x] && AllBeyond(f, s, f.key[p], f.under[x]))
    ensures CanGraft(f, p, s, x)
  {
  }

  lemma RotateReady(t: Forest, root: Ref, s: Side, z: Ref, x: Ref)
    requires Shape(t) && Top(t, root) && Top(t, x) && CanGraft(t, root, s, z) && root != x && x !in t.under[root]
        && x !in Under(t, z) && Kid(t.cell[x], Opp(s)) == NULL && x != z
    requires AllBeyond(t, Opp(s), t.key[x], t.under[root] + Under(t, z)) && root !in t.under[x]
    ensures CanGraft(Graft(t, root, s, z), x, Opp(s), root)
  {
    var u := Graft(t, root, s, z);
    GraftOk(t, root, s, z);
    GraftTop(t, root, s, z);
    assert Top(u, root) && Top(u, x);
    assert u.under[root] == t.under[root] + Under(t, z);
    CanGraftTop(u, x, Opp(s), root);
  }

  lemma CutAll(f: Forest, p: Ref, s: Side)
    requires Shape(f) && Top(f, p)
    ensures var t, x := Cut(f, p, s), Kid(f.cell[p], s);
        Elsewhere(f, t, {p}) && t.under[p] == {p} + Under(f, Kid(f.cell[p], Opp(s)))
        && f.under[p] == t.under[p] + Under(f, x) && AllBeyond(f, s, f.key[p], Under(f, x))
        && AllBeyond(f, Opp(s), f.key[p], Under(f, Kid(f.cell[p], Opp(s)))) && t.under[p] !! Under(f, x)
  {
    At(f, p);
    Below(f, p, s);
    Below(f, p, Opp(s));
    assert KidOk(f, p, L) && KidOk(f, p, R);
    hide Shape;
  }

  /** Grafting to the root of a tree. */
  lemma GraftTop(f: Forest, p: Ref, s: Side, x: Ref)
    requires Shape(f) && CanGraft(f, p, s, x) && Top(f, p)
    ensures var t := Graft(f, p, s, x);
        Elsewhere(f, t, {p}) && t.under[p] == f.under[p] + Under(f, x)
        && t.cell == f.cell[p := WithKid(f.cell[p], s, x)]
  {
    At(f, p);
    var t := Graft(f, p, s, x);
    assert x == NULL ==> f.cell[p] == WithKid(f.cell[p], s, x);
    forall n | n in f.cell && n in f.under && n != p ensures t.cell[n] == f.cell[n] && t.under[n] == f.under[n] {
      At(f, n);
    }
    hide Shape;
  }

  /**
   * A tree split off on side s of the root's: x at its top, p the node nearest to the root's, with nothing on that
   * side.
   */
  ghost predicate PieceAt(f: Forest, root: Ref, s: Side, p: Ref, x: Ref) {
    && Known(f, p) && Top(f, x) && p in f.under[x] && Kid(f.cell[p], Opp(s)) == NULL && Known(f, root)
      && AllBeyond(f, Opp(s), f.key[p], f.under[root])
    && forall q {:trigger q in f.under[x]} ::
        q in f.under[x] ==> q in f.key && (q == p || Beyond(s, f.key[p], f.key[q]))
  }

  /** What lies beyond p can be grafted to p. */
  lemma PieceGraft(f: Forest, s: Side, p: Ref, x: Ref, y: Ref)
    requires Shape(f) && Known(f, p) && Top(f, x) && p in f.under[x] && Kid(f.cell[p], Opp(s)) == NULL
    requires forall q {:trigger q in f.under[x]} ::
        q in f.under[x] ==> q in f.key && (q == p || Beyond(s, f.key[p], f.key[q]))
    requires y != NULL ==> Top(f, y) && AllBeyond(f, Opp(s), f.key[p], f.under[y])
    ensures CanGraft(f, p, Opp(s), y)
    ensures var t := Graft(f, p, Opp(s), y);
        t.under[x] == f.under[x] + Under(f, y) && Elsewhere(f, t, f.under[x])
        && t.cell == f.cell[p := WithKid(f.cell[p], Opp(s), y)] && (y != NULL ==> t.under[y] == f.under[y])
  {
    if y != NULL {
      assert p !in f.under[y] by { assert p in f.under[y] ==> Beyond(Opp(s), f.key[p], f.key[p]); }
      forall m {:trigger f.under[m]} | Known(f, m) && p in f.under[m] ensures m in f.under[x] {
        Pair(f, x, m);
        At(f, m);
        At(f, x);
      }
      forall m, c: Side {:trigger Beyond(c, f.key[m], f.key[p])} | Known(f, m) && p in f.under[m] && m != p
          && Beyond(c, f.key[m], f.key[p]) ensures AllBeyond(f, c, f.key[m], f.under[y]) {
        assert m in f.under[x];
      }
      At(f, y);
    }
    assert y == NULL ==> f.cell[p] == WithKid(f.cell[p], Opp(s), y);
    var t := Graft(f, p, Opp(s), y);
    forall n | n in f.cell && n in f.under && n !in f.under[x] ensures t.cell[n] == f.cell[n]
        && t.under[n] == f.under[n] {
      At(f, n);
    }
    hide Shape, NodeOk;
  }

  /**
   * SPLAY_LINKLEFT and SPLAY_LINKRIGHT: the root joins the piece on the other side, its child on side s becomes the
   * root.
   */
  lemma LinkOk(f: Forest, root: Ref, s: Side, p: Ref, x: Ref)
    requires Shape(f) && Top(f, root) && Kid(f.cell[root], s) != NULL && PieceAt(f, root, Opp(s), p, x)
    ensures var t, y := Graft(Cut(f, root, s), p, s, root), Kid(f.cell[root], s);
      && Shape(t) && Top(t, y) && PieceAt(t, y, Opp(s), root, x) && Known(f, y) && t.under[y] == f.under[y]
        && t.under[x] + t.under[y] == f.under[x] + f.under[root]
      && Elsewhere(f, t, f.under[x] + {root})
        && t.cell == f.cell[root := WithKid(f.cell[root], s, NULL)][p := WithKid(f.cell[p], s, root)]
      && (forall v {:trigger Top(t, v)} :: Top(f, v) && v != root ==> Top(t, v))
  {
    var y, t1 := Kid(f.cell[root], s), Cut(f, root, s);
    At(f, root);
    At(f, x);
    Below(f, root, s);
    CutOk(f, root, s);
    CutAll(f, root, s);
    CutCells(f, root, s);
    Outside(f, root, s, p, x);
    PieceGraft(t1, Opp(s), p, x, root);
    var t := Graft(t1, p, s, root);
    GraftOk(t1, p, s, root);
    LinkedPiece(f, t1, t, root, s, p, x, y);
    hide Shape, Cut, Graft;
  }

  /** The root is apart from a piece. */
  lemma Outside(f: Forest, root: Ref, s: Side, p: Ref, x: Ref)
    requires Shape(f) && Top(f, root) && PieceAt(f, root, Opp(s), p, x)
    ensures root !in f.under[x] && x !in f.under[root] && p !in f.under[root] && f.under[x] !! f.under[root]
        && x != root && p != root
  {
    At(f, root);
    At(f, x);
    assert Beyond(s, f.key[p], f.key[root]);
    Pair(f, root, x);
    hide Shape;
  }

  lemma LinkedPiece(f: Forest, t1: Forest, t: Forest, root: Ref, s: Side, p: Ref, x: Ref, y: Ref)
    requires Shape(t1) && Top(f, root) && PieceAt(f, root, Opp(s), p, x) && Elsewhere(f, t1, {root})
        && root !in f.under[x] && x != root && p != root && f.under[x] !! f.under[root]
    requires Top(t, x) && Top(t, y) && Known(f, y) && y in f.under[root] && y != root && f.under[root] == t1.under[root]
        + f.under[y] && t1.under[y] == f.under[y] && y != x
    requires Elsewhere(t1, t, t1.under[x]) && t.under[x] == t1.under[x] + t1.under[root]
        && t.under[root] == t1.under[root] && root in t1.under[root]
    requires t1.cell == f.cell[root := WithKid(f.cell[root], s, NULL)]
        && t.cell == t1.cell[p := WithKid(t1.cell[p], s, root)]
    requires AllBeyond(f, s, f.key[root], f.under[y]) && t1.under[root] == {root} + Under(f, Kid(f.cell[root], Opp(s)))
        && AllBeyond(f, Opp(s), f.key[root], Under(f, Kid(f.cell[root], Opp(s))))
    ensures PieceAt(t, y, Opp(s), root, x) && t.under[y] == f.under[y] && t.under[x] + t.under[y] == f.under[x]
        + f.under[root] && Elsewhere(f, t, f.under[x] + {root})
  {
    assert t1.under[x] == f.under[x];
    assert y !in t1.under[x];
    forall q {:trigger q in t.under[x]} | q in t.under[x] ensures q in t.key
        && (q == root || Beyond(Opp(s), t.key[root], t.key[q])) {
      if q in f.under[x] {
        assert q == p || Beyond(Opp(s), f.key[p], f.key[q]);
        assert Beyond(s, f.key[p], f.key[root]) by { assert root in f.under[root]; }
      }
    }
    hide Shape;
  }

  /** One half of SPLAY_ASSEMBLE: the root's child on side s goes to p, and the piece takes its place. */
  lemma MergeOk(f: Forest, root: Ref, s: Side, p: Ref, x: Ref)
    requires Shape(f) && Top(f, root) && PieceAt(f, root, s, p, x)
    ensures var t, a := Graft(Graft(Cut(f, root, s), p, Opp(s), Kid(f.cell[root], s)), root, s, x),
        Kid(f.cell[root], s);
      && Shape(t) && Top(t, root) && t.under[root] == f.under[root] + f.under[x]
        && Elsewhere(f, t, f.under[x] + f.under[root])
      && p != root && t.cell == f.cell[p := WithKid(f.cell[p], Opp(s), a)][root := WithKid(f.cell[root], s, x)]
      && (forall v {:trigger Top(t, v)} :: Top(f, v) && v != x ==> Top(t, v))
  {
    var a, t1 := Kid(f.cell[root], s), Cut(f, root, s);
    At(f, root);
    At(f, x);
    Below(f, root, s);
    CutOk(f, root, s);
    CutAll(f, root, s);
    CutCells(f, root, s);
    assert Opp(Opp(s)) == s;
    Outside(f, root, Opp(s), p, x);
    PieceGraft(t1, s, p, x, a);
    var t2 := Graft(t1, p, Opp(s), a);
    GraftOk(t1, p, Opp(s), a);
    MergeReady(f, t1, t2, root, s, p, x, a);
    GraftOk(t2, root, s, x);
    GraftTop(t2, root, s, x);
    var t := Graft(t2, root, s, x);
    hide *;
    ElsewhereChain(f, t1, t2, t, {root}, f.under[x], {root}, f.under[x] + f.under[root]);
    MergeCells(f.cell, root, s, p, a, x);
  }

  lemma MergeCells(c: map<Ref, Cell>, root: Ref, s: Side, p: Ref, a: Ref, x: Ref)
    requires root in c && p in c && root != p
    ensures var c1 := c[root := WithKid(c[root], s, NULL)]; var c2 := c1[p := WithKid(c1[p], Opp(s), a)];
        c2[root := WithKid(c2[root], s, x)] == c[p := WithKid(c[p], Opp(s), a)][root := WithKid(c[root], s, x)]
  {
  }

  lemma MergeReady(f: Forest, t1: Forest, t2: Forest, root: Ref, s: Side, p: Ref, x: Ref, a: Ref)
    requires Top(f, root) && PieceAt(f, root, s, p, x) && Elsewhere(f, t1, {root}) && root !in f.under[x] && x != root
        && p != root && f.under[x] !! f.under[root]
    requires Top(t2, x) && Top(t2, root) && f.under[root] == t1.under[root] + Under(f, a)
        && Kid(t1.cell[root], s) == NULL && a == Kid(f.cell[root], s) && Under(t1, a) == Under(f, a)
    requires Elsewhere(t1, t2, t1.under[x]) && t2.under[x] == t1.under[x] + Under(t1, a)
        && t2.cell == t1.cell[p := WithKid(t1.cell[p], Opp(s), a)]
    requires AllBeyond(f, s, f.key[root], Under(f, a)) && root !in Under(f, a) && root in f.under[root]
    ensures CanGraft(t2, root, s, x) && t2.under[root] + t2.under[x] == f.under[root] + f.under[x]
        && t1.under[x] == f.under[x]
  {
    assert t1.under[x] == f.under[x] && t2.under[root] == t1.under[root];
    forall q | q in t2.under[x] ensures q in t2.key && Beyond(s, t2.key[root], t2.key[q]) {
      if q in f.under[x] {
        assert q == p || Beyond(s, f.key[p], f.key[q]);
        assert Beyond(Opp(s), f.key[p], f.key[root]);
      }
    }
    CanGraftTop(t2, root, s, x);
  }

  // ---- Adding and dropping a node

  ghost function Added(f: Forest, n: Ref, k: int): Forest {
    Forest(f.cell[n := Cell(NULL, NULL)], f.under[n := {n}], f.key[n := k])
  }

  lemma AddOk(f: Forest, n: Ref, k: int)
    requires Shape(f) && n !in f.cell && n != NULL && forall m {:trigger f.key[m]} :: Known(f, m) ==> f.key[m] != k
    ensures var t := Added(f, n, k); Shape(t) && Top(t, n) && t.under[n] == {n} && forall y {:trigger Top(f, y)} ::
        Top(f, y) ==> Top(t, y) && t.under[y] == f.under[y]
  {
    var t := Added(f, n, k);
    forall m ensures NodeOk(t, m) { AddNode(f, n, k, m); }
    forall m, q ensures PairOk(t, m, q) { AddPair(f, n, k, m, q); }
    forall y, m {:trigger Top(f, y), t.under[m]} | Known(t, m) && Top(f, y) && y in t.under[m] ensures m == y {
      assert m != n ==> Known(f, m);
      At(f, y);
    }
    forall m {:trigger t.under[m]} | Known(t, m) && n in t.under[m] ensures m == n { if m != n { At(f, m); } }
    hide Shape;
  }

  lemma AddNode(f: Forest, n: Ref, k: int, m: Ref)
    requires Shape(f) && n !in f.cell && n != NULL
    ensures NodeOk(Added(f, n, k), m)
  {
    if m in f.cell {
      At(f, m);
      Below(f, m, L);
      Below(f, m, R);
      hide Shape;
    }
  }

  lemma AddPair(f: Forest, n: Ref, k: int, m: Ref, q: Ref)
    requires Shape(f) && n !in f.cell && n != NULL && forall m {:trigger f.key[m]} :: Known(f, m) ==> f.key[m] != k
    ensures PairOk(Added(f, n, k), m, q)
  {
    Pair(f, m, q);
    if m in f.cell { At(f, m); }
    if q in f.cell { At(f, q); }
    hide Shape;
  }

  ghost function Dropped(f: Forest, n: Ref): Forest { Forest(f.cell - {n}, f.under - {n}, f.key - {n}) }

  lemma DropOk(f: Forest, n: Ref)
    requires Shape(f) && Top(f, n) && f.under[n] == {n}
    ensures var t := Dropped(f, n);
        Shape(t) && forall y {:trigger Top(f, y)} :: Top(f, y) && y != n ==> Top(t, y) && t.under[y] == f.under[y]
  {
    var t := Dropped(f, n);
    forall m ensures NodeOk(t, m) { DropNode(f, n, m); }
    forall m, q ensures PairOk(t, m, q) { Pair(f, m, q); }
    forall y, m {:trigger Top(f, y), t.under[m]} | Known(t, m) && Top(f, y) && y in t.under[m] && y != n
        ensures m == y {
      assert Known(f, m);
    }
    hide Shape;
  }

  lemma DropNode(f: Forest, n: Ref, m: Ref)
    requires Shape(f) && Top(f, n) && f.under[n] == {n}
    ensures NodeOk(Dropped(f, n), m)
  {
    if m in f.cell && m != n {
      At(f, m);
      Below(f, m, L);
      Below(f, m, R);
      assert n !in f.under[m];
      hide Shape;
    }
  }

  /** Trees elsewhere keep their tops. */
  lemma TopElsewhere(f: Forest, t: Forest, w: set<Ref>, root: Ref, y: Ref)
    requires Shape(t) && Elsewhere(f, t, w) && Top(f, y) && y !in w && Top(t, root) && t.under[root] == w
    ensures Top(t, y) && t.under[y] == f.under[y]
  {
    forall m {:trigger t.under[m]} | Known(t, m) && y in t.under[m] ensures m == y {
      if m in w { Within(t, root, m); }
    }
    hide Shape;
  }
}
