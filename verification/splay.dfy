/** Splay trees (tree.h): top-down splaying, insertion, removal and search. */
module Splay {
  import opened SplayForest

  /** The local node on which SPLAY hangs the two pieces it splits off. */
  const HEAD: Ref := -1

  /** Where the pieces on both sides grow. */
  datatype Ends = Ends(left: Ref, right: Ref)

  function End(e: Ends, s: Side): Ref { if s.L? then e.left else e.right }

  function WithEnd(e: Ends, s: Side, x: Ref): Ends { if s.L? then e.(left := x) else e.(right := x) }

  /** The nodes in memory are those of the forest, but the open ends of the pieces hold old links. */
  ghost predicate SameAt(c: map<Ref, Cell>, f: Forest, e: Ends, n: Ref) {
    n in f.cell ==>
        n in c && (n == e.right || c[n].left == f.cell[n].left) && (n == e.left || c[n].right == f.cell[n].right)
  }

  ghost predicate Same(c: map<Ref, Cell>, f: Forest, e: Ends) {
    c.Keys == f.cell.Keys + {HEAD} && HEAD !in f.cell && forall n {:trigger c[n]} {:trigger f.cell[n]} ::
        SameAt(c, f, e, n)
  }

  /** The piece on side s hangs on the other side of the local node. */
  ghost function PieceTop(c: map<Ref, Cell>, s: Side): Ref { if HEAD in c then Kid(c[HEAD], Opp(s)) else NULL }

  ghost function Piece(c: map<Ref, Cell>, f: Forest, e: Ends, s: Side): set<Ref> {
    if End(e, s) == HEAD then {} else Under(f, PieceTop(c, s))
  }

  ghost predicate PieceOk(c: map<Ref, Cell>, f: Forest, root: Ref, e: Ends, s: Side) {
    End(e, s) == HEAD || PieceAt(f, root, s, End(e, s), PieceTop(c, s))
  }

  /** While the tree under root is being splayed: w are the nodes of the whole tree, g is the forest at the start. */
  ghost predicate Working(c: map<Ref, Cell>, f: Forest, root: Ref, e: Ends, g: Forest, w: set<Ref>) {
    && Shape(f) && Top(f, root) && Same(c, f, e) && PieceOk(c, f, root, e, L) && PieceOk(c, f, root, e, R)
    && f.under[root] + Piece(c, f, e, L) + Piece(c, f, e, R) == w && Elsewhere(g, f, w)
  }

  lemma Parts(c: map<Ref, Cell>, f: Forest, root: Ref, e: Ends, g: Forest, w: set<Ref>, s: Side)
    requires Working(c, f, root, e, g, w)
    ensures Shape(f) && Top(f, root) && Same(c, f, e) && PieceOk(c, f, root, e, s) && PieceOk(c, f, root, e, Opp(s))
        && Elsewhere(g, f, w)
    ensures Known(f, root) && f.under[root] + Piece(c, f, e, s) + Piece(c, f, e, Opp(s)) == w
  {
  }

  lemma Fold(c: map<Ref, Cell>, f: Forest, root: Ref, e: Ends, g: Forest, w: set<Ref>, s: Side)
    requires Shape(f) && Top(f, root) && Same(c, f, e) && PieceOk(c, f, root, e, s) && PieceOk(c, f, root, e, Opp(s))
        && Elsewhere(g, f, w)
    requires Known(f, root) && f.under[root] + Piece(c, f, e, s) + Piece(c, f, e, Opp(s)) == w
    ensures Working(c, f, root, e, g, w)
  {
  }

  /** The root is not an end of a piece, and its children are as in memory. */
  lemma RootCell(c: map<Ref, Cell>, f: Forest, root: Ref, e: Ends, g: Forest, w: set<Ref>)
    requires Working(c, f, root, e, g, w)
    ensures Known(f, root) && root in c && c[root] == f.cell[root] && root in f.key && HEAD in c && root != HEAD
        && root in w
    ensures root != e.left && root != e.right && (e.left == HEAD || e.left in c) && (e.right == HEAD || e.right in c)
        && (e.left != HEAD || e.right != HEAD ==> e.left != e.right)
    ensures forall s: Side :: End(e, s) == HEAD || End(e, s) !in f.under[root]
    ensures forall n {:trigger c[n]} :: n in f.under[root] ==> n in c && n in f.cell && c[n] == f.cell[n]
  {
    Parts(c, f, root, e, g, w, L);
    Parts(c, f, root, e, g, w, R);
    At(f, root);
    assert Opp(L) == R && Opp(R) == L;
    forall s: Side ensures End(e, s) == HEAD || End(e, s) !in f.under[root] {
      if End(e, s) != HEAD { Outside(f, root, Opp(s), End(e, s), PieceTop(c, s)); assert Opp(Opp(s)) == s; }
    }
    assert End(e, L) == e.left && End(e, R) == e.right;
    if e.left != HEAD && e.right != HEAD {
      assert Beyond(R, f.key[e.left], f.key[root]) && Beyond(L, f.key[e.right], f.key[root]);
    }
    hide Shape;
  }

  /** A piece is not touched by changes elsewhere. */
  lemma PieceKept(c: map<Ref, Cell>, d: map<Ref, Cell>, f: Forest, t: Forest, root: Ref, x: Ref, e: Ends, e1: Ends,
      s: Side, ch: set<Ref>)
    requires PieceOk(c, f, root, e, s) && Elsewhere(f, t, ch) && ch !! Piece(c, f, e, s) && Known(t, x)
        && Known(f, root) && t.under[x] <= f.under[root] && End(e1, s) == End(e, s)
    requires End(e, s) != HEAD ==>
        PieceTop(d, s) == PieceTop(c, s) && Top(t, PieceTop(c, s)) && PieceTop(c, s) in f.under[PieceTop(c, s)]
    ensures PieceOk(d, t, x, e1, s) && Piece(d, t, e1, s) == Piece(c, f, e, s)
  {
    var p, y := End(e, s), PieceTop(c, s);
    if p != HEAD {
      assert p in Piece(c, f, e, s) && y in Piece(c, f, e, s);
      assert t.cell[p] == f.cell[p] && t.under[y] == f.under[y];
      hide Elsewhere;
    }
  }

  /** The pieces and the tree between them are apart. */
  lemma Apart(c: map<Ref, Cell>, f: Forest, root: Ref, e: Ends, s: Side)
    requires Shape(f) && Top(f, root) && PieceOk(c, f, root, e, s) && PieceOk(c, f, root, e, Opp(s))
    ensures Piece(c, f, e, s) !! f.under[root] && Piece(c, f, e, s) !! Piece(c, f, e, Opp(s))
    ensures var x := PieceTop(c, s);
        End(e, s) != HEAD ==> Known(f, x) && x in f.under[x] && x != root && Piece(c, f, e, s) == f.under[x]
    ensures var x, y := PieceTop(c, s), PieceTop(c, Opp(s)); End(e, s) != HEAD && End(e, Opp(s)) != HEAD ==> x != y
  {
    assert Opp(Opp(s)) == s;
    At(f, root);
    if End(e, s) != HEAD {
      Outside(f, root, Opp(s), End(e, s), PieceTop(c, s));
      At(f, PieceTop(c, s));
      forall q | q in Piece(c, f, e, s) ensures q !in Piece(c, f, e, Opp(s)) {
        PieceSide(f, root, s, End(e, s), PieceTop(c, s), q);
        if End(e, Opp(s)) != HEAD && q in Piece(c, f, e, Opp(s)) {
          PieceSide(f, root, Opp(s), End(e, Opp(s)), PieceTop(c, Opp(s)), q);
        }
      }
    }
    hide Shape, PieceAt;
  }

  lemma PieceSide(f: Forest, root: Ref, s: Side, p: Ref, x: Ref, q: Ref)
    requires PieceAt(f, root, s, p, x) && q in f.under[x] && root in f.under[root]
    ensures q in f.key && Beyond(s, f.key[root], f.key[q])
  {
  }

  lemma RotateStep(c: map<Ref, Cell>, f: Forest, root: Ref, e: Ends, g: Forest, w: set<Ref>, s: Side)
    requires Working(c, f, root, e, g, w) && root in c && Kid(c[root], s) != NULL
    ensures var x := Kid(c[root], s); x in c && x != root && Known(f, root) && Known(f, x) && c[root] == f.cell[root]
    ensures var x, t := Kid(c[root], s), Rotated(f, root, s);
      var d := c[root := WithKid(c[root], s, Kid(c[x], Opp(s)))];
          Working(d[x := WithKid(d[x], Opp(s), root)], t, x, e, g, w) && t.under[x] == f.under[root] && t.key == f.key
    ensures var x, t := Kid(c[root], s), Rotated(f, root, s);
      var d := c[root := WithKid(c[root], s, Kid(c[x], Opp(s)))];
          Piece(d[x := WithKid(d[x], Opp(s), root)], t, e, s) == Piece(c, f, e, s)
          && Piece(d[x := WithKid(d[x], Opp(s), root)], t, e, Opp(s)) == Piece(c, f, e, Opp(s))
  {
    RootCell(c, f, root, e, g, w);
    Parts(c, f, root, e, g, w, s);
    RotateOk(f, root, s);
    Below(f, root, s);
    var x, t := Kid(c[root], s), Rotated(f, root, s);
    var d := c[root := WithKid(c[root], s, Kid(c[x], Opp(s)))];
    var d1 := d[x := WithKid(d[x], Opp(s), root)];
    assert c[x] == f.cell[x] && x != HEAD;
    assert Known(t, x);
    assert Opp(Opp(s)) == s;
    Apart(c, f, root, e, s);
    Apart(c, f, root, e, Opp(s));
    PieceKept(c, d1, f, t, root, x, e, e, s, f.under[root]);
    PieceKept(c, d1, f, t, root, x, e, e, Opp(s), f.under[root]);
    RotateSame(c, f, root, e, s, x, t, d1);
    ElsewhereTwo(g, f, t, w, f.under[root]);
    hide Shape, Same, PieceOk, Elsewhere, Rotated, Top;
    Fold(d1, t, x, e, g, w, s);
  }

  lemma RotateSame(c: map<Ref, Cell>, f: Forest, root: Ref, e: Ends, s: Side, x: Ref, t: Forest, d: map<Ref, Cell>)
    requires Same(c, f, e) && root in f.cell && x in f.cell && root in c && x in c && c[root] == f.cell[root]
        && c[x] == f.cell[x] && x != root
    requires t.cell == f.cell[root := WithKid(f.cell[root], s, Kid(f.cell[x], Opp(s)))][x := WithKid(f.cell[x], Opp(s),
        root)]
    requires d == c[root := WithKid(c[root], s, Kid(c[x], Opp(s)))][x := WithKid(c[x], Opp(s), root)]
    ensures Same(d, t, e)
  {
    forall n ensures SameAt(d, t, e, n) { assert SameAt(c, f, e, n); }
  }

  lemma ElsewhereTwo(g: Forest, f: Forest, t: Forest, w: set<Ref>, a: set<Ref>)
    requires Elsewhere(g, f, w) && Elsewhere(f, t, a) && a <= w
    ensures Elsewhere(g, t, w)
  {
    forall n | n in g.cell && n in g.under && n !in w ensures t.cell[n] == g.cell[n] && t.under[n] == g.under[n] {
      assert f.cell[n] == g.cell[n];
      assert t.cell[n] == f.cell[n];
    }
  }

  /** The forest after a link: p is HEAD, or an end. */
  ghost function Linked(f: Forest, root: Ref, s: Side, p: Ref): Forest
    requires Known(f, root) && (p != HEAD ==> Known(Cut(f, root, s), p))
  {
    if p == HEAD then Cut(f, root, s) else Graft(Cut(f, root, s), p, s, root)
  }

  lemma EndKnown(c: map<Ref, Cell>, f: Forest, root: Ref, e: Ends, g: Forest, w: set<Ref>, s: Side, q: Side)
    requires Working(c, f, root, e, g, w)
    ensures Known(f, root) && (End(e, s) != HEAD ==> Known(Cut(f, root, q), End(e, s))) && End(e, s) in c
  {
    Parts(c, f, root, e, g, w, s);
    RootCell(c, f, root, e, g, w);
    hide Shape, Same;
  }

  lemma LinkStep(c: map<Ref, Cell>, f: Forest, root: Ref, e: Ends, g: Forest, w: set<Ref>, s: Side)
    requires Working(c, f, root, e, g, w) && root in c && Kid(c[root], s) != NULL
    ensures Known(f, root) && (End(e, Opp(s)) != HEAD ==> Known(Cut(f, root, s), End(e, Opp(s)))) && End(e, Opp(s)) in c
    ensures var p, y := End(e, Opp(s)), Kid(c[root], s);
      var d, t, e1 := c[p := WithKid(c[p], s, root)], Linked(f, root, s, p), WithEnd(e, Opp(s), root);
      Working(d, t, y, e1, g, w) && t.key == f.key && Known(t, y) && t.under[y] == f.under[y]
          && f.under[y] <= f.under[root] && root !in f.under[y] && root in f.under[root]
          && Piece(d, t, e1, s) == Piece(c, f, e, s) && AllBeyond(f, s, f.key[root], f.under[y])
      && forall q :: q in Piece(d, t, e1, Opp(s)) ==> q in f.key && (q == root || Beyond(Opp(s), f.key[root], f.key[q]))
  {
    hide Shape, Elsewhere, Same, Linked, Working, PieceAt, Top, Cut;
    EndKnown(c, f, root, e, g, w, Opp(s), s);
    RootCell(c, f, root, e, g, w);
    Parts(c, f, root, e, g, w, s);
    At(f, root);
    var p, y, t := End(e, Opp(s)), Kid(c[root], s), Linked(f, root, s, End(e, Opp(s)));
    var d, e1 := c[p := WithKid(c[p], s, root)], WithEnd(e, Opp(s), root);
    Below(f, root, s);
    assert KidOk(f, root, L) && KidOk(f, root, R);
    assert Opp(Opp(s)) == s;
    Apart(c, f, root, e, s);
    Apart(c, f, root, e, Opp(s));
    LinkForest(c, f, root, e, s, y, t, d);
    PieceKept(c, d, f, t, root, y, e, e1, s, Piece(c, f, e, Opp(s)) + {root});
    LinkSame(c, f, root, e, s, p, t, d);
    ElsewhereTwo(g, f, t, w, Piece(c, f, e, Opp(s)) + {root});
    assert Known(t, y);
    hide *;
    Fold(d, t, y, e1, g, w, s);
  }

  /** The piece that the root joins. */
  lemma LinkForest(c: map<Ref, Cell>, f: Forest, root: Ref, e: Ends, s: Side, y: Ref, t: Forest, d: map<Ref, Cell>)
    requires Shape(f) && Top(f, root) && PieceOk(c, f, root, e, s) && PieceOk(c, f, root, e, Opp(s))
        && y == Kid(f.cell[root], s) && y != NULL && Known(f, y)
    requires HEAD in c && HEAD !in f.cell && root != HEAD
        && (End(e, Opp(s)) != HEAD ==> Known(Cut(f, root, s), End(e, Opp(s)))) && End(e, Opp(s)) in c
    requires t == Linked(f, root, s, End(e, Opp(s))) && d == c[End(e, Opp(s)) := WithKid(c[End(e, Opp(s))], s, root)]
    ensures var e1 := WithEnd(e, Opp(s), root);
      && Shape(t) && Top(t, y) && t.under[y] == f.under[y] && Elsewhere(f, t, Piece(c, f, e, Opp(s)) + {root})
        && PieceOk(d, t, y, e1, Opp(s)) && t.key == f.key && Known(t, y)
      && t.cell == (if End(e, Opp(s)) == HEAD then f.cell[root := WithKid(f.cell[root], s, NULL)]
        else f.cell[root := WithKid(f.cell[root], s, NULL)][End(e, Opp(s)) := WithKid(f.cell[End(e, Opp(s))], s, root)])
      && Piece(d, t, e1, Opp(s)) + f.under[y] == Piece(c, f, e, Opp(s)) + f.under[root]
        && (End(e, s) != HEAD ==> Top(t, PieceTop(c, s)))
      && forall q :: q in Piece(d, t, e1, Opp(s)) ==> q in f.key && (q == root || Beyond(Opp(s), f.key[root], f.key[q]))
  {
    var p, x := End(e, Opp(s)), PieceTop(c, Opp(s));
    assert Opp(Opp(s)) == s;
    Apart(c, f, root, e, s);
    Apart(c, f, root, e, Opp(s));
    if p == HEAD {
      CutOk(f, root, s);
      CutAll(f, root, s);
      At(f, root);
      Below(f, root, s);
    } else {
      LinkOk(f, root, s, p, x);
    }
    hide Shape, Graft;
  }

  lemma LinkSame(c: map<Ref, Cell>, f: Forest, root: Ref, e: Ends, s: Side, p: Ref, t: Forest, d: map<Ref, Cell>)
    requires Same(c, f, e) && root in f.cell && root in c && c[root] == f.cell[root] && p == End(e, Opp(s)) && p != root
        && p in c && (p != HEAD ==> p in f.cell) && End(e, s) != root && (p != HEAD ==> End(e, s) != p)
    requires t.cell == if p == HEAD then f.cell[root := WithKid(f.cell[root], s, NULL)]
        else f.cell[root := WithKid(f.cell[root], s, NULL)][p := WithKid(f.cell[p], s, root)]
    requires d == c[p := WithKid(c[p], s, root)]
    ensures Same(d, t, WithEnd(e, Opp(s), root))
  {
    forall n ensures SameAt(d, t, WithEnd(e, Opp(s), root), n) { assert SameAt(c, f, e, n); }
  }

  /** One half of SPLAY_ASSEMBLE. */
  function HalfAssembled(c: map<Ref, Cell>, root: Ref, p: Ref, s: Side): map<Ref, Cell>
    requires root in c && p in c && HEAD in c
  {
    var d := c[p := WithKid(c[p], Opp(s), Kid(c[root], s))];
    d[root := WithKid(d[root], s, Kid(d[HEAD], Opp(s)))]
  }

  lemma MergeStep(c: map<Ref, Cell>, f: Forest, root: Ref, e: Ends, g: Forest, w: set<Ref>, s: Side) returns (t: Forest)
    requires Working(c, f, root, e, g, w)
    ensures root in c && End(e, s) in c && HEAD in c
        && Working(HalfAssembled(c, root, End(e, s), s), t, root, WithEnd(e, s, HEAD), g, w) && t.key == f.key
  {
    EndKnown(c, f, root, e, g, w, s, s);
    RootCell(c, f, root, e, g, w);
    Parts(c, f, root, e, g, w, s);
    var p, x := End(e, s), PieceTop(c, s);
    var d, e1 := HalfAssembled(c, root, p, s), WithEnd(e, s, HEAD);
    assert Opp(Opp(s)) == s;
    Apart(c, f, root, e, s);
    Apart(c, f, root, e, Opp(s));
    if p == HEAD {
      t := f;
      PieceKept(c, d, f, t, root, root, e, e1, Opp(s), {});
    } else {
      MergeOk(f, root, s, p, x);
      t := Graft(Graft(Cut(f, root, s), p, Opp(s), Kid(f.cell[root], s)), root, s, x);
      MergedPiece(c, f, root, e, s, t, d);
    }
    MergeSame(c, f, root, e, s, p, x, t, d);
    ElsewhereTwo(g, f, t, w, f.under[root] + Piece(c, f, e, s));
    hide *;
    MergeEnds(e, s);
    MergeFold(c, f, root, e, g, w, s, t, d);
  }

  lemma MergeEnds(e: Ends, s: Side)
    ensures End(WithEnd(e, s, HEAD), s) == HEAD && End(WithEnd(e, s, HEAD), Opp(s)) == End(e, Opp(s))
  {
  }

  /** The piece on the other side. */
  lemma MergedPiece(c: map<Ref, Cell>, f: Forest, root: Ref, e: Ends, s: Side, t: Forest, d: map<Ref, Cell>)
    requires Shape(f) && Top(f, root) && PieceOk(c, f, root, e, Opp(s))
        && Elsewhere(f, t, f.under[root] + Piece(c, f, e, s)) && Known(t, root)
        && t.under[root] == f.under[root] + Piece(c, f, e, s)
    requires Piece(c, f, e, s) !! f.under[root] && Piece(c, f, e, s) !! Piece(c, f, e, Opp(s))
        && Piece(c, f, e, Opp(s)) !! f.under[root]
    requires End(e, s) != HEAD && PieceAt(f, root, s, End(e, s), PieceTop(c, s))
        && PieceTop(d, Opp(s)) == PieceTop(c, Opp(s))
    requires End(e, Opp(s)) != HEAD ==>
        Top(t, PieceTop(c, Opp(s))) && PieceTop(c, Opp(s)) in f.under[PieceTop(c, Opp(s))]
    ensures PieceOk(d, t, root, WithEnd(e, s, HEAD), Opp(s)) && Piece(d, t, WithEnd(e, s, HEAD), Opp(s))
        == Piece(c, f, e, Opp(s))
  {
    var p, y := End(e, Opp(s)), PieceTop(c, Opp(s));
    assert Opp(Opp(s)) == s;
    if p != HEAD {
      assert p in Piece(c, f, e, Opp(s)) && y in Piece(c, f, e, Opp(s));
      assert t.cell[p] == f.cell[p] && t.under[y] == f.under[y];
      At(f, root);
      forall q | q in t.under[root] ensures q in t.key && Beyond(s, t.key[p], t.key[q]) {
        if q in Piece(c, f, e, s) {
          PieceSide(f, root, s, End(e, s), PieceTop(c, s), q);
          PieceSide(f, root, Opp(s), p, y, p);
        }
      }
    }
    hide Shape;
  }

  lemma MergeSame(c: map<Ref, Cell>, f: Forest, root: Ref, e: Ends, s: Side, p: Ref, x: Ref, t: Forest, d: map<Ref,
      Cell>)
    requires Same(c, f, e) && root in f.cell && root in c && p in c && HEAD in c && root != HEAD
    requires c[root] == f.cell[root] && p == End(e, s) && p != root
    requires (p != HEAD ==> p in f.cell && x == PieceTop(c, s) && End(e, Opp(s)) != p) && End(e, Opp(s)) != root
    requires t.cell == if p == HEAD then f.cell else f.cell[p := WithKid(f.cell[p], Opp(s), Kid(f.cell[root], s))][root
        := WithKid(f.cell[root], s, x)]
    requires d == HalfAssembled(c, root, p, s)
    ensures Same(d, t, WithEnd(e, s, HEAD))
  {
    forall n ensures SameAt(d, t, WithEnd(e, s, HEAD), n) { assert SameAt(c, f, e, n); }
  }

  lemma MergeFold(c: map<Ref, Cell>, f: Forest, root: Ref, e: Ends, g: Forest, w: set<Ref>, s: Side, t: Forest,
      d: map<Ref, Cell>)
    requires Shape(t) && Top(t, root) && Same(d, t, WithEnd(e, s, HEAD))
        && PieceOk(d, t, root, WithEnd(e, s, HEAD), Opp(s)) && Elsewhere(g, t, w) && Known(f, root)
    requires f.under[root] + Piece(c, f, e, s) + Piece(c, f, e, Opp(s)) == w
        && t.under[root] == f.under[root] + Piece(c, f, e, s) && Piece(d, t, WithEnd(e, s, HEAD), Opp(s))
        == Piece(c, f, e, Opp(s))
    ensures Working(d, t, root, WithEnd(e, s, HEAD), g, w)
  {
    MergeEnds(e, s);
    hide Shape, Same;
    Fold(d, t, root, WithEnd(e, s, HEAD), g, w, s);
  }

  /** SPLAY_ASSEMBLE does both halves at once. */
  lemma AssembleIs(c: map<Ref, Cell>, root: Ref, e: Ends)
    requires root in c && e.left in c && e.right in c && HEAD in c && root != HEAD && e.left != root && e.right != root
        && (e.left == e.right ==> e.left == HEAD)
    ensures var c1 := c[e.left := c[e.left].(right := c[root].left)];
      var c2 := c1[e.right := c1[e.right].(left := c1[root].right)];
      var c3 := c2[root := c2[root].(left := c2[HEAD].right)];
      HalfAssembled(HalfAssembled(c, root, e.left, L), root, e.right, R)
          == c3[root := c3[root].(right := c3[HEAD].left)]
  {
  }

  /** Nothing is left on the local node. */
  lemma Assembled(c: map<Ref, Cell>, f: Forest, root: Ref, g: Forest, w: set<Ref>)
    requires Working(c, f, root, Ends(HEAD, HEAD), g, w)
    ensures Shape(f) && Top(f, root) && Elsewhere(g, f, w) && f.under[root] == w && c - {HEAD} == f.cell
  {
    Parts(c, f, root, Ends(HEAD, HEAD), g, w, L);
    var d := c - {HEAD};
    forall n | n in d ensures n in f.cell && d[n] == f.cell[n] {
      assert SameAt(c, f, Ends(HEAD, HEAD), n);
      assert f.cell[n] == f.cell[n];
      assert c[n].left == f.cell[n].left && c[n].right == f.cell[n].right;
    }
    assert d.Keys == f.cell.Keys;
    hide Shape;
  }

  /** At the start, everything is under the root. */
  lemma Start(f: Forest, root: Ref)
    requires Shape(f) && Top(f, root) && HEAD !in f.cell
    ensures Working(f.cell[HEAD := Cell(NULL, NULL)], f, root, Ends(HEAD, HEAD), f, f.under[root])
  {
    var c := f.cell[HEAD := Cell(NULL, NULL)];
    forall n ensures SameAt(c, f, Ends(HEAD, HEAD), n) { }
    hide Shape;
  }

  // ---- The operations

  function SideOf(j: int, k: int): Side { if k < j then L else R }

  /** What k is compared with: a node with key k, or one next to where k would be. */
  ghost predicate Nearest(f: Forest, root: Ref, k: int, w: set<Ref>) {
    root in f.key && (f.key[root] == k || forall q {:trigger q in w} ::
        q in w ==> q in f.key && (Beyond(SideOf(f.key[root], k), f.key[root], f.key[q]) ==>
          Beyond(SideOf(f.key[root], k), k, f.key[q])))
  }

  /** k lies between the pieces. */
  ghost predicate Bounds(c: map<Ref, Cell>, f: Forest, e: Ends, k: int) {
    AllBeyond(f, L, k, Piece(c, f, e, L)) && AllBeyond(f, R, k, Piece(c, f, e, R))
  }

  lemma Sides(j: int, k: int)
    ensures j != k ==> Beyond(SideOf(j, k), j, k)
    ensures forall s: Side {:trigger Beyond(s, j, k)} :: Beyond(s, j, k) ==> SideOf(j, k) == s
  {
  }

  lemma EndKept(e: Ends, s: Side, x: Ref)
    ensures End(WithEnd(e, Opp(s), x), s) == End(e, s)
  {
  }

  lemma EndsAre(e: Ends)
    ensures End(e, L) == e.left && End(e, R) == e.right && WithEnd(e, L, HEAD) == Ends(HEAD, e.right)
        && End(Ends(HEAD, e.right), R) == e.right && WithEnd(Ends(HEAD, e.right), R, HEAD) == Ends(HEAD, HEAD)
  {
  }

  lemma TopKnown(f: Forest, x: Ref)
    requires Top(f, x)
    ensures Known(f, x) && x in f.under && x in f.cell && x in f.key && x != NULL
  {
  }

  lemma UnderIs(f: Forest, n: Ref)
    ensures Known(f, n) ==> Under(f, n) == f.under[n]
  {
  }

  lemma SplayStart(f: Forest, root: Ref, k: int)
    requires Shape(f) && Top(f, root) && HEAD !in f.cell
    ensures Known(f, root) && Under(f, root) == f.under[root]
        && Bounds(f.cell[HEAD := Cell(NULL, NULL)], f, Ends(HEAD, HEAD), k)
    ensures Working(f.cell[HEAD := Cell(NULL, NULL)], f, root, Ends(HEAD, HEAD), f, f.under[root])
  {
    Start(f, root);
    hide Shape;
  }

  lemma RootKid(c: map<Ref, Cell>, f: Forest, root: Ref, e: Ends, g: Forest, w: set<Ref>, s: Side)
    requires Working(c, f, root, e, g, w) && root in c
    ensures Kid(c[root], s) != NULL ==> Kid(c[root], s) in f.key
  {
    RootCell(c, f, root, e, g, w);
    Parts(c, f, root, e, g, w, s);
    Below(f, root, s);
    hide Shape, Same, Working;
  }

  lemma BoundsKept(c: map<Ref, Cell>, f: Forest, e: Ends, d: map<Ref, Cell>, t: Forest, k: int, s: Side)
    requires Bounds(c, f, e, k) && t.key == f.key && Piece(d, t, e, s) == Piece(c, f, e, s)
        && Piece(d, t, e, Opp(s)) == Piece(c, f, e, Opp(s))
    ensures Bounds(d, t, e, k)
  {
    hide Piece;
  }

  lemma BoundsLink(c: map<Ref, Cell>, f: Forest, e: Ends, d: map<Ref, Cell>, t: Forest, e1: Ends, k: int, s: Side,
      root: Ref)
    requires Bounds(c, f, e, k) && t.key == f.key && Piece(d, t, e1, s) == Piece(c, f, e, s) && root in f.key
        && Beyond(s, f.key[root], k)
    requires forall q ::
        q in Piece(d, t, e1, Opp(s)) ==> q in f.key && (q == root || Beyond(Opp(s), f.key[root], f.key[q]))
    ensures Bounds(d, t, e1, k)
  {
    hide Piece;
  }

  /** No further step is possible. */
  ghost predicate Done(c: map<Ref, Cell>, key: map<Ref, int>, root: Ref, k: int) {
    root in key && root in c && (key[root] == k || Kid(c[root], SideOf(key[root], k)) == NULL)
  }

  lemma DoneIs(c: map<Ref, Cell>, key: map<Ref, int>, root: Ref, k: int)
    requires root in key && root in c && (key[root] == k || Kid(c[root], SideOf(key[root], k)) == NULL)
    ensures Done(c, key, root, k)
  {
  }

  lemma NearestOk(c: map<Ref, Cell>, f: Forest, root: Ref, e: Ends, g: Forest, w: set<Ref>, k: int)
    requires Working(c, f, root, e, g, w) && Bounds(c, f, e, k) && Done(c, f.key, root, k)
    ensures Nearest(f, root, k, w)
  {
    RootCell(c, f, root, e, g, w);
    var s := SideOf(f.key[root], k);
    Parts(c, f, root, e, g, w, s);
    At(f, root);
    assert KidOk(f, root, L) && KidOk(f, root, R);
    if f.key[root] != k {
      forall q {:trigger q in w} | q in w ensures q in f.key
          && (Beyond(s, f.key[root], f.key[q]) ==> Beyond(s, k, f.key[q])) {
        if q in Piece(c, f, e, Opp(s)) { PieceSide(f, root, Opp(s), End(e, Opp(s)), PieceTop(c, Opp(s)), q); }
        if q in Piece(c, f, e, s) { assert Beyond(s, k, f.key[q]); }
      }
    }
    hide Shape, Working, Same;
  }

  lemma NearestSame(f: Forest, t: Forest, root: Ref, k: int, w: set<Ref>)
    requires Nearest(f, root, k, w) && t.key == f.key
    ensures Nearest(t, root, k, w)
  {
  }

  class SplayTree {
    var cell: map<Ref, Cell>
    var root: Ref
    var key: map<Ref, int>
    ghost var under: map<Ref, set<Ref>>

    ghost predicate Valid()
      reads this
    {
      && HEAD !in cell && cell.Keys == key.Keys
      && if root == NULL then cell == map[]
         else
           Shape(Forest(cell, under, key)) && Top(Forest(cell, under, key), root) && under[root] == cell.Keys
    }

    constructor ()
      ensures Valid() && key == map[]
    {
      cell, root, key, under := map[], NULL, map[], map[];
    }

    /** SPLAY: the tree under the root, which need not be the whole forest. */
    method Splay(k: int)
      requires HEAD !in cell && Shape(Forest(cell, under, key)) && Top(Forest(cell, under, key), root)
      modifies this`cell, this`root, this`under
      ensures HEAD !in cell && Shape(Forest(cell, under, key)) && Top(Forest(cell, under, key), root)
      ensures old(root in under) && root in under && under[root] == old(under[root])
          && Elsewhere(old(Forest(cell, under, key)), Forest(cell, under, key), old(under[root]))
      ensures Nearest(Forest(cell, under, key), root, k, under[root])
    {
      hide *;
      ghost var f := Forest(cell, under, key);
      ghost var g, w, e1 := f, Under(f, root), root;
      SplayStart(f, root, k);
      TopKnown(f, root);
      cell := cell[HEAD := Cell(NULL, NULL)];
      var e := Ends(HEAD, HEAD);
      RootCell(cell, f, root, e, g, w);
      while key[root] != k
        invariant Working(cell, f, root, e, g, w) && Bounds(cell, f, e, k) && f.key == key && root in key
            && root in cell
        decreases Under(f, root)
      {
        Sides(key[root], k);
        var s := SideOf(key[root], k);
        var tmp := Kid(cell[root], s);
        if tmp == NULL { break; }
        RootKid(cell, f, root, e, g, w, s);
        UnderIs(f, root);
        if Beyond(s, key[tmp], k) {
          f := Rotate(e, f, g, w, s, k);
          Sides(key[tmp], k);
          if Kid(cell[root], s) == NULL { break; }
        }
        e, f := Link(e, f, g, w, s, k);
      }
      DoneIs(cell, key, root, k);
      NearestOk(cell, f, root, e, g, w, k);
      Assemble(e, f, g, w);
      NearestSame(f, Forest(cell, under, key), root, k, w);
    }

    /** SPLAY_ROTATE_RIGHT if s is left, SPLAY_ROTATE_LEFT if it is right. */
    method Rotate(e: Ends, ghost f: Forest, ghost g: Forest, ghost w: set<Ref>, s: Side, ghost k: int)
        returns (ghost t: Forest)
      requires Working(cell, f, root, e, g, w) && Bounds(cell, f, e, k) && f.key == key && root in cell
          && Kid(cell[root], s) != NULL
      modifies this`cell, this`root
      ensures Working(cell, t, root, e, g, w) && Bounds(cell, t, e, k) && t.key == key && root in key && root in cell
          && root == Kid(old(cell[root]), s) && Under(t, root) == Under(f, old(root))
    {
      hide *;
      RotateStep(cell, f, root, e, g, w, s);
      UnderIs(f, root);
      ghost var c := cell;
      t := Rotated(f, root, s);
      var tmp := Kid(cell[root], s);
      cell := cell[root := WithKid(cell[root], s, Kid(cell[tmp], Opp(s)))];
      cell := cell[tmp := WithKid(cell[tmp], Opp(s), root)];
      root := tmp;
      BoundsKept(c, f, e, cell, t, k, s);
      RootCell(cell, t, root, e, g, w);
      UnderIs(t, root);
    }

    /** SPLAY_LINKLEFT if s is left, SPLAY_LINKRIGHT if it is right. */
    method Link(e: Ends, ghost f: Forest, ghost g: Forest, ghost w: set<Ref>, s: Side, ghost k: int)
        returns (e1: Ends, ghost t: Forest)
      requires Working(cell, f, root, e, g, w) && Bounds(cell, f, e, k) && f.key == key && root in cell && root in key
          && Kid(cell[root], s) != NULL && Beyond(s, key[root], k)
      modifies this`cell, this`root
      ensures Working(cell, t, root, e1, g, w) && Bounds(cell, t, e1, k) && t.key == key && root in key && root in cell
          && Under(t, root) < Under(f, old(root)) && End(e1, s) == End(e, s)
    {
      hide *;
      LinkStep(cell, f, root, e, g, w, s);
      UnderIs(f, root);
      ghost var c, r := cell, root;
      var end := End(e, Opp(s));
      t := Linked(f, root, s, end);
      var following := Kid(cell[root], s);
      cell := cell[end := WithKid(cell[end], s, root)];
      e1 := WithEnd(e, Opp(s), root);
      root := following;
      BoundsLink(c, f, e, cell, t, e1, k, s, r);
      RootCell(cell, t, root, e1, g, w);
      UnderIs(t, root);
      EndKept(e, s, r);
    }

    /** SPLAY_ASSEMBLE */
    method Assemble(e: Ends, ghost f: Forest, ghost g: Forest, ghost w: set<Ref>)
      requires Working(cell, f, root, e, g, w) && f.key == key
      modifies this`cell, this`under
      ensures HEAD !in cell && Shape(Forest(cell, under, key)) && Top(Forest(cell, under, key), root) && root in under
          && under[root] == w && Elsewhere(g, Forest(cell, under, key), w)
    {
      hide *;
      RootCell(cell, f, root, e, g, w);
      ghost var c := cell;
      ghost var f1 := MergeStep(cell, f, root, e, g, w, L);
      EndsAre(e);
      ghost var c1 := HalfAssembled(c, root, e.left, L);
      ghost var f2 := MergeStep(c1, f1, root, Ends(HEAD, e.right), g, w, R);
      AssembleIs(c, root, e);
      cell := cell[e.left := cell[e.left].(right := cell[root].left)];
      cell := cell[e.right := cell[e.right].(left := cell[root].right)];
      cell := cell[root := cell[root].(left := cell[HEAD].right)];
      cell := cell[root := cell[root].(right := cell[HEAD].left)];
      Assembled(cell, f2, root, g, w);
      cell := cell - {HEAD};
      under := f2.under;
      TopKnown(f2, root);
      assert Forest(cell, under, key) == f2;
    }

    /** SPLAY_MINMAX: the least node if s is left, the greatest if it is right. */
    method MinMax(s: Side)
      requires HEAD !in cell && Shape(Forest(cell, under, key)) && Top(Forest(cell, under, key), root)
      modifies this`cell, this`root, this`under
      ensures HEAD !in cell && Shape(Forest(cell, under, key)) && Top(Forest(cell, under, key), root)
      ensures old(root in under) && root in under && under[root] == old(under[root])
          && Elsewhere(old(Forest(cell, under, key)), Forest(cell, under, key), old(under[root]))
      ensures root in key && forall q :: q in under[root] ==> q in key && !Beyond(s, key[root], key[q])
    {
      hide *;
      ghost var f := Forest(cell, under, key);
      ghost var g, w := f, Under(f, root);
      ghost var k := Farther(key, key.Keys, s);
      SplayStart(f, root, k);
      TopKnown(f, root);
      cell := cell[HEAD := Cell(NULL, NULL)];
      var e := Ends(HEAD, HEAD);
      while true
        invariant Working(cell, f, root, e, g, w) && Bounds(cell, f, e, k) && f.key == key && root in key
            && root in cell
        decreases Under(f, root)
      {
        var tmp := Kid(cell[root], s);
        if tmp == NULL { break; }
        f := Rotate(e, f, g, w, s, k);
        if Kid(cell[root], s) == NULL { break; }
        e, f := Link(e, f, g, w, s, k);
      }
      Sides(key[root], k);
      DoneIs(cell, key, root, k);
      NearestOk(cell, f, root, e, g, w, k);
      NearestEnd(f, root, k, w, s);
      Assemble(e, f, g, w);
    }

    /** SPLAY_INSERT: the result is the node that has the key already, or NULL. */
    method Insert(elm: Ref, k: int) returns (r: Ref)
      requires Valid() && elm !in cell && elm != NULL && elm != HEAD
      modifies this
      ensures Valid()
      ensures r == NULL <==> forall q :: q in old(key) ==> old(key)[q] != k
      ensures if r == NULL then key == old(key)[elm := k] else r in key && key[r] == k && key == old(key)
    {
      hide *;
      EmptyOrNot();
      if root == NULL {
        cell := cell[elm := Cell(NULL, NULL)];
        key, under := key[elm := k], map[elm := {elm}];
        root := elm;
        FirstOk(elm, k);
      } else {
        Splay(k);
        ghost var f := Forest(cell, under, key);
        TopKnown(f, root);
        WholeKeys(old(Forest(cell, under, key)), f, old(under[root]));
        if k == key[root] {
          ValidFold();
          return root;
        }
        var s := SideOf(key[root], k);
        ghost var t := InsertOk(f, root, s, elm, k);
        cell := cell[elm := WithKid(WithKid(Cell(NULL, NULL), s, Kid(cell[root], s)), Opp(s), root)];
        cell := cell[root := WithKid(cell[root], s, NULL)];
        key, under := key[elm := k], t.under;
        root := elm;
        assert t == Forest(cell, under, key);
        TopKnown(t, root);
        ValidFold();
      }
      r := NULL;
    }

    /** SPLAY_REMOVE: whether there was a node with the key. */
    method Remove(k: int) returns (found: bool)
      requires Valid()
      modifies this
      ensures Valid()
      ensures if found then exists r ::
          r in old(key) && old(key)[r] == k && key == old(key) - {r} else key == old(key) && forall q ::
            q in key ==> key[q] != k
    {
      hide *;
      EmptyOrNot();
      if root == NULL { return false; }
      Splay(k);
      ghost var f := Forest(cell, under, key);
      TopKnown(f, root);
      WholeKeys(old(Forest(cell, under, key)), f, old(under[root]));
      found := key[root] == k;
      if found {
        var elm, left, tmp := root, cell[root].left, cell[root].right;
        ghost var t := TakeRoot(f, root);
        cell, key := cell - {elm}, key - {elm};
        under := t.under;
        root := if left == NULL then tmp else left;
        if left == NULL {
          UnderNull(t);
          RemoveEmpty(t);
        } else {
          HeadLess(f.cell, elm);
          Splay(k);
          WholeKeys(t, Forest(cell, under, key), t.under[left]);
          ghost var u := RemoveJoin(t, Forest(cell, under, key), left, tmp, root, k);
          cell := cell[root := cell[root].(right := tmp)];
          under := u.under;
          ValidFold();
        }
      } else {
        AbsentOk(f, root, k);
        ValidFold();
      }
    }

    /** SPLAY_FIND */
    method Find(k: int) returns (r: Ref)
      requires Valid()
      modifies this`cell, this`root, this`under
      ensures Valid()
      ensures if r == NULL then forall q :: q in key ==> key[q] != k else r in key && key[r] == k && r == root
    {
      hide *;
      EmptyOrNot();
      if root == NULL { return NULL; }
      Splay(k);
      ghost var f := Forest(cell, under, key);
      TopKnown(f, root);
      WholeKeys(old(Forest(cell, under, key)), f, old(under[root]));
      ValidFold();
      if k == key[root] { return root; }
      AbsentOk(f, root, k);
      r := NULL;
    }

    /** SPLAY_NEXT: the node with the least greater key. */
    method Next(elm: Ref) returns (r: Ref)
      requires Valid() && elm in key
      modifies this`cell, this`root, this`under
      ensures Valid()
      ensures if r == NULL then forall q ::
          q in key ==> key[q] <= key[elm] else r in key && key[elm] < key[r] && forall q ::
            q in key && key[elm] < key[q] ==> key[r] <= key[q]
    {
      hide *;
      EmptyOrNot();
      NotEmpty(elm);
      Splay(key[elm]);
      ghost var f := Forest(cell, under, key);
      TopKnown(f, root);
      WholeKeys(old(Forest(cell, under, key)), f, old(under[root]));
      FoundRoot(f, root, elm);
      ValidFold();
      r := cell[elm].right;
      NextStart(f, elm);
      while r != NULL && cell[r].left != NULL
        invariant Leftmost(f, elm, r) && (r != NULL ==> r in cell)
        modifies {}
        decreases Under(f, r)
      {
        NextStep(f, elm, r);
        r := cell[r].left;
      }
      NextEnd(f, elm, r);
    }

    /** SPLAY_MIN and SPLAY_MAX */
    method MinMaxOf(s: Side) returns (r: Ref)
      requires Valid()
      modifies this`cell, this`root, this`under
      ensures Valid()
      ensures if key == map[] then r == NULL else r in key && forall q :: q in key ==> !Beyond(s, key[r], key[q])
    {
      hide *;
      EmptyOrNot();
      if root == NULL { return NULL; }
      MinMax(s);
      ghost var f := Forest(cell, under, key);
      TopKnown(f, root);
      WholeKeys(old(Forest(cell, under, key)), f, old(under[root]));
      ValidFold();
      r := root;
    }

    lemma CellKeys()
      requires Valid()
      ensures cell.Keys == key.Keys
    {
    }

    lemma OneKey(k: int)
      requires Valid()
      ensures forall p, q :: p in key && q in key && key[p] == k && key[q] == k ==> p == q
    {
      EmptyOrNot();
      var f := Forest(cell, under, key);
      if root != NULL {
        forall p, q | p in key && q in key && key[p] == k && key[q] == k ensures p == q {
          At(f, p);
          At(f, q);
          Pair(f, p, q);
        }
      }
      hide Shape;
    }

    lemma NotEmpty(elm: Ref)
      requires Valid() && elm in key
      ensures root != NULL
    {
    }

    lemma EmptyOrNot()
      requires Valid()
      ensures HEAD !in cell && cell.Keys == key.Keys && (root == NULL ==> cell == map[] && key == map[])
      ensures root != NULL ==>
          Shape(Forest(cell, under, key)) && Top(Forest(cell, under, key), root) && root in under && root in key
          && under[root] == cell.Keys
    {
      hide Shape;
    }

    lemma ValidFold()
      requires HEAD !in cell && cell.Keys == key.Keys && root != NULL && Shape(Forest(cell, under, key))
          && Top(Forest(cell, under, key), root) && root in under && under[root] == cell.Keys
      ensures Valid()
    {
    }

    lemma FirstOk(elm: Ref, k: int)
      requires cell == map[elm := Cell(NULL, NULL)] && key == map[elm := k] && under == map[elm := {elm}] && root == elm
          && elm != NULL && elm != HEAD
      ensures Valid()
    {
    }

    lemma RemoveEmpty(t: Forest)
      requires Shape(t) && t == Forest(cell, under, key) && HEAD !in cell && cell.Keys == key.Keys
          && cell.Keys == Under(t, root) && (root != NULL ==> Top(t, root))
      ensures Valid()
    {
      hide Shape;
    }
  }

  lemma WholeKeys(g: Forest, f: Forest, w: set<Ref>)
    requires Elsewhere(g, f, w)
    ensures f.cell.Keys == g.cell.Keys && f.key == g.key
  {
  }

  lemma HeadLess(c: map<Ref, Cell>, n: Ref)
    requires HEAD !in c
    ensures HEAD !in c - {n}
  {
  }

  lemma UnderNull(f: Forest)
    ensures Under(f, NULL) == {}
  {
  }

  /** A key beyond all others. */
  lemma Farther(key: map<Ref, int>, nodes: set<Ref>, s: Side) returns (k: int)
    requires nodes <= key.Keys
    ensures forall n :: n in nodes ==> Beyond(s, key[n], k)
  {
    k := 0;
    if exists n :: n in nodes {
      var n :| n in nodes;
      k := Farther(key, nodes - {n}, s);
      if !Beyond(s, key[n], k) { k := if s.L? then key[n] - 1 else key[n] + 1; }
    }
  }

  lemma NearestEnd(f: Forest, root: Ref, k: int, w: set<Ref>, s: Side)
    requires Nearest(f, root, k, w) && (forall n :: n in f.key ==> Beyond(s, f.key[n], k))
    ensures root in f.key && forall q :: q in w ==> q in f.key && !Beyond(s, f.key[root], f.key[q])
  {
    assert Beyond(s, f.key[root], k);
    assert SideOf(f.key[root], k) == s;
    forall q | q in w ensures q in f.key && !Beyond(s, f.key[root], f.key[q]) {
      assert q in w;
      assert q in f.key ==> Beyond(s, f.key[q], k);
    }
  }

  /** A new node takes the root's place. */
  lemma InsertOk(f: Forest, root: Ref, s: Side, elm: Ref, k: int) returns (t: Forest)
    requires Shape(f) && Top(f, root) && f.under[root] == f.cell.Keys == f.key.Keys && elm !in f.cell && elm != NULL
        && k != f.key[root] && s == SideOf(f.key[root], k) && Nearest(f, root, k, f.under[root])
    ensures Shape(t) && Top(t, elm) && t.under[elm] == t.cell.Keys && t.key == f.key[elm := k] && forall q ::
        q in f.key ==> f.key[q] != k
    ensures t.cell == f.cell[root := WithKid(f.cell[root], s, NULL)][elm
        := WithKid(WithKid(Cell(NULL, NULL), s, Kid(f.cell[root], s)), Opp(s), root)]
  {
    var a := Kid(f.cell[root], s);
    var t1 := Cut(f, root, s);
    var t2 := Added(t1, elm, k);
    InsertStart(f, root, s, elm, k);
    hide *;
    var t3 := Graft(t2, elm, s, a);
    GraftOk(t2, elm, s, a);
    GraftTop(t2, elm, s, a);
    InsertRest(f, t1, t2, t3, root, s, elm, k, a);
    GraftOk(t3, elm, Opp(s), root);
    GraftTop(t3, elm, Opp(s), root);
    t := Graft(t3, elm, Opp(s), root);
    InsertKeys(f, t1, t2, t3, t, root, elm, s, a, k);
  }

  lemma InsertStart(f: Forest, root: Ref, s: Side, elm: Ref, k: int)
    requires Shape(f) && Top(f, root) && f.under[root] == f.cell.Keys == f.key.Keys && elm !in f.cell && elm != NULL
        && k != f.key[root] && s == SideOf(f.key[root], k) && Nearest(f, root, k, f.under[root])
    ensures var a, t1 := Kid(f.cell[root], s), Cut(f, root, s); var t2 := Added(t1, elm, k);
      && Shape(t2) && Top(t2, elm) && Top(t2, root) && CanGraft(t2, elm, s, a) && Known(t2, elm)
        && Elsewhere(f, t1, {root}) && t2.under[elm] == {elm} && Under(t2, a) == Under(f, a) && root != a && elm != root
        && elm !in t1.under[root]
      && Known(f, root) && t1.under[root] == {root} + Under(f, Kid(f.cell[root], Opp(s)))
        && f.under[root] == t1.under[root] + Under(f, a) && t1.cell == f.cell[root := WithKid(f.cell[root], s, NULL)]
      && AllBeyond(f, Opp(s), k, {root} + Under(f, Kid(f.cell[root], Opp(s)))) && forall q ::
          q in f.key ==> f.key[q] != k
  {
    var a := Kid(f.cell[root], s);
    At(f, root);
    Below(f, root, s);
    NearestSplit(f, root, s, k);
    CutOk(f, root, s);
    CutAll(f, root, s);
    CutCells(f, root, s);
    var t1 := Cut(f, root, s);
    AddOk(t1, elm, k);
    InsertHalf(f, t1, Added(t1, elm, k), root, s, elm, k, a);
    hide Shape, Cut, Graft, CanGraft, Top, Nearest;
  }

  lemma NearestSplit(f: Forest, root: Ref, s: Side, k: int)
    requires Shape(f) && Top(f, root) && f.under[root] == f.cell.Keys == f.key.Keys && k != f.key[root]
        && s == SideOf(f.key[root], k) && Nearest(f, root, k, f.under[root])
    ensures AllBeyond(f, s, k, Under(f, Kid(f.cell[root], s)))
    ensures AllBeyond(f, Opp(s), k, {root} + Under(f, Kid(f.cell[root], Opp(s))))
    ensures forall q :: q in f.key ==> f.key[q] != k
  {
    At(f, root);
    Below(f, root, s);
    Below(f, root, Opp(s));
    assert KidOk(f, root, L) && KidOk(f, root, R);
    assert Beyond(s, f.key[root], k);
    forall q | q in f.key ensures f.key[q] != k && (q in Under(f, Kid(f.cell[root], s)) ==> Beyond(s, k, f.key[q])) {
      assert q in f.under[root];
    }
    hide Shape;
  }

  lemma InsertHalf(f: Forest, t1: Forest, t2: Forest, root: Ref, s: Side, elm: Ref, k: int, a: Ref)
    requires t2 == Added(t1, elm, k) && Top(t2, elm) && t2.under[elm] == {elm} && Elsewhere(f, t1, {root})
        && root in f.cell && a == Kid(f.cell[root], s) && AllBeyond(f, s, k, Under(f, a)) && elm !in Under(f, a)
    requires a != NULL ==> Top(t2, a) && a in f.under && Under(t1, a) == Under(f, a) && a != elm && elm !in f.under[a]
    ensures CanGraft(t2, elm, s, a) && Under(t2, a) == Under(f, a)
  {
    CanGraftTop(t2, elm, s, a);
  }

  lemma InsertRest(f: Forest, t1: Forest, t2: Forest, t3: Forest, root: Ref, s: Side, elm: Ref, k: int, a: Ref)
    requires t2 == Added(t1, elm, k) && Known(f, root) && Elsewhere(f, t1, {root}) && Elsewhere(t2, t3, {elm})
        && Top(t2, root) && Top(t2, elm) && elm != root && root != a && Known(t2, elm)
    requires forall y {:trigger Top(t3, y)} :: Top(t2, y) && y != a ==> Top(t3, y)
    requires t3.cell == t2.cell[elm := WithKid(t2.cell[elm], s, a)] && root in t1.under
        && t1.under[root] == {root} + Under(f, Kid(f.cell[root], Opp(s))) && elm !in t1.under[root]
    requires AllBeyond(f, Opp(s), k, {root} + Under(f, Kid(f.cell[root], Opp(s)))) && a != elm
    ensures CanGraft(t3, elm, Opp(s), root) && Top(t3, elm) && Known(t3, root) && t3.under[root] == t1.under[root]
  {
    assert Top(t3, root) && Top(t3, elm);
    assert t3.under[root] == t2.under[root];
    CanGraftTop(t3, elm, Opp(s), root);
  }

  lemma InsertKeys(f: Forest, t1: Forest, t2: Forest, t3: Forest, t: Forest, root: Ref, elm: Ref, s: Side, a: Ref,
      k: int)
    requires elm !in f.cell && Elsewhere(f, t1, {root}) && t2 == Added(t1, elm, k) && Elsewhere(t2, t3, {elm})
        && Elsewhere(t3, t, {elm}) && Known(t3, root) && Known(f, root) && elm != root
    requires root in t1.under && elm in t2.under && elm in t3.under && elm in t.under && f.under[root] == f.cell.Keys
        && f.under[root] == t1.under[root] + Under(f, a) && t2.under[elm] == {elm}
        && t3.under[elm] == {elm} + Under(f, a) && t3.under[root] == t1.under[root]
        && t.under[elm] == t3.under[elm] + Under(t3, root)
    requires t1.cell == f.cell[root := WithKid(f.cell[root], s, NULL)] && elm in t2.cell && elm in t3.cell
        && t3.cell == t2.cell[elm := WithKid(t2.cell[elm], s, a)]
        && t.cell == t3.cell[elm := WithKid(t3.cell[elm], Opp(s), root)]
    ensures t.under[elm] == t.cell.Keys && t.key == f.key[elm := k]
    ensures t.cell == f.cell[root := WithKid(f.cell[root], s, NULL)][elm := WithKid(WithKid(Cell(NULL, NULL), s, a),
        Opp(s), root)]
  {
  }

  /** The root leaves its two subtrees. */
  lemma TakeRoot(f: Forest, r: Ref) returns (t: Forest)
    requires Shape(f) && Top(f, r) && f.under[r] == f.cell.Keys == f.key.Keys
    ensures Shape(t) && t.cell == f.cell - {r} && t.key == f.key - {r} && t.cell.Keys == t.key.Keys
    ensures var a, b := f.cell[r].left, f.cell[r].right;
        (a != NULL ==> Top(t, a)) && (b != NULL ==> Top(t, b)) && t.cell.Keys == Under(t, a) + Under(t, b)
        && AllBeyond(t, L, f.key[r], Under(t, a)) && AllBeyond(t, R, f.key[r], Under(t, b))
        && Under(t, a) !! Under(t, b)
  {
    var a, b := f.cell[r].left, f.cell[r].right;
    At(f, r);
    Below(f, r, L);
    Below(f, r, R);
    CutOk(f, r, L);
    CutAll(f, r, L);
    var t1 := Cut(f, r, L);
    CutOk(t1, r, R);
    CutAll(t1, r, R);
    var t2 := Cut(t1, r, R);
    assert t2.under[r] == {r};
    DropOk(t2, r);
    t := Dropped(t2, r);
    TakenCells(f, t1, t2, r);
    hide Shape, Cut, Top;
  }

  lemma TakenCells(f: Forest, t1: Forest, t2: Forest, r: Ref)
    requires Known(f, r) && t1 == Cut(f, r, L) && Known(t1, r) && t2 == Cut(t1, r, R)
    ensures Dropped(t2, r).cell == f.cell - {r}
  {
  }

  lemma RemoveJoin(t: Forest, f: Forest, left: Ref, tmp: Ref, root: Ref, k: int) returns (u: Forest)
    requires Shape(t) && Top(t, left) && (tmp != NULL ==> Top(t, tmp)) && Elsewhere(t, f, t.under[left]) && Shape(f)
        && Top(f, root) && f.under[root] == t.under[left] && Nearest(f, root, k, f.under[root])
    requires AllBeyond(t, L, k, Under(t, left)) && AllBeyond(t, R, k, Under(t, tmp))
        && t.cell.Keys == Under(t, left) + Under(t, tmp) && Under(t, left) !! Under(t, tmp)
    ensures root in f.cell && u.cell == f.cell[root := f.cell[root].(right := tmp)] && Shape(u) && Top(u, root)
        && u.under[root] == u.cell.Keys && u.key == f.key && root in u.under && root != NULL
  {
    At(f, root);
    At(t, left);
    assert left != NULL && Under(t, left) == t.under[left];
    assert Beyond(R, f.key[root], k);
    assert KidOk(f, root, L) && KidOk(f, root, R);
    if tmp != NULL {
      At(t, tmp);
      TopElsewhere(t, f, t.under[left], root, tmp);
    }
    RemoveRight(f, root, k);
    JoinReady(t, f, left, tmp, root, k);
    GraftOk(f, root, R, tmp);
    GraftTop(f, root, R, tmp);
    u := Graft(f, root, R, tmp);
    hide Shape, Top, CanGraft, Graft, Nearest;
  }

  /** After everything less than k has been splayed for k, the greatest node is at the root. */
  lemma RemoveRight(f: Forest, root: Ref, k: int)
    requires Shape(f) && Top(f, root) && Nearest(f, root, k, f.under[root]) && AllBeyond(f, L, k, f.under[root])
    ensures f.cell[root].right == NULL
  {
    At(f, root);
    Below(f, root, R);
    var x := f.cell[root].right;
    assert KidOk(f, root, R);
    assert Beyond(R, f.key[root], k);
    assert x != NULL ==> x in f.under[root] && x in f.key && Beyond(R, f.key[root], f.key[x]);
    assert x in f.under[root] && x in f.key ==>
        (Beyond(R, f.key[root], f.key[x]) ==> Beyond(R, k, f.key[x])) && Beyond(L, k, f.key[x]);
    hide Shape;
  }

  lemma JoinReady(t: Forest, f: Forest, left: Ref, tmp: Ref, root: Ref, k: int)
    requires Top(f, root) && f.cell[root].right == NULL && t.key == f.key && AllBeyond(t, L, k, f.under[root])
        && root in f.under[root] && root !in Under(t, tmp)
    requires tmp != NULL ==>
        Top(f, tmp) && tmp in t.under && f.under[tmp] == t.under[tmp] && AllBeyond(t, R, k, t.under[tmp])
    ensures CanGraft(f, root, R, tmp)
  {
    assert Beyond(L, k, f.key[root]);
    CanGraftTop(f, root, R, tmp);
  }

  lemma AbsentOk(f: Forest, root: Ref, k: int)
    requires Nearest(f, root, k, f.key.Keys) && root in f.key && f.key[root] != k
    ensures forall q :: q in f.key ==> f.key[q] != k
  {
    forall q | q in f.key ensures f.key[q] != k { assert q in f.key.Keys; }
  }

  /**
   * The search for the node after elm, which is the root: everything under r is greater, and what is less than r but
   * greater than elm is under it.
   */
  ghost predicate Leftmost(f: Forest, elm: Ref, r: Ref) {
    && elm in f.key
    && (r == NULL ==> forall q :: q in f.key ==> f.key[q] <= f.key[elm])
    && (r != NULL ==>
        Known(f, r) && r in f.under[r] && AllBeyond(f, R, f.key[elm], f.under[r]) && forall q {:trigger f.key[q]} ::
          q in f.key && f.key[elm] < f.key[q] < f.key[r] ==> q in f.under[r])
  }

  lemma FoundRoot(f: Forest, root: Ref, elm: Ref)
    requires Shape(f) && Top(f, root) && f.cell.Keys == f.key.Keys == f.under[root] && elm in f.key
        && Nearest(f, root, f.key[elm], f.under[root])
    ensures root == elm
  {
    Pair(f, root, elm);
    At(f, elm);
    assert elm in f.under[root];
    hide Shape;
  }

  lemma NextStart(f: Forest, elm: Ref)
    requires Shape(f) && Top(f, elm) && f.cell.Keys == f.key.Keys == f.under[elm]
    ensures elm in f.cell && Leftmost(f, elm, f.cell[elm].right)
        && (f.cell[elm].right != NULL ==> f.cell[elm].right in f.cell)
  {
    At(f, elm);
    Below(f, elm, R);
    Below(f, elm, L);
    assert KidOk(f, elm, L) && KidOk(f, elm, R);
    var r := f.cell[elm].right;
    forall q {:trigger f.key[q]} | q in f.key ensures f.key[elm] < f.key[q] ==> q in Under(f, r) {
      assert q in f.under[elm];
      assert q in Under(f, f.cell[elm].left) ==> Beyond(L, f.key[elm], f.key[q]);
    }
    hide Shape;
  }

  lemma NextStep(f: Forest, elm: Ref, r: Ref)
    requires Shape(f) && Leftmost(f, elm, r) && r != NULL && r in f.cell && f.cell[r].left != NULL
    ensures var x := f.cell[r].left; Leftmost(f, elm, x) && Under(f, x) < Under(f, r) && x in f.cell
  {
    At(f, r);
    Below(f, r, L);
    Below(f, r, R);
    assert KidOk(f, r, L) && KidOk(f, r, R);
    var x := f.cell[r].left;
    assert Beyond(L, f.key[r], f.key[x]) && Beyond(R, f.key[elm], f.key[x]);
    forall q {:trigger f.key[q]} | q in f.key && f.key[elm] < f.key[q] < f.key[x] ensures q in f.under[x] {
      assert q in f.under[r];
      assert q in Under(f, f.cell[r].right) ==> Beyond(R, f.key[r], f.key[q]);
    }
    hide Shape;
  }

  lemma NextEnd(f: Forest, elm: Ref, r: Ref)
    requires Shape(f) && Leftmost(f, elm, r) && (r != NULL ==> r in f.cell && f.cell[r].left == NULL)
    ensures if r == NULL then forall q ::
        q in f.key ==> f.key[q] <= f.key[elm] else r in f.key && f.key[elm] < f.key[r] && forall q ::
          q in f.key && f.key[elm] < f.key[q] ==> f.key[r] <= f.key[q]
  {
    if r != NULL {
      At(f, r);
      assert KidOk(f, r, R) && Beyond(R, f.key[elm], f.key[r]);
      forall q | q in f.key && f.key[elm] < f.key[q] ensures f.key[r] <= f.key[q] {
        assert q in f.under[r] ==> q == r || q in Under(f, f.cell[r].right);
        assert q in Under(f, f.cell[r].right) ==> Beyond(R, f.key[r], f.key[q]);
      }
    }
    hide Shape;
  }

  // ---- Runs

  datatype Op = Add(n: Ref, k: int) | Take(k: int) | Look(k: int) | Extreme(s: Side)

  /** The map that a run of operations stands for. */
  ghost function Apply(m: map<Ref, int>, op: Op): map<Ref, int> {
    match op
    case Add(n, k) => if n == NULL || n == HEAD || n in m || (exists q :: q in m && m[q] == k) then m else m[n := k]
    case Take(k) => m - set q | q in m && m[q] == k
    case _ => m
  }

  ghost function Replay(ops: seq<Op>): map<Ref, int> {
    if ops == [] then map[] else Apply(Replay(ops[..|ops| - 1]), ops[|ops| - 1])
  }

  lemma TakeIs(m: map<Ref, int>, n: map<Ref, int>, k: int, found: bool)
    requires forall p, q :: p in m && q in m && m[p] == k && m[q] == k ==> p == q
    requires if found then exists r ::
        r in m && m[r] == k && n == m - {r} else n == m && forall q :: q in n ==> n[q] != k
    ensures n == m - set q | q in m && m[q] == k
  {
    var taken := set q | q in m && m[q] == k;
    if found {
      var r :| r in m && m[r] == k && n == m - {r};
      forall q ensures q in taken <==> q == r { assert q in m && m[q] == k ==> q == r; }
      assert taken == {r};
    } else {
      forall q ensures q !in taken { assert q in n ==> n[q] != k; }
      assert taken == {};
    }
  }

  /** After any run, the tree holds exactly the nodes that a plain map would. */
  method Run(ops: seq<Op>) returns (t: SplayTree)
    ensures t.Valid() && t.key == Replay(ops)
  {
    hide SplayTree.Valid;
    t := new SplayTree();
    for i := 0 to |ops|
      invariant fresh(t) && t.Valid() && t.key == Replay(ops[..i])
    {
      ghost var m := t.key;
      assert ops[..i + 1][..i] == ops[..i];
      match ops[i] {
        case Add(n, k) =>
          t.CellKeys();
          if n != NULL && n != HEAD && n !in t.key {
            var r := t.Insert(n, k);
          }
        case Take(k) =>
          t.OneKey(k);
          var found := t.Remove(k);
          TakeIs(m, t.key, k, found);
        case Look(k) =>
          var r := t.Find(k);
        case Extreme(s) =>
          var r := t.MinMaxOf(s);
      }
      assert t.key == Apply(m, ops[i]);
    }
    assert ops[..|ops|] == ops;
  }
}
