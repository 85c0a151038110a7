/**
 * The expressions of the language as a grammar with one level for each precedence (section 3.4.8 of the Lua 5.2
 * Reference Manual), without the numbers of the parser: it reads exactly these.
 */
module ParseGrammar {
  import opened ParseExpr

  /** From the operators that bind least to those that bind most. */
  datatype Level =
    Disjunction | Conjunction | Comparison | Concatenation | Sum | Product | Prefix | Power | Primary

  function Rank(l: Level): nat {
    match l
    case Disjunction => 0 case Conjunction => 1 case Comparison => 2 case Concatenation => 3 case Sum => 4
    case Product => 5 case Prefix => 6 case Power => 7 case Primary => 8
  }

  function Above(l: Level): (m: Level)
    ensures l != Primary ==> Rank(m) == Rank(l) + 1
  {
    match l
    case Disjunction => Conjunction case Conjunction => Comparison case Comparison => Concatenation
    case Concatenation => Sum case Sum => Product case Product => Prefix case Prefix => Power case _ => Primary
  }

  function LevelOf(op: BinOp): Level {
    match op
    case Or => Disjunction case And => Conjunction
    case Eq => Comparison case Ne => Comparison case Lt => Comparison case Gt => Comparison case Le => Comparison
    case Ge => Comparison
    case Concat => Concatenation
    case Add => Sum case Sub => Sum
    case Mul => Product case Div => Product case Mod => Product
    case Pow => Power
  }

  predicate RightAssociative(op: BinOp) { op == Concat || op == Pow }

  function LeftLevel(op: BinOp): Level { if RightAssociative(op) then Above(LevelOf(op)) else LevelOf(op) }

  /** The right operand of a power may have a prefix operator. */
  function RightLevel(op: BinOp): Level {
    if op == Pow then Prefix else if op == Concat then Concatenation else Above(LevelOf(op))
  }

  /** The tokens s are an expression of the level, and e is its tree. */
  ghost predicate Derives(l: Level, e: Expr, s: seq<Token>)
    decreases |s|, 9 - Rank(l)
  {
    match l
    case Primary =>
      || (e.Leaf? && s == [Atom(e.n)])
      || (|s| >= 2 && s[0] == LPar && s[|s| - 1] == RPar && Derives(Disjunction, e, s[1..|s| - 1]))
    case Prefix =>
      || Derives(Power, e, s)
      || (e.Unary? && s != [] && s[0] == UnToken(e.u) && Derives(Prefix, e.x, s[1..]))
    case _ =>
      || Derives(Above(l), e, s)
      || (e.Binary? && LevelOf(e.op) == l && exists i: nat :: i < |s| && SplitAt(e, s, i))
  }

  /** The operator of e is at place i of s, and its operands are around it. */
  ghost predicate SplitAt(e: Expr, s: seq<Token>, i: nat)
    requires e.Binary? && i < |s|
    decreases |s|, 0
  {
    GetBinOp(s[i]) == Some(e.op) && Derives(LeftLevel(e.op), e.l, s[..i]) && Derives(RightLevel(e.op), e.r, s[i + 1..])
  }

  lemma {:induction false} Lift(l: Level, m: Level, e: Expr, s: seq<Token>)
    requires Rank(l) <= Rank(m) && Derives(m, e, s)
    ensures Derives(l, e, s)
    decreases Rank(m) - Rank(l)
  {
    if l != m {
      Lift(Above(l), m, e, s);
      hide SplitAt;
    }
  }

  // ---- The numbers of the parser

  /** The greatest left priority of an operator that may come after an expression of the level. */
  function Cap(l: Level): nat {
    match l
    case Disjunction => 1 case Conjunction => 2 case Comparison => 3 case Concatenation => 4 case Sum => 6
    case Product => 7 case Prefix => 8 case Power => 9 case Primary => 10
  }

  /** The left priority of the operators of the level and above is no less. */
  function Floor(l: Level): nat {
    match l
    case Disjunction => 1 case Conjunction => 2 case Comparison => 3 case Concatenation => 5 case Sum => 6
    case Product => 7 case Prefix => 10 case Power => 10 case Primary => 11
  }

  /** The level of what is read with a limit. */
  function Read(limit: nat): Level {
    if limit == 0 then Disjunction else if limit == 1 then Conjunction else if limit == 2 then Comparison
    else if limit <= 4 then Concatenation else if limit == 5 then Sum else if limit == 6 then Product else Prefix
  }

  lemma Numbers(op: BinOp)
    ensures Left(op) == Floor(LevelOf(op)) && Left(op) <= Cap(LeftLevel(op))
    ensures Right(op) < Floor(RightLevel(op)) && Read(Right(op)) == RightLevel(op) && Right(op) <= 9
    ensures Cap(LevelOf(op)) == Right(op) && Rank(LevelOf(op)) <= Rank(LeftLevel(op))
  {
  }

  lemma FollowNumbers(rest: seq<Token>)
    ensures Follow(rest) <= 10 && Follow(rest) != 9 && Follow(rest) != 8
    ensures Follow(rest) > 0 ==> rest != [] && GetBinOp(rest[0]).Some? && Follow(rest) == Left(GetBinOp(rest[0]).value)
  {
  }

  // ---- Every expression of the grammar is read

  lemma {:induction false} Complete(l: Level, e: Expr, t: seq<Token>, rest: seq<Token>, limit: nat)
    requires Derives(l, e, t) && Follow(rest) <= Cap(l) && limit < Floor(l)
    ensures SubExpr(t + rest, limit) == Loop(e, rest, limit)
    decreases |t|, 9 - Rank(l)
  {
    hide SubExpr, Loop, Follow;
    match l {
      case Primary => CompletePrimary(e, t, rest, limit);
      case Prefix =>
        if Derives(Power, e, t) {
          Complete(Power, e, t, rest, limit);
        } else {
          Complete(Prefix, e.x, t[1..], rest, 8);
          PrefixRead(e.u, e.x, t, rest, limit);
        }
      case _ =>
        if Derives(Above(l), e, t) {
          Complete(Above(l), e, t, rest, limit);
        } else {
          var i: nat :| i < |t| && SplitAt(e, t, i);
          CompleteBinary(e, t, i, rest, limit);
        }
    }
  }

  lemma {:induction false} CompletePrimary(e: Expr, t: seq<Token>, rest: seq<Token>, limit: nat)
    requires Derives(Primary, e, t)
    ensures SubExpr(t + rest, limit) == Loop(e, rest, limit)
    decreases |t|, 0
  {
    var s := t + rest;
    if e.Leaf? && t == [Atom(e.n)] {
      assert s[0] == Atom(e.n) && s[1..] == rest;
      assert Simple(s) == Got(e, rest);
    } else {
      var inner, more := t[1..|t| - 1], [RPar] + rest;
      Complete(Disjunction, e, inner, more, 0);
      assert s[0] == LPar && s[1..] == inner + more && more[1..] == rest;
      assert Loop(e, more, 0) == Got(e, more);
      hide Loop, Derives;
      assert Simple(s) == Got(e, rest);
    }
    hide *;
    SubExprIs(s, limit);
    FirstToken(e, t, s);
  }

  lemma FirstToken(e: Expr, t: seq<Token>, s: seq<Token>)
    requires Derives(Primary, e, t) && t <= s
    ensures s != [] && GetUnOp(s[0]).None?
  {
  }

  lemma PrefixRead(u: UnOp, x: Expr, t: seq<Token>, rest: seq<Token>, limit: nat)
    requires t != [] && t[0] == UnToken(u) && SubExpr(t[1..] + rest, 8) == Loop(x, rest, 8) && Follow(rest) <= 8
    ensures SubExpr(t + rest, limit) == Loop(Unary(u, x), rest, limit)
  {
    var s := t + rest;
    assert s[0] == UnToken(u) && s[1..] == t[1..] + rest;
    assert Loop(x, rest, 8) == Got(x, rest);
    hide Loop;
    SubExprIs(s, limit);
  }

  lemma {:induction false} CompleteBinary(e: Expr, t: seq<Token>, i: nat, rest: seq<Token>, limit: nat)
    requires e.Binary? && i < |t| && SplitAt(e, t, i)
    requires Follow(rest) <= Cap(LevelOf(e.op)) && limit < Floor(LevelOf(e.op))
    ensures SubExpr(t + rest, limit) == Loop(e, rest, limit)
    decreases |t|, 0
  {
    hide SubExpr, Loop, Follow, Derives;
    var op, more := e.op, t[i + 1..] + rest;
    var tail := [t[i]] + more;
    Numbers(op);
    FollowNumbers(rest);
    assert tail[0] == t[i] && tail[1..] == more && t + rest == t[..i] + tail;
    FollowOp(tail, op);
    FloorUp(op);
    Complete(LeftLevel(op), e.l, t[..i], tail, limit);
    LoopMore(e.l, tail, op, limit);
    CapUp(op, Follow(rest));
    Complete(RightLevel(op), e.r, t[i + 1..], rest, Right(op));
    Stops(e.r, rest, Right(op));
  }

  lemma FollowOp(s: seq<Token>, op: BinOp)
    requires s != [] && GetBinOp(s[0]) == Some(op)
    ensures Follow(s) == Left(op)
  {
  }

  lemma FloorUp(op: BinOp)
    ensures Floor(LevelOf(op)) <= Floor(LeftLevel(op))
  {
  }

  lemma CapUp(op: BinOp, f: nat)
    requires f <= Cap(LevelOf(op)) && f != 9
    ensures f <= Cap(RightLevel(op))
  {
  }

  lemma Stops(e: Expr, rest: seq<Token>, limit: nat)
    requires Follow(rest) <= limit
    ensures Loop(e, rest, limit) == Got(e, rest)
  {
  }

  // ---- Nothing else is read

  /** What was read of s, when rest is left. */
  function Taken(s: seq<Token>, rest: seq<Token>): seq<Token>
    requires |rest| <= |s|
  {
    s[..|s| - |rest|]
  }

  /** r, read from s, is a tree of the level for what was taken. */
  ghost predicate Reading(s: seq<Token>, r: Parsed, l: Level) {
    r.Got? ==> |r.rest| <= |s| && s == Taken(s, r.rest) + r.rest && Derives(l, r.e, Taken(s, r.rest))
  }

  lemma {:induction false} SoundSimple(s: seq<Token>)
    ensures Reading(s, Simple(s), Primary)
    decreases |s|, 0
  {
    if s != [] && s[0].Atom? {
      assert Taken(s, s[1..]) == [s[0]];
    } else if s != [] && s[0] == LPar {
      var inner := s[1..];
      Sound(inner, 0);
      var r := SubExpr(inner, 0);
      hide SubExpr, Derives;
      if r.Got? && r.rest != [] && r.rest[0] == RPar {
        SoundParens(s, r.e, Taken(inner, r.rest), r.rest);
      }
    }
  }

  lemma SoundParens(s: seq<Token>, e: Expr, t: seq<Token>, rest: seq<Token>)
    requires s != [] && s[0] == LPar && rest != [] && rest[0] == RPar && s[1..] == t + rest
    requires Derives(Disjunction, e, t)
    ensures Reading(s, Got(e, rest[1..]), Primary)
  {
    var u := [LPar] + t + [RPar];
    assert s == u + rest[1..] && Taken(s, rest[1..]) == u;
    assert u[1..|u| - 1] == t;
  }

  lemma {:induction false} Sound(s: seq<Token>, limit: nat)
    requires limit <= 9
    ensures Reading(s, SubExpr(s, limit), Read(limit))
    decreases |s|, 1
  {
    hide SubExpr, Loop, Derives, Reading;
    SubExprIs(s, limit);
    ErrorReads(s, Read(limit));
    if s != [] && GetUnOp(s[0]).Some? {
      var u, x := GetUnOp(s[0]).value, SubExpr(s[1..], 8);
      Sound(s[1..], 8);
      if x.Got? {
        StopsBelow(s[1..], 8);
        SoundPrefix(s, u, x);
        LoopTop(s, Unary(u, x.e), x.rest, Prefix, limit);
      }
    } else if s != [] {
      var x := Simple(s);
      SoundSimple(s);
      if x.Got? { LoopTop(s, x.e, x.rest, Primary, limit); }
    }
  }

  lemma ErrorReads(s: seq<Token>, l: Level)
    ensures Reading(s, Error, l)
  {
  }

  lemma SoundPrefix(s: seq<Token>, u: UnOp, x: Parsed)
    requires s != [] && GetUnOp(s[0]) == Some(u) && x.Got? && Reading(s[1..], x, Prefix)
    ensures Reading(s, Got(Unary(u, x.e), x.rest), Prefix)
  {
    var t := Taken(s[1..], x.rest);
    assert s == [s[0]] + t + x.rest && Taken(s, x.rest) == [s[0]] + t;
    assert ([s[0]] + t)[1..] == t;
  }

  /** The loop from the first operand on. */
  lemma {:induction false} LoopTop(s: seq<Token>, e: Expr, rest: seq<Token>, m: Level, limit: nat)
    requires limit <= 9 && |rest| < |s| && Reading(s, Got(e, rest), m) && Follow(rest) <= Cap(m)
    requires Rank(Read(limit)) <= Rank(m)
    ensures Reading(s, Loop(e, rest, limit), Read(limit))
    decreases |rest|, 2
  {
    hide SubExpr, Loop, Derives, Follow, Reading;
    FollowNumbers(rest);
    if Follow(rest) <= limit {
      Stops(e, rest, limit);
      ReadingLift(s, e, rest, m, Read(limit));
    } else {
      var op := GetBinOp(rest[0]).value;
      LoopMore(e, rest, op, limit);
      var r := SubExpr(rest[1..], Right(op));
      Numbers(op);
      Sound(rest[1..], Right(op));
      if r.Got? {
        StopsBelow(rest[1..], Right(op));
        GotShorter(rest[1..], Right(op));
        LeftOperand(op, m);
        ReadingLift(s, e, rest, m, LeftLevel(op));
        SoundBinary(s, e, rest, op, r);
        LoopLimit(op, limit);
        LoopTop(s, Binary(op, e, r.e), r.rest, LevelOf(op), limit);
      } else {
        ErrorReads(s, Read(limit));
      }
    }
  }

  lemma GotShorter(s: seq<Token>, limit: nat)
    ensures SubExpr(s, limit).Got? ==> |SubExpr(s, limit).rest| < |s|
  {
  }

  /** An operator that may follow a level may have an expression of that level on its left. */
  lemma LeftOperand(op: BinOp, m: Level)
    requires Left(op) <= Cap(m)
    ensures Rank(LeftLevel(op)) <= Rank(m)
  {
  }

  lemma LoopLimit(op: BinOp, limit: nat)
    requires Left(op) > limit
    ensures Rank(Read(limit)) <= Rank(LevelOf(op))
  {
  }

  lemma ReadingLift(s: seq<Token>, e: Expr, rest: seq<Token>, m: Level, l: Level)
    requires Reading(s, Got(e, rest), m) && Rank(l) <= Rank(m)
    ensures Reading(s, Got(e, rest), l)
  {
    hide Derives;
    Lift(l, m, e, Taken(s, rest));
  }

  lemma SoundBinary(s: seq<Token>, e: Expr, rest: seq<Token>, op: BinOp, r: Parsed)
    requires Reading(s, Got(e, rest), LeftLevel(op)) && rest != [] && GetBinOp(rest[0]) == Some(op)
    requires r.Got? && Reading(rest[1..], r, RightLevel(op))
    ensures Reading(s, Got(Binary(op, e, r.e), r.rest), LevelOf(op))
  {
    hide Derives, GetBinOp, LeftLevel, RightLevel, LevelOf;
    var a, b := Taken(s, rest), Taken(rest[1..], r.rest);
    var t := a + [rest[0]] + b;
    TakenTwo(s, a, rest[0], b, r.rest);
    SplitDerives(Binary(op, e, r.e), t, |a|);
  }

  lemma TakenTwo(s: seq<Token>, a: seq<Token>, x: Token, b: seq<Token>, rest: seq<Token>)
    requires s == a + ([x] + (b + rest))
    ensures var t := a + [x] + b;
      && |rest| <= |s| && s == t + rest && Taken(s, rest) == t
      && t[..|a|] == a && t[|a|] == x && t[|a| + 1..] == b
  {
    assert s == a + [x] + b + rest;
  }

  lemma SplitDerives(e: Expr, t: seq<Token>, i: nat)
    requires e.Binary? && i < |t| && GetBinOp(t[i]) == Some(e.op)
    requires Derives(LeftLevel(e.op), e.l, t[..i]) && Derives(RightLevel(e.op), e.r, t[i + 1..])
    ensures Derives(LevelOf(e.op), e, t)
  {
    assert SplitAt(e, t, i);
  }

  /** A text is read as an expression exactly if the grammar makes it one, with that tree. */
  lemma GrammarExact(s: seq<Token>, e: Expr)
    ensures SubExpr(s + [End], 0) == Got(e, [End]) <==> Derives(Disjunction, e, s)
  {
    hide SubExpr, Derives;
    var all := s + [End];
    if Derives(Disjunction, e, s) {
      Complete(Disjunction, e, s, [End], 0);
      Stops(e, [End], 0);
    }
    if SubExpr(all, 0) == Got(e, [End]) {
      Sound(all, 0);
      assert Taken(all, [End]) == s;
    }
  }

  /** A text is an expression in one way at most. */
  lemma Unambiguous(s: seq<Token>, e: Expr, f: Expr)
    requires Derives(Disjunction, e, s) && Derives(Disjunction, f, s)
    ensures e == f
  {
    GrammarExact(s, e);
    GrammarExact(s, f);
  }

  // ---- Two operators in a row

  lemma AtomAt(n: nat, l: Level)
    ensures Derives(l, Leaf(n), [Atom(n)])
  {
    Lift(l, Primary, Leaf(n), [Atom(n)]);
  }

  /** The first operator takes its operands before the second: it binds more, or both as much and from the left. */
  predicate FirstBinds(p: BinOp, q: BinOp) {
    Rank(LevelOf(p)) > Rank(LevelOf(q)) || (LevelOf(p) == LevelOf(q) && !RightAssociative(p))
  }

  /** a p b q c is (a p b) q c or a p (b q c). */
  lemma TwoOperators(a: nat, p: BinOp, b: nat, q: BinOp, c: nat)
    ensures SubExpr([Atom(a), BinToken(p), Atom(b), BinToken(q), Atom(c)] + [End], 0) ==
      Got(if FirstBinds(p, q) then Binary(q, Binary(p, Leaf(a), Leaf(b)), Leaf(c))
          else Binary(p, Leaf(a), Binary(q, Leaf(b), Leaf(c))), [End])
  {
    hide *;
    var s := [Atom(a), BinToken(p), Atom(b), BinToken(q), Atom(c)];
    if FirstBinds(p, q) {
      ToTheLeft(a, p, b, q, c);
      GrammarExact(s, Binary(q, Binary(p, Leaf(a), Leaf(b)), Leaf(c)));
    } else {
      ToTheRight(a, p, b, q, c);
      GrammarExact(s, Binary(p, Leaf(a), Binary(q, Leaf(b), Leaf(c))));
    }
  }

  lemma ToTheLeft(a: nat, p: BinOp, b: nat, q: BinOp, c: nat)
    requires FirstBinds(p, q)
    ensures Derives(Disjunction, Binary(q, Binary(p, Leaf(a), Leaf(b)), Leaf(c)),
        [Atom(a), BinToken(p), Atom(b), BinToken(q), Atom(c)])
  {
    hide Derives, BinToken;
    var s, l := [Atom(a), BinToken(p), Atom(b), BinToken(q), Atom(c)], Binary(p, Leaf(a), Leaf(b));
    Operation(a, p, b);
    assert s[..3] == [Atom(a), BinToken(p), Atom(b)] && s[4..] == [Atom(c)];
    Lift(LeftLevel(q), LevelOf(p), l, s[..3]);
    AtomAt(c, RightLevel(q));
    SplitDerives(Binary(q, l, Leaf(c)), s, 3);
    Lift(Disjunction, LevelOf(q), Binary(q, l, Leaf(c)), s);
  }

  lemma ToTheRight(a: nat, p: BinOp, b: nat, q: BinOp, c: nat)
    requires !FirstBinds(p, q)
    ensures Derives(Disjunction, Binary(p, Leaf(a), Binary(q, Leaf(b), Leaf(c))),
        [Atom(a), BinToken(p), Atom(b), BinToken(q), Atom(c)])
  {
    hide Derives, BinToken;
    var s, r := [Atom(a), BinToken(p), Atom(b), BinToken(q), Atom(c)], Binary(q, Leaf(b), Leaf(c));
    Operation(b, q, c);
    assert s[2..] == [Atom(b), BinToken(q), Atom(c)] && s[..1] == [Atom(a)];
    Lift(RightLevel(p), LevelOf(q), r, s[2..]);
    AtomAt(a, LeftLevel(p));
    SplitDerives(Binary(p, Leaf(a), r), s, 1);
    Lift(Disjunction, LevelOf(p), Binary(p, Leaf(a), r), s);
  }

  lemma Operation(a: nat, p: BinOp, b: nat)
    ensures Derives(LevelOf(p), Binary(p, Leaf(a), Leaf(b)), [Atom(a), BinToken(p), Atom(b)])
  {
    hide Derives;
    var s := [Atom(a), BinToken(p), Atom(b)];
    AtomAt(a, LeftLevel(p));
    AtomAt(b, RightLevel(p));
    assert s[..1] == [Atom(a)] && s[2..] == [Atom(b)];
    SplitDerives(Binary(p, Leaf(a), Leaf(b)), s, 1);
  }

  /** A prefix operator binds less than a power and more than all other operators. */
  lemma PrefixOperator(u: UnOp, a: nat, p: BinOp, b: nat)
    ensures var s := [UnToken(u), Atom(a), BinToken(p), Atom(b)];
      SubExpr(s + [End], 0) == Got(if p == Pow then Unary(u, Binary(p, Leaf(a), Leaf(b)))
                                   else Binary(p, Unary(u, Leaf(a)), Leaf(b)), [End])
  {
    hide SubExpr, Derives;
    var s := [UnToken(u), Atom(a), BinToken(p), Atom(b)];
    if p == Pow {
      Operation(a, p, b);
      assert s[1..] == [Atom(a), BinToken(p), Atom(b)];
      PrefixDerives(u, Binary(p, Leaf(a), Leaf(b)), s);
      Lift(Disjunction, Prefix, Unary(u, Binary(p, Leaf(a), Leaf(b))), s);
      GrammarExact(s, Unary(u, Binary(p, Leaf(a), Leaf(b))));
    } else {
      AtomAt(a, Power);
      assert s[..2][1..] == [Atom(a)] && s[3..] == [Atom(b)];
      PrefixDerives(u, Leaf(a), s[..2]);
      Lift(LeftLevel(p), Prefix, Unary(u, Leaf(a)), s[..2]);
      AtomAt(b, RightLevel(p));
      var e := Binary(p, Unary(u, Leaf(a)), Leaf(b));
      SplitDerives(e, s, 2);
      Lift(Disjunction, LevelOf(p), e, s);
      GrammarExact(s, e);
    }
  }

  lemma PrefixDerives(u: UnOp, x: Expr, s: seq<Token>)
    requires s != [] && s[0] == UnToken(u) && Derives(Power, x, s[1..])
    ensures Derives(Prefix, Unary(u, x), s)
  {
    Lift(Prefix, Power, x, s[1..]);
  }
}
