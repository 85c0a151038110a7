/** Operator precedence in the expression parser (lparser.c). */
module ParseExpr {

  datatype BinOp = Add | Sub | Mul | Div | Mod | Pow | Concat | Eq | Lt | Le | Ne | Gt | Ge | And | Or

  datatype UnOp = Not | Minus | Len

  /** The tokens of expressions; '-' is both a binary and a unary operator. */
  datatype Token = Atom(n: nat) | LPar | RPar | Dash | Hash | KwNot | Op(op: BinOp) | End

  datatype Expr = Leaf(n: nat) | Unary(u: UnOp, x: Expr) | Binary(op: BinOp, l: Expr, r: Expr)

  /** The table of priorities. */
  function Left(op: BinOp): nat {
    match op
    case Add => 6 case Sub => 6 case Mul => 7 case Div => 7 case Mod => 7
    case Pow => 10 case Concat => 5
    case Eq => 3 case Lt => 3 case Le => 3 case Ne => 3 case Gt => 3 case Ge => 3
    case And => 2 case Or => 1
  }

  function Right(op: BinOp): nat {
    match op case Pow => 9 case Concat => 4 case _ => Left(op)
  }

  const UNARY_PRIORITY: nat := 8

  datatype Option<T> = None | Some(value: T)

  /** getunopr */
  function GetUnOp(t: Token): Option<UnOp> {
    match t case KwNot => Some(Not) case Dash => Some(Minus) case Hash => Some(Len) case _ => None
  }

  /** getbinopr */
  function GetBinOp(t: Token): Option<BinOp> {
    match t case Dash => Some(Sub) case Op(op) => Some(op) case _ => None
  }

  /** The token of an operator. */
  function BinToken(op: BinOp): (t: Token)
    ensures GetBinOp(t) == Some(op)
  {
    if op == Sub then Dash else Op(op)
  }

  function UnToken(u: UnOp): (t: Token)
    ensures GetUnOp(t) == Some(u)
  {
    match u case Not => KwNot case Minus => Dash case Len => Hash
  }

  // ---- Printing

  /** The left priority of the operator that follows, 0 if none does. */
  function Follow(rest: seq<Token>): nat {
    if rest == [] || GetBinOp(rest[0]).None? then 0 else Left(GetBinOp(rest[0]).value)
  }

  /**
   * e needs no parentheses where operators above limit are read, and an operator of left priority follow comes next.
   */
  predicate Fits(e: Expr, limit: nat, follow: nat) {
    match e
    case Leaf(_) => true
    case Unary(_, _) => follow <= UNARY_PRIORITY
    case Binary(op, _, _) => Left(op) > limit && follow <= Right(op)
  }

  function Print(e: Expr, limit: nat, follow: nat): (s: seq<Token>)
    ensures s != []
    decreases e, 1
  {
    if Fits(e, limit, follow) then Bare(e, limit, follow) else [LPar] + Bare(e, 0, 0) + [RPar]
  }

  function Bare(e: Expr, limit: nat, follow: nat): (s: seq<Token>)
    ensures s != []
    decreases e, 0
  {
    match e
    case Leaf(n) => [Atom(n)]
    case Unary(u, x) => [UnToken(u)] + Print(x, UNARY_PRIORITY, follow)
    case Binary(op, l, r) => Print(l, limit, Left(op)) + [BinToken(op)] + Print(r, Right(op), follow)
  }

  // ---- Parsing, as a function of the tokens

  datatype Parsed = Error | Got(e: Expr, rest: seq<Token>)

  /** simpleexp and primaryexp: an atom or an expression in parentheses. */
  function Simple(s: seq<Token>): (r: Parsed)
    ensures r.Got? ==> |r.rest| < |s|
    decreases |s|, 0
  {
    if s == [] then Error
    else match s[0]
      case Atom(n) => Got(Leaf(n), s[1..])
      case LPar =>
        var r := SubExpr(s[1..], 0);
        if r.Got? && r.rest != [] && r.rest[0] == RPar then Got(r.e, r.rest[1..]) else Error
      case _ => Error
  }

  /** subexpr */
  function SubExpr(s: seq<Token>, limit: nat): (r: Parsed)
    ensures r.Got? ==> |r.rest| < |s|
    decreases |s|, 1
  {
    if s == [] then Error
    else
      var u := GetUnOp(s[0]);
      var first := if u.Some? then (var x := SubExpr(s[1..], UNARY_PRIORITY);
          if x.Got? then Got(Unary(u.value, x.e), x.rest) else Error) else Simple(s);
      if first.Got? then Loop(first.e, first.rest, limit) else Error
  }

  /** The loop of subexpr: operators with a priority above limit. */
  function Loop(e: Expr, s: seq<Token>, limit: nat): (r: Parsed)
    ensures r.Got? ==> |r.rest| <= |s|
    decreases |s|, 0
  {
    if Follow(s) <= limit then Got(e, s)
    else
      var op := GetBinOp(s[0]).value;
      var r := SubExpr(s[1..], Right(op));
      if r.Got? then Loop(Binary(op, e, r.e), r.rest, limit) else Error
  }

  // ---- Round trip

  /** Reading what was printed gives the expression back, and then reads on. */
  lemma {:induction false} ReadBack(e: Expr, limit: nat, rest: seq<Token>)
    ensures SubExpr(Print(e, limit, Follow(rest)) + rest, limit) == Loop(e, rest, limit)
    decreases e, 1
  {
    var f := Follow(rest);
    if Fits(e, limit, f) {
      ReadBare(e, limit, rest);
    } else {
      var inner := [RPar] + rest;
      ReadBare(e, 0, inner);
      var s := Print(e, limit, f) + rest;
      assert s[1..] == Bare(e, 0, 0) + inner;
      assert inner[1..] == rest;
      assert Simple(s) == Got(e, rest);
    }
  }

  lemma {:induction false} ReadBare(e: Expr, limit: nat, rest: seq<Token>)
    requires Fits(e, limit, Follow(rest))
    ensures SubExpr(Bare(e, limit, Follow(rest)) + rest, limit) == Loop(e, rest, limit)
    decreases e, 0
  {
    hide *;
    BareIs(e, limit, Follow(rest));
    match e {
      case Leaf(n) => ReadLeaf(n, limit, rest);
      case Unary(u, x) =>
        ReadBack(x, UNARY_PRIORITY, rest);
        ReadUnary(u, x, limit, rest);
      case Binary(op, l, r) =>
        var tail := [BinToken(op)] + (Print(r, Right(op), Follow(rest)) + rest);
        ReadBack(r, Right(op), rest);
        ReadBinary(op, l, r, limit, rest);
        ReadBack(l, limit, tail);
        assert Bare(e, limit, Follow(rest)) + rest == Print(l, limit, Left(op)) + tail;
    }
  }

  lemma BareIs(e: Expr, limit: nat, follow: nat)
    ensures e.Leaf? ==> Fits(e, limit, follow)
    ensures e.Unary? ==>
        (Fits(e, limit, follow) <==> follow <= UNARY_PRIORITY)
        && Bare(e, limit, follow) == [UnToken(e.u)] + Print(e.x, UNARY_PRIORITY, follow)
    ensures e.Binary? ==> (Fits(e, limit, follow) <==> Left(e.op) > limit && follow <= Right(e.op))
    ensures e.Binary? ==>
        Bare(e, limit, follow) == Print(e.l, limit, Left(e.op)) + [BinToken(e.op)] + Print(e.r, Right(e.op), follow)
  {
  }

  lemma ReadLeaf(n: nat, limit: nat, rest: seq<Token>)
    ensures SubExpr(Bare(Leaf(n), limit, Follow(rest)) + rest, limit) == Loop(Leaf(n), rest, limit)
  {
    var s := [Atom(n)] + rest;
    assert s[0] == Atom(n) && s[1..] == rest;
    assert Simple(s) == Got(Leaf(n), rest);
  }

  lemma ReadUnary(u: UnOp, x: Expr, limit: nat, rest: seq<Token>)
    requires Follow(rest) <= UNARY_PRIORITY && SubExpr(Print(x, UNARY_PRIORITY, Follow(rest)) + rest, UNARY_PRIORITY)
        == Loop(x, rest, UNARY_PRIORITY)
    ensures SubExpr(Bare(Unary(u, x), limit, Follow(rest)) + rest, limit) == Loop(Unary(u, x), rest, limit)
  {
    var s := Bare(Unary(u, x), limit, Follow(rest)) + rest;
    assert s[0] == UnToken(u) && s[1..] == Print(x, UNARY_PRIORITY, Follow(rest)) + rest;
    hide Print, Bare, Simple;
    assert Loop(x, rest, UNARY_PRIORITY) == Got(x, rest);
  }

  lemma ReadBinary(op: BinOp, l: Expr, r: Expr, limit: nat, rest: seq<Token>)
    requires Left(op) > limit && Follow(rest) <= Right(op)
        && SubExpr(Print(r, Right(op), Follow(rest)) + rest, Right(op)) == Loop(r, rest, Right(op))
    ensures var tail := [BinToken(op)] + (Print(r, Right(op), Follow(rest)) + rest);
        Follow(tail) == Left(op) && Loop(l, tail, limit) == Loop(Binary(op, l, r), rest, limit)
  {
    var tail := [BinToken(op)] + (Print(r, Right(op), Follow(rest)) + rest);
    assert tail[0] == BinToken(op) && tail[1..] == Print(r, Right(op), Follow(rest)) + rest;
    hide Print, Simple, SubExpr, Left, Right;
    assert Loop(r, rest, Right(op)) == Got(r, rest);
  }

  /** What is left after an expression does not start with an operator that belonged to it. */
  lemma {:induction false} StopsBelow(s: seq<Token>, limit: nat)
    ensures SubExpr(s, limit).Got? ==> Follow(SubExpr(s, limit).rest) <= limit
  {
    if s != [] {
      var u := GetUnOp(s[0]);
      var first := if u.Some? then (var x := SubExpr(s[1..], UNARY_PRIORITY);
          if x.Got? then Got(Unary(u.value, x.e), x.rest) else Error) else Simple(s);
      if first.Got? { LoopStops(first.e, first.rest, limit); }
    }
  }

  lemma {:induction false} LoopStops(e: Expr, s: seq<Token>, limit: nat)
    ensures Loop(e, s, limit).Got? ==> Follow(Loop(e, s, limit).rest) <= limit
    decreases |s|
  {
    if Follow(s) > limit {
      var op := GetBinOp(s[0]).value;
      var r := SubExpr(s[1..], Right(op));
      if r.Got? { LoopStops(Binary(op, e, r.e), r.rest, limit); }
    }
  }

  /** Whatever was read, printing it and reading it again gives the same. */
  lemma ReadAgain(s: seq<Token>, limit: nat)
    requires SubExpr(s, limit).Got?
    ensures var r := SubExpr(s, limit); SubExpr(Print(r.e, limit, Follow(r.rest)) + r.rest, limit) == r
  {
    var r := SubExpr(s, limit);
    StopsBelow(s, limit);
    ReadBack(r.e, limit, r.rest);
  }

  /** Different expressions never print alike. */
  lemma PrintInjective(a: Expr, b: Expr)
    ensures Print(a, 0, 0) == Print(b, 0, 0) ==> a == b
  {
    ReadBack(a, 0, [End]);
    ReadBack(b, 0, [End]);
    assert Loop(a, [End], 0) == Got(a, [End]) && Loop(b, [End], 0) == Got(b, [End]);
  }

  // ---- No pair of parentheses can be left out

  /** The operators on the left spine of an expression, which is what the loop of subexpr builds. */
  function Spine(e: Expr): nat { if e.Binary? then 1 + Spine(e.l) else 0 }

  function Down(e: Expr, k: nat): Expr
    requires k <= Spine(e)
  {
    if k == 0 then e else Down(e.l, k - 1)
  }

  lemma {:induction false} DownStep(e: Expr, k: nat)
    requires k <= Spine(e) && Down(e, k).Binary?
    ensures k < Spine(e) && Down(e, k + 1) == Down(e, k).l
  {
    if k > 0 { DownStep(e.l, k - 1); }
  }

  /** What the loop returns has the expression it began with k steps down its left spine. */
  lemma {:induction false} LoopSpine(e: Expr, s: seq<Token>, limit: nat) returns (k: nat)
    requires Loop(e, s, limit).Got?
    ensures var t := Loop(e, s, limit).e; Spine(t) == Spine(e) + k && Down(t, k) == e
    ensures Follow(s) > limit ==> k > 0
    decreases |s|
  {
    k := 0;
    if Follow(s) > limit {
      var op := GetBinOp(s[0]).value;
      var r := SubExpr(s[1..], Right(op));
      k := LoopSpine(Binary(op, e, r.e), r.rest, limit);
      DownStep(Loop(e, s, limit).e, k);
      k := k + 1;
    }
  }

  /** Loops that begin with different expressions on equal spines end with different ones. */
  lemma LoopsDiffer(a: Expr, s: seq<Token>, b: Expr, t: seq<Token>, limit: nat)
    requires a != b && ((a.Unary? && b.Unary?) || (a.Binary? && b.Binary? && a.l == b.l))
    ensures Loop(a, s, limit).Got? ==> Loop(a, s, limit) != Loop(b, t, limit)
  {
    if Loop(a, s, limit).Got? && Loop(b, t, limit).Got? {
      var j := LoopSpine(a, s, limit);
      var k := LoopSpine(b, t, limit);
    }
  }

  /** Where an expression does not fit, reading it without parentheses never gives it back. */
  lemma ParenthesesNeeded(e: Expr, limit: nat, rest: seq<Token>)
    requires !Fits(e, limit, Follow(rest))
    ensures var r := SubExpr(Bare(e, limit, Follow(rest)) + rest, limit); r.Got? ==> r != Loop(e, rest, limit)
  {
    hide *;
    BareIs(e, limit, Follow(rest));
    var s := Bare(e, limit, Follow(rest)) + rest;
    match e {
      case Unary(u, x) =>
        ReadBack(x, UNARY_PRIORITY, rest);
        assert s[0] == UnToken(u) && s[1..] == Print(x, UNARY_PRIORITY, Follow(rest)) + rest;
        SubExprIs(s, limit);
        SwallowsMore(x, rest, UNARY_PRIORITY);
        var y := Loop(x, rest, UNARY_PRIORITY);
        if y.Got? { LoopsDiffer(Unary(u, y.e), y.rest, e, rest, limit); }
      case Binary(op, l, r) =>
        var more := Print(r, Right(op), Follow(rest)) + rest;
        var tail := [BinToken(op)] + more;
        assert tail[0] == BinToken(op) && tail[1..] == more;
        FollowIs(tail, op);
        ReadBack(l, limit, tail);
        assert s == Print(l, limit, Left(op)) + tail;
        if Left(op) > limit {
          LoopMore(l, tail, op, limit);
          ReadBack(r, Right(op), rest);
          SwallowsMore(r, rest, Right(op));
          var y := Loop(r, rest, Right(op));
          if y.Got? { LoopsDiffer(Binary(op, l, y.e), y.rest, e, rest, limit); }
        } else {
          LoopDone(l, tail, limit);
        }
    }
  }

  lemma FollowIs(s: seq<Token>, op: BinOp)
    requires s != [] && s[0] == BinToken(op)
    ensures Follow(s) == Left(op)
  {
  }

  /** An operand that is followed by an operator above the limit takes it. */
  lemma SwallowsMore(x: Expr, rest: seq<Token>, limit: nat)
    requires Follow(rest) > limit
    ensures Loop(x, rest, limit).Got? ==> Loop(x, rest, limit).e != x
  {
    if Loop(x, rest, limit).Got? { var k := LoopSpine(x, rest, limit); }
  }

  // ---- The parser

  class LexState {
    const tokens: seq<Token>
    var pos: nat

    constructor (s: seq<Token>)
      ensures tokens == s && pos == 0
    {
      tokens, pos := s, 0;
    }

    /** The current token; the input ends with an end mark. */
    function Current(): Token
      reads this
    {
      if pos < |tokens| then tokens[pos] else End
    }

    /** The tokens that are still to be read. */
    ghost function Ahead(): seq<Token>
      reads this
    {
      if pos <= |tokens| then tokens[pos..] else []
    }

    /** luaX_next */
    method Next()
      requires pos < |tokens|
      modifies this
      ensures pos == old(pos) + 1 && old(Ahead()) != [] && Ahead() == old(Ahead())[1..]
    {
      pos := pos + 1;
    }

    /** simpleexp */
    method SimpleExp() returns (r: Option<Expr>)
      requires pos <= |tokens|
      modifies this
      ensures old(pos) <= pos <= |tokens| && Reads(Simple(old(Ahead())), r, Ahead())
      decreases |tokens| - pos, 0
    {
      match Current() {
        case Atom(n) =>
          Next();
          return Some(Leaf(n));
        case LPar =>
          Next();
          var _, e := Subexpr(0);
          if e.None? || Current() != RPar { return None; }  // check_match
          Next();
          return e;
        case _ => return None;  // unexpected symbol
      }
    }

    /** subexpr: the expression, and the first untreated operator. */
    method Subexpr(limit: nat) returns (op: Option<BinOp>, v: Option<Expr>)
      requires pos <= |tokens|
      modifies this
      ensures old(pos) <= pos <= |tokens| && Reads(SubExpr(old(Ahead()), limit), v, Ahead())
      ensures v.Some? ==> pos > old(pos) && op == GetBinOp(Current())
      decreases |tokens| - pos, 1
    {
      hide *;
      op := None;
      SubExprIs(Ahead(), limit);
      CurrentIs();
      var uop := GetUnOp(Current());
      if uop.Some? {
        ghost var s := Ahead();
        Next();
        var _, x := Subexpr(UNARY_PRIORITY);
        ReadsIs(SubExpr(s[1..], UNARY_PRIORITY), x, Ahead());
        if x.None? { ReadsNone(SubExpr(s, limit)); return None, None; }
        v := Some(Unary(uop.value, x.value));
      } else {
        ghost var s := Ahead();
        v := SimpleExp();
        ReadsIs(Simple(s), v, Ahead());
        if v.None? { ReadsNone(SubExpr(s, limit)); return None, None; }
        SimpleReads(s);
      }
      CurrentIs();
      op := GetBinOp(Current());
      while op.Some? && Left(op.value) > limit
        invariant old(pos) < pos <= |tokens| && v.Some? && op == GetBinOp(Current())
        invariant SubExpr(old(Ahead()), limit) == Loop(v.value, Ahead(), limit)
        decreases |tokens| - pos
      {
        CurrentIs();
        ghost var s := Ahead();
        LoopMore(v.value, s, op.value, limit);
        Next();
        var nextop, v2 := Subexpr(Right(op.value));
        ReadsIs(SubExpr(s[1..], Right(op.value)), v2, Ahead());
        if v2.None? { ReadsNone(Loop(v.value, s, limit)); return None, None; }
        v := Some(Binary(op.value, v.value, v2.value));
        op := nextop;
      }
      CurrentIs();
      LoopDone(v.value, Ahead(), limit);
      ReadsSome(Got(v.value, Ahead()));
    }

    lemma CurrentIs()
      requires pos <= |tokens|
      ensures Current() == (if Ahead() == [] then End else Ahead()[0]) && |Ahead()| == |tokens| - pos
          && GetBinOp(End).None? && GetUnOp(End).None?
    {
    }
  }

  lemma SubExprIs(s: seq<Token>, limit: nat)
    ensures s == [] ==> SubExpr(s, limit) == Error && Simple(s) == Error
    ensures s != [] && GetUnOp(s[0]).Some? ==> SubExpr(s, limit) == (var x := SubExpr(s[1..], UNARY_PRIORITY);
        if x.Got? then Loop(Unary(GetUnOp(s[0]).value, x.e), x.rest, limit) else Error)
    ensures s != [] && GetUnOp(s[0]).None? ==> SubExpr(s, limit) == (var x := Simple(s);
        if x.Got? then Loop(x.e, x.rest, limit) else Error)
  {
  }

  lemma SimpleReads(s: seq<Token>)
    ensures Simple(s).Got? ==> |Simple(s).rest| < |s|
  {
  }

  lemma LoopMore(e: Expr, s: seq<Token>, op: BinOp, limit: nat)
    requires s != [] && GetBinOp(s[0]) == Some(op) && Left(op) > limit
    ensures Loop(e, s, limit) == (var r := SubExpr(s[1..], Right(op));
        if r.Got? then Loop(Binary(op, e, r.e), r.rest, limit) else Error)
  {
    hide Left;
  }

  lemma LoopDone(e: Expr, s: seq<Token>, limit: nat)
    requires s != [] && GetBinOp(s[0]).Some? ==> Left(GetBinOp(s[0]).value) <= limit
    ensures Loop(e, s, limit) == Got(e, s)
  {
  }

  lemma ReadsIs(p: Parsed, r: Option<Expr>, ahead: seq<Token>)
    requires Reads(p, r, ahead)
    ensures r.None? <==> p.Error?
    ensures r.Some? ==> p == Got(r.value, ahead)
  {
  }

  lemma ReadsNone(p: Parsed)
    ensures p.Error? ==> forall a :: Reads(p, None, a)
  {
  }

  lemma ReadsSome(p: Parsed)
    ensures p.Got? ==> Reads(p, Some(p.e), p.rest)
  {
  }

  ghost predicate Reads(p: Parsed, r: Option<Expr>, ahead: seq<Token>) {
    if p.Error? then r.None? else r == Some(p.e) && ahead == p.rest
  }

  /** Printing any expression and parsing it gives it back, and reads exactly what was printed. */
  method RoundTrip(e: Expr) returns (v: Option<Expr>)
    ensures v == Some(e)
  {
    var text := Print(e, 0, 0);
    var ls := new LexState(text + [End]);
    var op;
    ReadBack(e, 0, [End]);
    assert ls.Ahead() == text + [End];
    op, v := ls.Subexpr(0);
    assert ls.Ahead() == [End] && ls.pos == |text|;
  }
}
