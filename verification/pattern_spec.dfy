/** What a Lua pattern means (lstrlib.c): the matches from a place, in the order in which they are preferred. */
module PatternSpec {

  /** A capture: where it starts, and its length or one of the two marks. */
  datatype Capture = Capture(init: nat, len: int)

  const UNFINISHED: int := -1
  const POSITION: int := -2
  const MAXCAPTURES: nat := 32
  const ESC: char := '%'

  /** A match that ends at a place with some captures; or an error, which ends the search. */
  datatype Outcome = Match(end: nat, caps: seq<Capture>) | Error

  /** The character at an index; a string ends with a zero. */
  function Char(t: string, i: nat): char { if i < |t| then t[i] else '\0' }

  // ---- Character classes

  predicate IsDigit(c: char) { '0' <= c <= '9' }
  predicate IsLower(c: char) { 'a' <= c <= 'z' }
  predicate IsUpper(c: char) { 'A' <= c <= 'Z' }
  predicate IsAlnum(c: char) { IsDigit(c) || IsLower(c) || IsUpper(c) }
  predicate IsGraph(c: char) { '!' <= c <= '~' }

  function ToLower(c: char): char { if IsUpper(c) then c - 'A' + 'a' else c }

  /** match_class, in the C locale. */
  predicate MatchClass(c: char, cl: char) {
    var l := ToLower(cl);
    var res :=
      if l == 'a' then IsLower(c) || IsUpper(c)
      else if l == 'c' then c < ' ' || c == '\U{7F}'
      else if l == 'd' then IsDigit(c)
      else if l == 'g' then IsGraph(c)
      else if l == 'l' then IsLower(c)
      else if l == 'p' then IsGraph(c) && !IsAlnum(c)
      else if l == 's' then c == ' ' || '\t' <= c <= '\r'
      else if l == 'u' then IsUpper(c)
      else if l == 'w' then IsAlnum(c)
      else if l == 'x' then IsDigit(c) || 'a' <= ToLower(c) <= 'f'
      else c == '\0';
    if l in "acdglpsuwxz" then (IsLower(cl) <==> res) else cl == c
  }

  predicate Within(c: char, a: int, b: int) { a <= c as int <= b }

  /** The classes by the codes of their members. */
  lemma LetterCodes(c: char)
    ensures MatchClass(c, 'a') <==> Within(c, 65, 90) || Within(c, 97, 122)
    ensures MatchClass(c, 'l') <==> Within(c, 97, 122)
    ensures MatchClass(c, 'u') <==> Within(c, 65, 90)
    ensures MatchClass(c, 'x') <==> Within(c, 48, 57) || Within(c, 65, 70) || Within(c, 97, 102)
  {
  }

  lemma WordCodes(c: char)
    ensures MatchClass(c, 'd') <==> Within(c, 48, 57)
    ensures MatchClass(c, 'w') <==> Within(c, 48, 57) || Within(c, 65, 90) || Within(c, 97, 122)
    ensures MatchClass(c, 'p') <==> Within(c, 33, 47) || Within(c, 58, 64) || Within(c, 91, 96) || Within(c, 123, 126)
    ensures MatchClass(c, 'g') <==> Within(c, 33, 126)
  {
  }

  lemma BlankCodes(c: char)
    ensures MatchClass(c, 's') <==> Within(c, 9, 13) || Within(c, 32, 32)
    ensures MatchClass(c, 'c') <==> Within(c, 0, 31) || Within(c, 127, 127)
    ensures MatchClass(c, 'z') <==> Within(c, 0, 0)
  {
  }

  /** A capital stands for the complement, and any other character for itself. */
  lemma ClassComplement(c: char, cl: char)
    ensures cl in "ACDGLPSUWXZ" ==> (MatchClass(c, cl) <==> !MatchClass(c, ToLower(cl)))
    ensures cl !in "acdglpsuwxzACDGLPSUWXZ" ==> (MatchClass(c, cl) <==> c == cl)
  {
  }

  /** The end of a class, or none if the pattern is malformed. */
  datatype End = EndAt(i: nat) | Malformed

  /** The loop of classend that looks for a closing bracket. */
  function BracketEnd(pat: string, q: nat): (r: End)
    ensures r.EndAt? ==> q + 1 < r.i <= |pat|
    decreases |pat| - q
  {
    if q >= |pat| then Malformed
    else
      var next := if pat[q] == ESC && q + 1 < |pat| then q + 2 else q + 1;
      if Char(pat, next) == ']' then EndAt(next + 1) else BracketEnd(pat, next)
  }

  function ClassEnd(pat: string, p: nat): (r: End)
    requires p < |pat|
    ensures r.EndAt? ==> p < r.i <= |pat|
  {
    if pat[p] == ESC then (if p + 1 == |pat| then Malformed else EndAt(p + 2))
    else if pat[p] == '[' then BracketEnd(pat, if Char(pat, p + 1) == '^' then p + 2 else p + 1)
    else EndAt(p + 1)
  }

  /** A set without its complement mark: c is one of its classes, ranges or characters. */
  predicate InSet(pat: string, c: char, p: nat, ec: nat)
    decreases ec - p
  {
    if p >= ec then false
    else if Char(pat, p) == ESC then MatchClass(c, Char(pat, p + 1)) || InSet(pat, c, p + 2, ec)
    else if Char(pat, p + 1) == '-' && p + 2 < ec then Char(pat, p) <= c <= Char(pat, p + 2) || InSet(pat, c, p + 3, ec)
    else Char(pat, p) == c || InSet(pat, c, p + 1, ec)
  }

  predicate MatchBracket(pat: string, c: char, p: nat, ec: nat) {
    if Char(pat, p + 1) == '^' then !InSet(pat, c, p + 2, ec) else InSet(pat, c, p + 1, ec)
  }

  predicate Single(src: string, pat: string, s: nat, p: nat, ep: nat) {
    s < |src| && p < |pat| && ep > 0 &&
      if pat[p] == '.' then true
      else if pat[p] == ESC then MatchClass(src[s], Char(pat, p + 1))
      else if pat[p] == '[' then MatchBracket(pat, src[s], p, ep - 1)
      else pat[p] == src[s]
  }

  /** How often in a row a class matches from s on. */
  function Run(src: string, pat: string, s: nat, p: nat, ep: nat): (n: nat)
    requires s <= |src|
    ensures s + n <= |src|
    decreases |src| - s
  {
    if Single(src, pat, s, p, ep) then 1 + Run(src, pat, s + 1, p, ep) else 0
  }

  /** The end of a balanced string: cont openings are still to be closed. */
  function Balanced(src: string, i: nat, b: char, e: char, cont: nat): (r: End)
    requires cont > 0
    ensures r.EndAt? ==> i < r.i <= |src|
    decreases |src| - i
  {
    if i >= |src| then Malformed
    else if src[i] == e then (if cont == 1 then EndAt(i + 1) else Balanced(src, i + 1, b, e, cont - 1))
    else Balanced(src, i + 1, b, e, if src[i] == b then cont + 1 else cont)
  }

  function Count(t: string, c: char): nat {
    if t == "" then 0 else Count(t[..|t| - 1], c) + if t[|t| - 1] == c then 1 else 0
  }

  /** How many openings are still to be closed at place j; if both ends are the same character it closes. */
  function OpenAt(src: string, i: nat, j: nat, b: char, e: char, cont: nat): int
    requires i <= j <= |src|
  {
    cont + (if b == e then 0 else Count(src[i..j], b)) - Count(src[i..j], e)
  }

  lemma {:induction false} CountFirst(t: string, c: char)
    requires t != ""
    ensures Count(t, c) == Count(t[1..], c) + if t[0] == c then 1 else 0
  {
    var n := |t| - 1;
    if n > 0 {
      CountFirst(t[..n], c);
      assert t[..n][1..] == t[1..][..n - 1];
    } else {
      assert t[1..] == "" && t[..0] == "";
    }
  }

  /** Some opening is to be closed at all places before j. */
  ghost predicate OpenUntil(src: string, i: nat, j: nat, b: char, e: char, cont: nat)
    requires i <= j <= |src|
  {
    forall k: nat :: i <= k < j ==> OpenAt(src, i, k, b, e, cont) > 0
  }

  lemma OpenNext(src: string, i: nat, j: nat, b: char, e: char, cont: nat)
    requires i < j <= |src| && cont > 0
    ensures var more := if src[i] == e then cont - 1 else if src[i] == b then cont + 1 else cont;
      OpenAt(src, i, j, b, e, cont) == OpenAt(src, i + 1, j, b, e, more)
  {
    CountFirst(src[i..j], b);
    CountFirst(src[i..j], e);
    assert src[i..j][1..] == src[i + 1..j];
  }

  lemma OpenStep(src: string, i: nat, j: nat, b: char, e: char, cont: nat)
    requires i < j <= |src| && cont > 0
    ensures var more := if src[i] == e then cont - 1 else if src[i] == b then cont + 1 else cont;
      && OpenAt(src, i, j, b, e, cont) == OpenAt(src, i + 1, j, b, e, more)
      && (OpenUntil(src, i, j, b, e, cont) <==> OpenUntil(src, i + 1, j, b, e, more))
  {
    var more := if src[i] == e then cont - 1 else if src[i] == b then cont + 1 else cont;
    OpenNext(src, i, j, b, e, cont);
    assert src[i..i] == "" && OpenAt(src, i, i, b, e, cont) == cont;
    if OpenUntil(src, i, j, b, e, cont) {
      var next := i + 1;
      forall k: nat | next <= k < j ensures OpenAt(src, next, k, b, e, more) > 0 {
        OpenNext(src, i, k, b, e, cont);
      }
    }
    if OpenUntil(src, i + 1, j, b, e, more) {
      forall k: nat | i <= k < j ensures OpenAt(src, i, k, b, e, cont) > 0 {
        if k > i { OpenNext(src, i, k, b, e, cont); }
      }
    }
  }

  /** The balanced string ends at the first place where all openings are closed. */
  lemma {:induction false} BalancedExact(src: string, i: nat, b: char, e: char, cont: nat, j: nat)
    requires cont > 0 && i <= |src|
    ensures Balanced(src, i, b, e, cont) == EndAt(j) <==>
      i < j <= |src| && OpenAt(src, i, j, b, e, cont) == 0 && OpenUntil(src, i, j, b, e, cont)
    decreases |src| - i
  {
    if i < |src| {
      var more := if src[i] == e then cont - 1 else if src[i] == b then cont + 1 else cont;
      OpenStep(src, i, i + 1, b, e, cont);
      assert src[i + 1..i + 1] == "" && OpenAt(src, i + 1, i + 1, b, e, more) == more;
      if i < j <= |src| { OpenStep(src, i, j, b, e, cont); }
      if more > 0 {
        BalancedExact(src, i + 1, b, e, more, j);
      } else if i + 1 < j <= |src| {
        assert !(OpenAt(src, i, i + 1, b, e, cont) > 0);
      }
    }
  }

  // ---- Captures

  /** capture_to_close: the last capture that is not finished. */
  function ToClose(caps: seq<Capture>): (l: int)
    ensures -1 <= l < |caps| && (l >= 0 ==> caps[l].len == UNFINISHED) && forall k ::
        l < k < |caps| ==> caps[k].len != UNFINISHED
  {
    if caps == [] then -1
    else if caps[|caps| - 1].len == UNFINISHED then |caps| - 1
    else ToClose(caps[..|caps| - 1])
  }

  /** The captures that a match can leave lie within the subject. */
  predicate CapsOk(src: string, caps: seq<Capture>) {
    |caps| <= MAXCAPTURES && forall k ::
        0 <= k < |caps| ==> caps[k].init <= |src| && (caps[k].len >= 0 ==> caps[k].init + caps[k].len <= |src|)
  }

  /** What a back reference stands for: a text, nothing, or an error. */
  datatype Back = Text(t: string) | Nothing | Invalid

  function BackRef(src: string, caps: seq<Capture>, c: char): Back
    requires CapsOk(src, caps)
  {
    if c == '0' || !IsDigit(c) then Invalid
    else
      var l := (c - '1') as int;
      if l >= |caps| || caps[l].len == UNFINISHED then Invalid
      else if caps[l].len < 0 then Nothing
      else Text(src[caps[l].init..caps[l].init + caps[l].len])
  }

  /** %1 to %9 stand for the text of the first to the ninth capture. */
  lemma BackRefIs(src: string, caps: seq<Capture>, k: nat)
    requires CapsOk(src, caps) && k < 9
    ensures var b := BackRef(src, caps, "123456789"[k]);
      if k < |caps| && caps[k].len >= 0 then b == Text(src[caps[k].init..caps[k].init + caps[k].len]) else !b.Text?
  {
    assert "123456789"[k] as int == '1' as int + k;
  }

  // ---- The meaning

  /** The outcomes of the pattern from p on at place s, best first; d calls of match may still be nested. */
  ghost function Tries(src: string, pat: string, d: nat, p: nat, s: nat, caps: seq<Capture>): seq<Outcome>
    requires p <= |pat| && s <= |src| && CapsOk(src, caps)
    decreases |pat| - p, 3, 0
  {
    if d == 0 then [Error] else Body(src, pat, d - 1, p, s, caps)
  }

  ghost function Body(src: string, pat: string, d: nat, p: nat, s: nat, caps: seq<Capture>): seq<Outcome>
    requires p <= |pat| && s <= |src| && CapsOk(src, caps)
    decreases |pat| - p, 2, 0
  {
    if p == |pat| then [Match(s, caps)]
    else if pat[p] == '(' then Open(src, pat, d, p, s, caps)
    else if pat[p] == ')' then Close(src, pat, d, p, s, caps)
    else if pat[p] == '$' && p + 1 == |pat| then (if s == |src| then [Match(s, caps)] else [])
    else if pat[p] == ESC && Char(pat, p + 1) == 'b' then Balance(src, pat, d, p, s, caps)
    else if pat[p] == ESC && Char(pat, p + 1) == 'f' then Frontier(src, pat, d, p, s, caps)
    else if pat[p] == ESC && IsDigit(Char(pat, p + 1)) then Again(src, pat, d, p, s, caps)
    else match ClassEnd(pat, p) case Malformed => [Error] case EndAt(ep) => Item(src, pat, d, p, ep, s, caps)
  }

  /** A capture starts here. */
  ghost function Open(src: string, pat: string, d: nat, p: nat, s: nat, caps: seq<Capture>): seq<Outcome>
    requires p < |pat| && s <= |src| && CapsOk(src, caps)
    decreases |pat| - p, 1, 0
  {
    if |caps| >= MAXCAPTURES then [Error]
    else if Char(pat, p + 1) == ')' then Tries(src, pat, d, p + 2, s, caps + [Capture(s, POSITION)])
    else Tries(src, pat, d, p + 1, s, caps + [Capture(s, UNFINISHED)])
  }

  /** A capture ends here. */
  ghost function Close(src: string, pat: string, d: nat, p: nat, s: nat, caps: seq<Capture>): seq<Outcome>
    requires p < |pat| && s <= |src| && CapsOk(src, caps)
    decreases |pat| - p, 1, 0
  {
    var l := ToClose(caps);
    if l < 0 then [Error] else Tries(src, pat, d, p + 1, s, caps[l := Capture(caps[l].init, s - caps[l].init)])
  }

  ghost function Balance(src: string, pat: string, d: nat, p: nat, s: nat, caps: seq<Capture>): seq<Outcome>
    requires p + 1 < |pat| && s <= |src| && CapsOk(src, caps)
    decreases |pat| - p, 1, 0
  {
    if p + 3 >= |pat| then [Error]
    else if Char(src, s) != pat[p + 2] then []
    else match Balanced(src, s + 1, pat[p + 2], pat[p + 3], 1) case Malformed => []
        case EndAt(e) => Body(src, pat, d, p + 4, e, caps)
  }

  ghost function Frontier(src: string, pat: string, d: nat, p: nat, s: nat, caps: seq<Capture>): seq<Outcome>
    requires p + 1 < |pat| && s <= |src| && CapsOk(src, caps)
    decreases |pat| - p, 1, 0
  {
    if Char(pat, p + 2) != '[' then [Error]
    else match ClassEnd(pat, p + 2)
      case Malformed => [Error]
      case EndAt(ep) =>
        if !MatchBracket(pat, if s == 0 then '\0' else src[s - 1], p + 2, ep - 1)
            && MatchBracket(pat, Char(src, s), p + 2, ep - 1) then Body(src, pat, d, ep, s, caps) else []
  }

  ghost function Again(src: string, pat: string, d: nat, p: nat, s: nat, caps: seq<Capture>): seq<Outcome>
    requires p + 1 < |pat| && s <= |src| && CapsOk(src, caps)
    decreases |pat| - p, 1, 0
  {
    match BackRef(src, caps, pat[p + 1])
    case Invalid => [Error]
    case Nothing => []
    case Text(t) => if t <= src[s..] then Body(src, pat, d, p + 2, s + |t|, caps) else []
  }

  /** A class with an optional suffix. */
  ghost function Item(src: string, pat: string, d: nat, p: nat, ep: nat, s: nat, caps: seq<Capture>): seq<Outcome>
    requires p < ep <= |pat| && s <= |src| && CapsOk(src, caps)
    decreases |pat| - p, 1, 0
  {
    var c := Char(pat, ep);
    if c == '?' then (if Single(src, pat, s, p, ep) then Tries(src, pat, d, ep + 1, s + 1, caps) else [])
        + Body(src, pat, d, ep + 1, s, caps)
    else if c == '*' then (if Single(src, pat, s, p, ep) then Most(src, pat, d, ep, s, Run(src, pat, s, p, ep), caps)
        else Body(src, pat, d, ep + 1, s, caps))
    else if c == '+' then (if Single(src, pat, s, p, ep) then Most(src, pat, d, ep, s + 1, Run(src, pat, s + 1, p, ep),
        caps) else [])
    else if c == '-' then (if Single(src, pat, s, p, ep) then Least(src, pat, d, p, ep, s, caps)
        else Body(src, pat, d, ep + 1, s, caps))
    else if Single(src, pat, s, p, ep) then Body(src, pat, d, ep, s + 1, caps) else []
  }

  /** The rest of the pattern after n, n - 1, ..., 0 repetitions. */
  ghost function Most(src: string, pat: string, d: nat, ep: nat, s: nat, n: nat, caps: seq<Capture>): seq<Outcome>
    requires ep < |pat| && s + n <= |src| && CapsOk(src, caps)
    decreases |pat| - ep - 1, 4, n
  {
    Tries(src, pat, d, ep + 1, s + n, caps) + if n == 0 then [] else Most(src, pat, d, ep, s, n - 1, caps)
  }

  /** The rest of the pattern after 0, 1, ... repetitions. */
  ghost function Least(src: string, pat: string, d: nat, p: nat, ep: nat, s: nat, caps: seq<Capture>): seq<Outcome>
    requires p < ep < |pat| && s <= |src| && CapsOk(src, caps)
    decreases |pat| - ep - 1, 4, |src| - s
  {
    Tries(src, pat, d, ep + 1, s, caps) + if Single(src, pat, s, p, ep) then Least(src, pat, d, p, ep, s + 1, caps)
        else []
  }
}
