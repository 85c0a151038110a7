/** The pattern matcher (lstrlib.c): it finds the first outcome, and leaves no trace when there is none. */
module Pattern {
  import opened PatternMeaning
  import opened PatternOrder
  import opened PatternSpec

  datatype Result = Found(e: nat) | Fail | Raised

  /** r is the first of the outcomes; after a failure the captures are what they were. */
  ghost predicate Answers(o: seq<Outcome>, r: Result, before: seq<Capture>, after: seq<Capture>) {
    match r
    case Found(e) => o != [] && o[0] == Match(e, after)
    case Fail => o == [] && after == before
    case Raised => o != [] && o[0] == Error
  }

  lemma OutcomeMeans(src: string, pat: string, d: nat, p: nat, s: nat, caps: seq<Capture>, r: Result,
      after: seq<Capture>)
    requires p <= |pat| && s <= |src| && CapsOk(src, caps) && Answers(Tries(src, pat, d, p, s, caps), r, caps, after)
    ensures r.Found? ==> Preferred(src, pat, p, s, caps, r.e, after)
    ensures r.Fail? ==> forall e, c2 :: !Admits(src, pat, p, s, caps, e, c2)
  {
    hide Tries, Preferred, Admits;
    if r.Found? { FirstPreferred(src, pat, d, p, s, caps, r.e, after); }
    if r.Fail? {
      forall e, c2 ensures !Admits(src, pat, p, s, caps, e, c2) { Meaning(src, pat, d, p, s, caps, e, c2); }
    }
  }

  class MatchState {
    const src: string
    const pat: string
    var matchdepth: nat
    var level: nat
    const capture: array<Capture>

    ghost predicate Valid()
      reads this`level, capture
    {
      level <= capture.Length == MAXCAPTURES && CapsOk(src, capture[..level])
    }

    /** The captures, finished or not. */
    ghost function Caps(): seq<Capture>
      requires Valid()
      reads this`level, capture
    {
      capture[..level]
    }

    constructor (s: string, p: string, depth: nat)
      ensures Valid() && Caps() == [] && src == s && pat == p && matchdepth == depth && fresh(capture)
    {
      src, pat, matchdepth, level := s, p, depth, 0;
      capture := new Capture[MAXCAPTURES](i => Capture(0, 0));
    }

    /** classend */
    method Classend(p0: nat) returns (r: End)
      requires p0 < |pat|
      ensures r == ClassEnd(pat, p0)
    {
      var p := p0 + 1;
      if pat[p0] == ESC {
        if p == |pat| { return Malformed; }
        return EndAt(p + 1);
      }
      if pat[p0] == '[' {
        if Char(pat, p) == '^' { p := p + 1; }
        ghost var target := ClassEnd(pat, p0);
        while true
          invariant BracketEnd(pat, p) == target
          decreases |pat| - p
        {
          if p >= |pat| { return Malformed; }
          p := p + 1;
          if pat[p - 1] == ESC && p < |pat| { p := p + 1; }
          if Char(pat, p) == ']' { break; }
        }
        return EndAt(p + 1);
      }
      return EndAt(p);
    }

    /** matchbracketclass */
    method MatchBracketClass(c: char, p0: nat, ec: nat) returns (b: bool)
      ensures b == MatchBracket(pat, c, p0, ec)
    {
      var sig, p := true, p0;
      if Char(pat, p + 1) == '^' {
        sig := false;
        p := p + 1;
      }
      p := p + 1;
      while p < ec
        invariant MatchBracket(pat, c, p0, ec) == (if sig then InSet(pat, c, p, ec) else !InSet(pat, c, p, ec))
        decreases ec - p
      {
        if Char(pat, p) == ESC {
          p := p + 1;
          if MatchClass(c, Char(pat, p)) { return sig; }
        } else if Char(pat, p + 1) == '-' && p + 2 < ec {
          p := p + 2;
          if Char(pat, p - 2) <= c <= Char(pat, p) { return sig; }
        } else if Char(pat, p) == c {
          return sig;
        }
        p := p + 1;
      }
      return !sig;
    }

    /** singlematch */
    method SingleMatch(s: nat, p: nat, ep: nat) returns (b: bool)
      requires p < |pat| && ep > 0
      ensures b == Single(src, pat, s, p, ep)
    {
      if s >= |src| { return false; }
      var c := src[s];
      if pat[p] == '.' { return true; }
      if pat[p] == ESC { return MatchClass(c, Char(pat, p + 1)); }
      if pat[p] == '[' {
        b := MatchBracketClass(c, p, ep - 1);
        return;
      }
      return pat[p] == c;
    }

    /** matchbalance, without its errors. */
    method MatchBalance(s0: nat, p: nat) returns (r: End)
      requires p + 1 < |pat| && s0 <= |src|
      ensures r == if Char(src, s0) != pat[p] then Malformed else Balanced(src, s0 + 1, pat[p], pat[p + 1], 1)
    {
      if Char(src, s0) != pat[p] { return Malformed; }
      var b, e, cont, s := pat[p], pat[p + 1], 1, s0 + 1;
      while s < |src|
        invariant cont > 0 && Balanced(src, s0 + 1, b, e, 1) == Balanced(src, s, b, e, cont)
      {
        if src[s] == e {
          cont := cont - 1;
          if cont == 0 { return EndAt(s + 1); }
        } else if src[s] == b {
          cont := cont + 1;
        }
        s := s + 1;
      }
      return Malformed;
    }

    /** capture_to_close */
    method CaptureToClose() returns (l: int)
      requires Valid()
      ensures l == ToClose(Caps())
    {
      l := level - 1;
      while l >= 0
        invariant -1 <= l < level && ToClose(Caps()) == ToClose(capture[..l + 1])
      {
        if capture[l].len == UNFINISHED { return; }
        assert capture[..l + 1][..l] == capture[..l];
        l := l - 1;
      }
    }

    /** match: the rest of the pattern from p0 on, at place s0. */
    method DoMatch(s0: nat, p0: nat) returns (r: Result)
      requires Valid() && s0 <= |src| && p0 <= |pat|
      modifies this`matchdepth, this`level, capture
      ensures Valid() && Answers(Tries(src, pat, old(matchdepth), p0, s0, old(Caps())), r, old(Caps()), Caps())
      ensures r.Found? ==> Preferred(src, pat, p0, s0, old(Caps()), r.e, Caps())
      ensures r.Fail? ==> forall e, c2 :: !Admits(src, pat, p0, s0, old(Caps()), e, c2)
      ensures !r.Raised? ==> matchdepth == old(matchdepth)
      decreases |pat| - p0, 3, 0
    {
      if matchdepth == 0 { return Raised; }  // pattern too complex
      matchdepth := matchdepth - 1;
      ghost var d, caps := matchdepth, Caps();
      ghost var target := Body(src, pat, d, p0, s0, caps);
      var s: nat, p: nat := s0, p0;
      while true
        invariant Valid() && p0 <= p <= |pat| && s <= |src| && Body(src, pat, d, p, s, caps) == target && Caps() == caps
            && matchdepth == d
        decreases |pat| - p
      {
        if p == |pat| {
          r := Found(s);
          break;
        }
        var next: Next;
        next := Step(s, p);
        match next {
          case Go(s1, p1) => s, p := s1, p1;
          case Finished(r1) =>
            r := r1;
            break;
        }
      }
      matchdepth := matchdepth + 1;
      OutcomeMeans(src, pat, d + 1, p0, s0, caps, r, Caps());
    }

    /** One round of match: the item at p, at place s. */
    method Step(s: nat, p: nat) returns (next: Next)
      requires Valid() && s <= |src| && p < |pat|
      modifies this`matchdepth, this`level, capture
      ensures Valid() && Continues(src, pat, old(matchdepth), p, s, old(Caps()), next, Caps())
      ensures next != Finished(Raised) ==> matchdepth == old(matchdepth)
      decreases |pat| - p, 2, 0
    {
      hide Most, Least, Run, Single, MatchClass, ClassEnd, BracketEnd, Balanced, InSet, MatchBracket, BackRef;
      if pat[p] == '(' {
        OpenIs(src, pat, matchdepth, p, s, Caps());
        var r;
        if Char(pat, p + 1) == ')' {
          r := StartCapture(s, p + 2, POSITION);
        } else {
          r := StartCapture(s, p + 1, UNFINISHED);
        }
        return Finished(r);
      }
      if pat[p] == ')' {
        CloseIs(src, pat, matchdepth, p, s, Caps());
        var r := EndCapture(s, p + 1);
        return Finished(r);
      }
      if pat[p] == '$' && p + 1 == |pat| {
        return Finished(if s == |src| then Found(s) else Fail);
      }
      if pat[p] == ESC && Char(pat, p + 1) == 'b' {
        if p + 3 >= |pat| { return Finished(Raised); }
        var e := MatchBalance(s, p + 2);
        return if e.EndAt? then Go(e.i, p + 4) else Finished(Fail);
      }
      if pat[p] == ESC && Char(pat, p + 1) == 'f' {
        if Char(pat, p + 2) != '[' { return Finished(Raised); }
        var e := Classend(p + 2);
        if e.Malformed? { return Finished(Raised); }
        var previous := if s == 0 then '\0' else src[s - 1];
        var before := MatchBracketClass(previous, p + 2, e.i - 1);
        var after := MatchBracketClass(Char(src, s), p + 2, e.i - 1);
        return if !before && after then Go(s, e.i) else Finished(Fail);
      }
      if pat[p] == ESC && IsDigit(Char(pat, p + 1)) {
        next := MatchCapture(s, p);
        return;
      }
      var e := Classend(p);
      if e.Malformed? { return Finished(Raised); }
      next := StepItem(s, p, e.i);
    }

    /** A pattern class plus optional suffix. */
    method StepItem(s: nat, p: nat, ep: nat) returns (next: Next)
      requires Valid() && s <= |src| && p < ep <= |pat|
      modifies this`matchdepth, this`level, capture
      ensures Valid() && ContinuesWith(src, pat, old(matchdepth), p, Item(src, pat, old(matchdepth), p, ep, s,
          old(Caps())), old(Caps()), next, Caps())
      ensures next != Finished(Raised) ==> matchdepth == old(matchdepth)
      decreases |pat| - p, 1, 0
    {
      var c := Char(pat, ep);
      var once := SingleMatch(s, p, ep);
      if !once {
        if c == '*' || c == '?' || c == '-' { return Go(s, ep + 1); }
        return Finished(Fail);
      }
      if c == '?' {
        var r := DoMatch(s + 1, ep + 1);
        return if r == Fail then Go(s, ep + 1) else Finished(r);
      }
      if c == '+' {  // one repetition is consumed here
        var r := MaxExpand(s + 1, p, ep);
        return Finished(r);
      }
      if c == '*' {
        var r := MaxExpand(s, p, ep);
        return Finished(r);
      }
      if c == '-' {
        var r := MinExpand(s, p, ep);
        return Finished(r);
      }
      return Go(s + 1, ep);
    }

    /** max_expand */
    method MaxExpand(s: nat, p: nat, ep: nat) returns (r: Result)
      requires Valid() && s <= |src| && p < ep < |pat|
      modifies this`matchdepth, this`level, capture
      ensures Valid() && Answers(Most(src, pat, old(matchdepth), ep, s, Run(src, pat, s, p, ep), old(Caps())), r,
          old(Caps()), Caps())
      ensures !r.Raised? ==> matchdepth == old(matchdepth)
      decreases |pat| - ep - 1, 4, 0
    {
      hide Body, Open, Close, Balance, Frontier, Again, Item, Least, Single;
      ghost var d, caps := matchdepth, Caps();
      var n: nat := 0;
      var more := SingleMatch(s, p, ep);
      while more
        invariant s + n <= |src| && more == Single(src, pat, s + n, p, ep) && n + Run(src, pat, s + n, p, ep)
            == Run(src, pat, s, p, ep)
        invariant Valid() && Caps() == caps && matchdepth == d
        decreases |src| - s - n
      {
        n := n + 1;
        more := SingleMatch(s + n, p, ep);
      }
      ghost var target := Most(src, pat, d, ep, s, n, caps);
      // every longer repetition has failed
      var i: int := n;
      while i >= 0
        invariant Valid() && Caps() == caps && matchdepth == d && -1 <= i <= n
        invariant target == if i < 0 then [] else Most(src, pat, d, ep, s, i, caps)
      {
        r := DoMatch(s + i, ep + 1);
        if r != Fail { return; }
        i := i - 1;
      }
      return Fail;
    }

    /** min_expand */
    method MinExpand(s0: nat, p: nat, ep: nat) returns (r: Result)
      requires Valid() && s0 <= |src| && p < ep < |pat|
      modifies this`matchdepth, this`level, capture
      ensures Valid() && Answers(Least(src, pat, old(matchdepth), p, ep, s0, old(Caps())), r, old(Caps()), Caps())
      ensures !r.Raised? ==> matchdepth == old(matchdepth)
      decreases |pat| - ep - 1, 4, 0
    {
      hide Body, Open, Close, Balance, Frontier, Again, Item, Most;
      ghost var d, caps := matchdepth, Caps();
      ghost var target := Least(src, pat, d, p, ep, s0, caps);
      var s := s0;
      while true
        invariant s <= |src| && Valid() && Caps() == caps && matchdepth == d && Least(src, pat, d, p, ep, s, caps)
            == target
        decreases |src| - s
      {
        r := DoMatch(s, ep + 1);
        if r != Fail { return; }
        var once := SingleMatch(s, p, ep);
        if !once { return Fail; }
        s := s + 1;
      }
    }

    /** start_capture */
    method StartCapture(s: nat, p: nat, what: int) returns (r: Result)
      requires Valid() && s <= |src| && p <= |pat| && what < 0
      modifies this`matchdepth, this`level, capture
      ensures Valid()
      ensures Answers(if |old(Caps())| >= MAXCAPTURES then [Error]
          else Tries(src, pat, old(matchdepth), p, s, old(Caps()) + [Capture(s, what)]), r, old(Caps()), Caps())
      ensures !r.Raised? ==> matchdepth == old(matchdepth)
      decreases |pat| - p, 4, 0
    {
      ghost var caps := Caps();
      if level >= MAXCAPTURES { return Raised; }  // too many captures
      capture[level] := Capture(s, what);
      level := level + 1;
      assert capture[..level] == caps + [Capture(s, what)];
      r := DoMatch(s, p);
      if r == Fail {  // the open capture is given up
        assert capture[..level][..level - 1] == capture[..level - 1];
        level := level - 1;
      }
    }

    /** end_capture */
    method EndCapture(s: nat, p: nat) returns (r: Result)
      requires Valid() && s <= |src| && p <= |pat|
      modifies this`matchdepth, this`level, capture
      ensures Valid()
      ensures var caps := old(Caps()); var l := ToClose(caps);
        Answers(if l < 0 then [Error]
            else Tries(src, pat, old(matchdepth), p, s, caps[l := Capture(caps[l].init, s - caps[l].init)]), r, caps,
            Caps())
      ensures !r.Raised? ==> matchdepth == old(matchdepth)
      decreases |pat| - p, 4, 0
    {
      ghost var caps := Caps();
      var l := CaptureToClose();
      if l < 0 { return Raised; }  // invalid pattern capture
      capture[l] := Capture(capture[l].init, s - capture[l].init);
      assert capture[..level] == caps[l := Capture(caps[l].init, s - caps[l].init)];
      r := DoMatch(s, p);
      if r == Fail {
        capture[l] := Capture(capture[l].init, UNFINISHED);
        assert capture[..level] == caps;
      }
    }

    /** match_capture, with check_capture */
    method MatchCapture(s: nat, p: nat) returns (next: Next)
      requires Valid() && s <= |src| && p + 1 < |pat| && pat[p] == ESC && IsDigit(pat[p + 1])
      ensures ContinuesWith(src, pat, matchdepth, p, Again(src, pat, matchdepth, p, s, Caps()), Caps(), next, Caps())
    {
      var l := pat[p + 1] as int - '1' as int;
      if l < 0 || l >= level || capture[l].len == UNFINISHED { return Finished(Raised); }  // invalid capture index
      var len := capture[l].len;
      if len < 0 { return Finished(Fail); }  // a position capture has no text
      if |src| - s >= len && src[capture[l].init..capture[l].init + len] == src[s..s + len] {
        return Go(s + len, p + 2);
      }
      return Finished(Fail);
    }
  }

  /** What one round of match does: it goes on from another place, or it is finished. */
  datatype Next = Go(s: nat, p: nat) | Finished(r: Result)

  lemma OpenIs(src: string, pat: string, d: nat, p: nat, s: nat, caps: seq<Capture>)
    requires p < |pat| && pat[p] == '(' && s <= |src| && CapsOk(src, caps)
    ensures Body(src, pat, d, p, s, caps) ==
      if |caps| >= MAXCAPTURES then [Error]
      else if Char(pat, p + 1) == ')' then Tries(src, pat, d, p + 2, s, caps + [Capture(s, POSITION)])
          else Tries(src, pat, d, p + 1, s, caps + [Capture(s, UNFINISHED)])
  {
  }

  lemma CloseIs(src: string, pat: string, d: nat, p: nat, s: nat, caps: seq<Capture>)
    requires p < |pat| && pat[p] == ')' && s <= |src| && CapsOk(src, caps)
    ensures var l := ToClose(caps); Body(src, pat, d, p, s, caps) == if l < 0 then [Error]
        else Tries(src, pat, d, p + 1, s, caps[l := Capture(caps[l].init, s - caps[l].init)])
  {
  }

  /**
   * A round keeps the outcomes o: either they are those of the rest of the pattern, or its result is the first of them.
   */
  ghost predicate ContinuesWith(src: string, pat: string, d: nat, p: nat, o: seq<Outcome>, before: seq<Capture>,
      next: Next, after: seq<Capture>) {
    match next
    case Go(s1, p1) => p < p1 <= |pat| && s1 <= |src| && CapsOk(src, before) && after == before
        && o == Body(src, pat, d, p1, s1, before)
    case Finished(r) => Answers(o, r, before, after)
  }

  ghost predicate Continues(src: string, pat: string, d: nat, p: nat, s: nat, before: seq<Capture>, next: Next,
      after: seq<Capture>) {
    p < |pat| && s <= |src| && CapsOk(src, before) && ContinuesWith(src, pat, d, p, Body(src, pat, d, p, s, before),
        before, next, after)
  }

  // ---- str_find_aux

  const MAXCCALLS: nat := 200

  datatype Find = At(start: nat, end: nat, caps: seq<Capture>) | NotFound | Failed

  /** The outcomes of a whole pattern at one place. */
  ghost function All(src: string, pat: string, s: nat): seq<Outcome>
    requires s <= |src|
  {
    Tries(src, pat, MAXCCALLS, 0, s, [])
  }

  predicate Anchored(pattern: string) { pattern != [] && pattern[0] == '^' }

  function Unanchored(pattern: string): string { if Anchored(pattern) then pattern[1..] else pattern }

  /** The search with a pattern: the first place where there is an outcome, and the best outcome there. */
  method StrFind(src: string, pattern: string, init: nat) returns (r: Find)
    requires init <= |src|
    ensures var anchor, pat := Anchored(pattern), Unanchored(pattern);
      match r
      case At(start, end, caps) =>
        && init <= start <= |src| && (anchor ==> start == init)
        && All(src, pat, start) != [] && All(src, pat, start)[0] == Match(end, caps)
        && forall t: nat :: init <= t < start ==> All(src, pat, t) == []
      case NotFound => forall t: nat :: init <= t <= |src| && (anchor ==> t == init) ==> All(src, pat, t) == []
      case Failed => exists t: nat :: init <= t <= |src| && All(src, pat, t) != [] && All(src, pat, t)[0] == Error
  {
    var anchor := Anchored(pattern);
    var pat := Unanchored(pattern);
    var ms := new MatchState(src, pat, MAXCCALLS);
    var s1 := init;
    while true
      invariant init <= s1 <= |src| && ms.Valid() && ms.matchdepth == MAXCCALLS && ms.src == src && ms.pat == pat
          && fresh(ms) && fresh(ms.capture) && (anchor ==> s1 == init)
      invariant forall t: nat :: init <= t < s1 ==> All(src, pat, t) == []
      decreases |src| - s1
    {
      ms.level := 0;
      assert ms.Caps() == [];
      var res := ms.DoMatch(s1, 0);
      match res {
        case Found(e) => return At(s1, e, ms.capture[..ms.level]);
        case Raised =>
          assert All(src, pat, s1)[0] == Error;
          return Failed;
        case Fail => assert All(src, pat, s1) == [];
      }
      if !(s1 < |src|) || anchor {
        assert forall t: nat :: init <= t <= |src| && (anchor ==> t == init) ==> All(src, pat, t) == [];
        return NotFound;
      }
      s1 := s1 + 1;
    }
  }

  /**
   * The search finds exactly the first place where the pattern admits a match, and the preferred match there; it does
   * not fail for well-formed patterns whose nesting stays below the recursion limit.
   */
  method StrFindExact(src: string, pattern: string, init: nat) returns (r: Find)
    requires init <= |src|
    ensures WellFormed(Unanchored(pattern), 0, 0, 0) && Nesting(Unanchored(pattern), 0) < MAXCCALLS ==> !r.Failed?
    ensures r.At? ==>
        init <= r.start <= |src| && (Anchored(pattern) ==> r.start == init)
        && Admits(src, Unanchored(pattern), 0, r.start, [], r.end, r.caps)
        && Preferred(src, Unanchored(pattern), 0, r.start, [], r.end, r.caps)
    ensures r.At? ==> forall t: nat, e, c2 :: init <= t < r.start ==> !Admits(src, Unanchored(pattern), 0, t, [], e, c2)
    ensures r.NotFound? ==> forall t: nat, e, c2 ::
        init <= t <= |src| && (Anchored(pattern) ==> t == init) ==> !Admits(src, Unanchored(pattern), 0, t, [], e, c2)
  {
    var pat := Unanchored(pattern);
    r := StrFind(src, pattern, init);
    if WellFormed(pat, 0, 0, 0) && Nesting(pat, 0) < MAXCCALLS {
      forall t: nat | t <= |src| ensures Error !in All(src, pat, t) { NoError(src, pat, MAXCCALLS, 0, t, []); }
    }
    if r.At? {
      FirstPreferred(src, pat, MAXCCALLS, 0, r.start, [], r.end, r.caps);
      PreferredAdmits(src, pat, 0, r.start, [], r.end, r.caps);
    }
    forall t: nat, e, c2 | init <= t <= |src| && All(src, pat, t) == [] ensures !Admits(src, pat, 0, t, [], e, c2) {
      Meaning(src, pat, MAXCCALLS, 0, t, [], e, c2);
    }
  }

  // ---- lmemfind

  ghost predicate OccursAt(s: string, t: string, i: nat) { i + |t| <= |s| && s[i..i + |t|] == t }

  lemma FirstChar(s: string, t: string, i: nat)
    requires t != []
    ensures OccursAt(s, t, i) ==> i < |s| && s[i] == t[0]
  {
    if OccursAt(s, t, i) { assert s[i] == s[i..i + |t|][0]; }
  }

  /** lmemfind: the first place of s2 in s1, or -1. */
  method Lmemfind(s1: string, s2: string) returns (r: int)
    ensures r < 0 <==> forall i: nat :: !OccursAt(s1, s2, i)
    ensures r >= 0 ==> OccursAt(s1, s2, r) && forall i: nat :: i < r ==> !OccursAt(s1, s2, i)
  {
    if |s2| == 0 {
      assert OccursAt(s1, s2, 0);
      return 0;
    }
    if |s2| > |s1| { return -1; }
    var last := |s1| - |s2|;
    var i: nat := 0;
    while i <= last
      invariant i <= last + 1 && forall k: nat :: k < i ==> !OccursAt(s1, s2, k)
    {
      // memchr: the next place of the first character
      while i <= last && s1[i] != s2[0]
        invariant i <= last + 1 && forall k: nat :: k < i ==> !OccursAt(s1, s2, k)
      {
        FirstChar(s1, s2, i);
        i := i + 1;
      }
      if i > last { return -1; }
      assert s1[i..i + |s2|] == [s1[i]] + s1[i + 1..i + |s2|] && s2 == [s2[0]] + s2[1..];
      if s1[i + 1..i + |s2|] == s2[1..] {
        assert OccursAt(s1, s2, i);
        return i;
      }
      assert s1[i..i + |s2|][1..] == s1[i + 1..i + |s2|];
      i := i + 1;
    }
    return -1;
  }

  // ---- The whole of str_find_aux

  const SPECIALS: string := "^$*+?.([%-"

  predicate NoSpecials(p: string) { forall i :: 0 <= i < |p| ==> p[i] !in SPECIALS }

  /** nospecials, from one zero in the pattern to the next. */
  method Nospecials(p: string) returns (b: bool)
    ensures b <==> NoSpecials(p)
  {
    var upto := 0;
    while upto <= |p|
      invariant upto <= |p| + 1 && forall i :: 0 <= i < upto && i < |p| ==> p[i] !in SPECIALS
    {
      while upto < |p| && p[upto] != '\0'
        invariant upto <= |p| && forall i :: 0 <= i < upto ==> p[i] !in SPECIALS
      {
        if p[upto] in SPECIALS { return false; }
        upto := upto + 1;
      }
      upto := upto + 1;
    }
    return true;
  }

  /**
   * A pattern without special characters means the text itself, unless it closes a capture, which none of them opens.
   */
  lemma {:induction false} PlainMeaning(src: string, pat: string, p: nat, s: nat, e: nat, c2: seq<Capture>)
    requires NoSpecials(pat) && p <= |pat| && s <= |src|
    ensures Admits(src, pat, p, s, [], e, c2) <==>
      ')' !in pat[p..] && OccursAt(src, pat[p..], s) && e == s + |pat| - p && c2 == []
    decreases |pat| - p
  {
    if p < |pat| {
      var c := pat[p];
      assert c in pat[p..] && pat[p] !in SPECIALS && pat[p..] == [c] + pat[p + 1..];
      if c != ')' {
        assert ClassEnd(pat, p) == EndAt(p + 1) && Char(pat, p + 1) !in "?*+-" by {
          assert p + 1 < |pat| ==> pat[p + 1] !in SPECIALS;
        }
        assert Run(src, pat, s, p, p + 1) > 0 <==> s < |src| && src[s] == c;
        FirstChar(src, pat[p..], s);
        if s < |src| && src[s] == c {
          PlainMeaning(src, pat, p + 1, s + 1, e, c2);
          OccursNext(src, pat[p..], s);
        }
      }
    }
  }

  /** The text ')' has no special character and occurs, but as a pattern it closes a capture that is not open. */
  lemma PlainFails()
    ensures NoSpecials(")") && OccursAt(")", ")", 0) && All(")", ")", 0) == [Error]
  {
  }

  lemma OccursNext(s: string, t: string, i: nat)
    requires t != [] && i < |s| && s[i] == t[0]
    ensures OccursAt(s, t, i) <==> OccursAt(s, t[1..], i + 1)
  {
    if i + |t| <= |s| {
      assert s[i..i + |t|] == [s[i]] + s[i + 1..i + 1 + |t[1..]|] && t == [t[0]] + t[1..];
      assert s[i..i + |t|][1..] == s[i + 1..i + 1 + |t[1..]|];
    }
  }

  /** posrelat, and the first place for a search; one behind the end if there is none. */
  function Init(pos: int, len: nat): (init: nat)
    ensures init <= len + 1
  {
    var init := if pos >= 0 then pos else if -pos > len then 0 else len + pos + 1;
    if init < 1 then 0 else if init > len + 1 then len + 1 else init - 1
  }

  /** r is the first place from init on that the pattern admits, with the preferred match. */
  ghost predicate FirstAdmitted(src: string, pattern: string, init: nat, r: Find)
    requires init <= |src|
  {
    var anchor, pat := Anchored(pattern), Unanchored(pattern);
    match r
    case At(start, end, caps) =>
      && init <= start <= |src| && (anchor ==> start == init) && Preferred(src, pat, 0, start, [], end, caps)
      && forall t: nat, e, c2 :: init <= t < start ==> !Admits(src, pat, 0, t, [], e, c2)
    case NotFound =>
      forall t: nat, e, c2 :: init <= t <= |src| && (anchor ==> t == init) ==> !Admits(src, pat, 0, t, [], e, c2)
    case Failed => true
  }

  /** r is the first place from init on where the text occurs. */
  ghost predicate FirstOccurrence(src: string, text: string, init: nat, r: Find) {
    match r
    case At(start, end, caps) =>
      && init <= start && OccursAt(src, text, start) && end == start + |text| && caps == []
      && forall t: nat :: init <= t < start ==> !OccursAt(src, text, t)
    case NotFound => forall t: nat :: init <= t ==> !OccursAt(src, text, t)
    case Failed => false
  }

  /**
   * str_find_aux.  A plain search finds the first occurrence of the text.  Otherwise the result is the first place that
   * the pattern admits, also where the shortcut for patterns without special characters is taken, unless the pattern
   * has a ')', which is then looked for as it is.
   */
  method StrFindAux(src: string, pattern: string, pos: int, find: bool, plain: bool) returns (r: Find)
    ensures Init(pos, |src|) > |src| ==> r == NotFound
    ensures Init(pos, |src|) <= |src| && find && (plain || NoSpecials(pattern)) ==>
      FirstOccurrence(src, pattern, Init(pos, |src|), r)
    ensures Init(pos, |src|) <= |src| && !(find && plain) && !(find && NoSpecials(pattern) && ')' in pattern) ==>
      FirstAdmitted(src, pattern, Init(pos, |src|), r)
    ensures !(find && plain) && WellFormed(Unanchored(pattern), 0, 0, 0) && Nesting(Unanchored(pattern), 0) < MAXCCALLS
      ==> !r.Failed?
  {
    var init := Init(pos, |src|);
    if init > |src| { return NotFound; }
    var none := Nospecials(pattern);
    if find && (plain || none) {
      var q := Lmemfind(src[init..], pattern);
      FromInit(src, pattern, init, q);
      r := if q < 0 then NotFound else At(init + q, init + q + |pattern|, []);
      if none && ')' !in pattern { PlainSearch(src, pattern, init, r); }
    } else {
      r := StrFindExact(src, pattern, init);
    }
  }

  /** An occurrence in the rest of the subject. */
  lemma FromInit(src: string, text: string, init: nat, q: int)
    requires init <= |src|
    requires q < 0 <==> forall i: nat :: !OccursAt(src[init..], text, i)
    requires q >= 0 ==> OccursAt(src[init..], text, q) && forall i: nat :: i < q ==> !OccursAt(src[init..], text, i)
    ensures FirstOccurrence(src, text, init, if q < 0 then NotFound else At(init + q, init + q + |text|, []))
  {
    forall t: nat | init <= t ensures OccursAt(src, text, t) <==> OccursAt(src[init..], text, t - init) {
      if t + |text| <= |src| { assert src[init..][t - init..t - init + |text|] == src[t..t + |text|]; }
    }
  }

  lemma PlainSearch(src: string, pattern: string, init: nat, r: Find)
    requires init <= |src| && NoSpecials(pattern) && ')' !in pattern && FirstOccurrence(src, pattern, init, r)
    ensures FirstAdmitted(src, pattern, init, r)
  {
    assert !Anchored(pattern) by { if pattern != [] { assert pattern[0] !in SPECIALS; } }
    forall t: nat, e, c2 | t <= |src|
      ensures Admits(src, pattern, 0, t, [], e, c2) <==> OccursAt(src, pattern, t) && e == t + |pattern| && c2 == []
    {
      PlainMeaning(src, pattern, 0, t, e, c2);
      assert pattern[0..] == pattern;
    }
    if r.At? {
      assert pattern[0..] == pattern;
      PlainPreferred(src, pattern, 0, r.start);
    }
  }

  /** A plain pattern leaves no choice. */
  lemma {:induction false} PlainPreferred(src: string, pat: string, p: nat, s: nat)
    requires NoSpecials(pat) && ')' !in pat && p <= |pat| && s <= |src| && OccursAt(src, pat[p..], s)
    ensures Preferred(src, pat, p, s, [], s + |pat| - p, [])
    decreases |pat| - p
  {
    if p < |pat| {
      var c := pat[p];
      assert pat[p] !in SPECIALS && pat[p..] == [c] + pat[p + 1..];
      assert ClassEnd(pat, p) == EndAt(p + 1) && Char(pat, p + 1) !in "?*+-" by {
        assert p + 1 < |pat| ==> pat[p + 1] !in SPECIALS;
      }
      FirstChar(src, pat[p..], s);
      assert Run(src, pat, s, p, p + 1) > 0;
      OccursNext(src, pat[p..], s);
      PlainPreferred(src, pat, p + 1, s + 1);
    }
  }
}
