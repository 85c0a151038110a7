/**
 * Which of the matches that a pattern admits is found (lstrlib.c:346-371, 480-504): the choices that ?, *, + and -
 * make, in terms of what the rest of the pattern admits.
 */
module PatternOrder {
  import opened PatternSpec
  import opened PatternMeaning

  /** The pattern after a suffix at ep admits nothing from t on. */
  ghost predicate Hopeless(src: string, pat: string, ep: nat, t: nat, caps: seq<Capture>)
    requires ep < |pat| && t <= |src| && CapsOk(src, caps)
  {
    forall e, c2 :: !Later(src, pat, ep, t, caps, e, c2)
  }

  /** The match from s to e with the captures c2 is the preferred one: each suffix before it makes its best choice. */
  ghost predicate Preferred(src: string, pat: string, p: nat, s: nat, caps: seq<Capture>, e: nat, c2: seq<Capture>)
    requires p <= |pat| && s <= |src| && CapsOk(src, caps)
    decreases |pat| - p, 1
  {
    if p == |pat| then e == s && c2 == caps
    else if pat[p] == '(' then
      |caps| < MAXCAPTURES &&
      if Char(pat, p + 1) == ')' then Preferred(src, pat, p + 2, s, caps + [Capture(s, POSITION)], e, c2)
      else Preferred(src, pat, p + 1, s, caps + [Capture(s, UNFINISHED)], e, c2)
    else if pat[p] == ')' then
      var l := ToClose(caps);
      l >= 0 && Preferred(src, pat, p + 1, s, caps[l := Capture(caps[l].init, s - caps[l].init)], e, c2)
    else if pat[p] == '$' && p + 1 == |pat| then s == |src| && e == s && c2 == caps
    else if pat[p] == ESC && Char(pat, p + 1) == 'b' then
      p + 3 < |pat| && Char(src, s) == pat[p + 2] &&
      var b := Balanced(src, s + 1, pat[p + 2], pat[p + 3], 1);
      b.EndAt? && Preferred(src, pat, p + 4, b.i, caps, e, c2)
    else if pat[p] == ESC && Char(pat, p + 1) == 'f' then
      Char(pat, p + 2) == '[' &&
      var f := ClassEnd(pat, p + 2);
      f.EndAt? && !MatchBracket(pat, if s == 0 then '\0' else src[s - 1], p + 2, f.i - 1) &&
      MatchBracket(pat, Char(src, s), p + 2, f.i - 1) && Preferred(src, pat, f.i, s, caps, e, c2)
    else if pat[p] == ESC && IsDigit(Char(pat, p + 1)) then
      var b := BackRef(src, caps, pat[p + 1]);
      b.Text? && b.t <= src[s..] && Preferred(src, pat, p + 2, s + |b.t|, caps, e, c2)
    else ClassEnd(pat, p).EndAt? && PreferredItem(src, pat, p, ClassEnd(pat, p).i, s, caps, e, c2)
  }

  /**
   * Of the places where the rest of the pattern admits something, - takes the first and * and + take the last; ?
   * takes the character if the rest then admits something.
   */
  ghost predicate PreferredItem(src: string, pat: string, p: nat, ep: nat, s: nat, caps: seq<Capture>, e: nat,
      c2: seq<Capture>)
    requires p < ep <= |pat| && s <= |src| && CapsOk(src, caps)
    decreases |pat| - p, 0
  {
    var c, n := Char(pat, ep), Run(src, pat, s, p, ep);
    if c == '?' then
      if n > 0 && !Hopeless(src, pat, ep, s + 1, caps) then Onward(src, pat, ep, s + 1, caps, e, c2)
      else Onward(src, pat, ep, s, caps, e, c2)
    else if c == '*' then
      exists t: nat :: s <= t <= s + n && Onward(src, pat, ep, t, caps, e, c2)
        && forall u: nat :: t < u <= s + n ==> Hopeless(src, pat, ep, u, caps)
    else if c == '+' then
      exists t: nat :: s + 1 <= t <= s + n && Onward(src, pat, ep, t, caps, e, c2)
        && forall u: nat :: t < u <= s + n ==> Hopeless(src, pat, ep, u, caps)
    else if c == '-' then
      exists t: nat :: s <= t <= s + n && Onward(src, pat, ep, t, caps, e, c2)
        && forall u: nat :: s <= u < t ==> Hopeless(src, pat, ep, u, caps)
    else n > 0 && Preferred(src, pat, ep, s + 1, caps, e, c2)
  }

  /** The preferred match of the pattern after a suffix at ep. */
  ghost predicate Onward(src: string, pat: string, ep: nat, t: nat, caps: seq<Capture>, e: nat, c2: seq<Capture>)
    requires ep < |pat| && t <= |src| && CapsOk(src, caps)
    decreases |pat| - ep - 1, 2
  {
    Preferred(src, pat, ep + 1, t, caps, e, c2)
  }

  // ---- There is one preferred match at most, and it is admitted

  lemma {:induction false} PreferredAdmits(src: string, pat: string, p: nat, s: nat, caps: seq<Capture>, e: nat,
      c2: seq<Capture>)
    requires p <= |pat| && s <= |src| && CapsOk(src, caps) && Preferred(src, pat, p, s, caps, e, c2)
    ensures Admits(src, pat, p, s, caps, e, c2)
    decreases |pat| - p, 1
  {
    if p == |pat| {
    } else if pat[p] == '(' {
      if Char(pat, p + 1) == ')' { PreferredAdmits(src, pat, p + 2, s, caps + [Capture(s, POSITION)], e, c2); }
      else { PreferredAdmits(src, pat, p + 1, s, caps + [Capture(s, UNFINISHED)], e, c2); }
    } else if pat[p] == ')' {
      var l := ToClose(caps);
      PreferredAdmits(src, pat, p + 1, s, caps[l := Capture(caps[l].init, s - caps[l].init)], e, c2);
    } else if pat[p] == '$' && p + 1 == |pat| {
    } else if pat[p] == ESC && Char(pat, p + 1) == 'b' {
      PreferredAdmits(src, pat, p + 4, Balanced(src, s + 1, pat[p + 2], pat[p + 3], 1).i, caps, e, c2);
    } else if pat[p] == ESC && Char(pat, p + 1) == 'f' {
      PreferredAdmits(src, pat, ClassEnd(pat, p + 2).i, s, caps, e, c2);
    } else if pat[p] == ESC && IsDigit(Char(pat, p + 1)) {
      PreferredAdmits(src, pat, p + 2, s + |BackRef(src, caps, pat[p + 1]).t|, caps, e, c2);
    } else {
      ItemAdmits(src, pat, p, ClassEnd(pat, p).i, s, caps, e, c2);
    }
  }

  lemma {:induction false} ItemAdmits(src: string, pat: string, p: nat, ep: nat, s: nat, caps: seq<Capture>, e: nat,
      c2: seq<Capture>)
    requires p < ep <= |pat| && s <= |src| && CapsOk(src, caps) && PreferredItem(src, pat, p, ep, s, caps, e, c2)
    ensures AdmitsItem(src, pat, p, ep, s, caps, e, c2)
    decreases |pat| - p, 0
  {
    hide Admits, Preferred, Single, Later, Onward, Hopeless;
    var c, n := Char(pat, ep), Run(src, pat, s, p, ep);
    if c in "?*+-" {
      forall t: nat | s <= t <= s + n && Onward(src, pat, ep, t, caps, e, c2)
        ensures Later(src, pat, ep, t, caps, e, c2)
      {
        OnwardAdmits(src, pat, ep, t, caps, e, c2);
      }
    } else {
      PreferredAdmits(src, pat, ep, s + 1, caps, e, c2);
    }
  }

  lemma {:induction false} OnwardAdmits(src: string, pat: string, ep: nat, t: nat, caps: seq<Capture>, e: nat,
      c2: seq<Capture>)
    requires ep < |pat| && t <= |src| && CapsOk(src, caps) && Onward(src, pat, ep, t, caps, e, c2)
    ensures Later(src, pat, ep, t, caps, e, c2)
    decreases |pat| - ep - 1, 2
  {
    PreferredAdmits(src, pat, ep + 1, t, caps, e, c2);
  }

  lemma {:induction false} OnePreferred(src: string, pat: string, p: nat, s: nat, caps: seq<Capture>, e: nat,
      c2: seq<Capture>, f: nat, c3: seq<Capture>)
    requires p <= |pat| && s <= |src| && CapsOk(src, caps)
    requires Preferred(src, pat, p, s, caps, e, c2) && Preferred(src, pat, p, s, caps, f, c3)
    ensures e == f && c2 == c3
    decreases |pat| - p, 1
  {
    hide PreferredItem, MatchBracket, Balanced, ClassEnd;
    if p == |pat| {
    } else if pat[p] == '(' {
      if Char(pat, p + 1) == ')' { OnePreferred(src, pat, p + 2, s, caps + [Capture(s, POSITION)], e, c2, f, c3); }
      else { OnePreferred(src, pat, p + 1, s, caps + [Capture(s, UNFINISHED)], e, c2, f, c3); }
    } else if pat[p] == ')' {
      var l := ToClose(caps);
      OnePreferred(src, pat, p + 1, s, caps[l := Capture(caps[l].init, s - caps[l].init)], e, c2, f, c3);
    } else if pat[p] == '$' && p + 1 == |pat| {
    } else if pat[p] == ESC && Char(pat, p + 1) == 'b' {
      OnePreferred(src, pat, p + 4, Balanced(src, s + 1, pat[p + 2], pat[p + 3], 1).i, caps, e, c2, f, c3);
    } else if pat[p] == ESC && Char(pat, p + 1) == 'f' {
      OnePreferred(src, pat, ClassEnd(pat, p + 2).i, s, caps, e, c2, f, c3);
    } else if pat[p] == ESC && IsDigit(Char(pat, p + 1)) {
      OnePreferred(src, pat, p + 2, s + |BackRef(src, caps, pat[p + 1]).t|, caps, e, c2, f, c3);
    } else {
      OneItem(src, pat, p, ClassEnd(pat, p).i, s, caps, e, c2, f, c3);
    }
  }

  lemma {:induction false} OneItem(src: string, pat: string, p: nat, ep: nat, s: nat, caps: seq<Capture>, e: nat,
      c2: seq<Capture>, f: nat, c3: seq<Capture>)
    requires p < ep <= |pat| && s <= |src| && CapsOk(src, caps)
    requires PreferredItem(src, pat, p, ep, s, caps, e, c2) && PreferredItem(src, pat, p, ep, s, caps, f, c3)
    ensures e == f && c2 == c3
    decreases |pat| - p, 0
  {
    hide Admits, Preferred, Single, Later, Onward, Hopeless;
    var c, n := Char(pat, ep), Run(src, pat, s, p, ep);
    if c in "?*+-" {
      forall t: nat | s <= t <= s + n && Onward(src, pat, ep, t, caps, e, c2) ensures !Hopeless(src, pat, ep, t, caps) {
        OnwardAdmits(src, pat, ep, t, caps, e, c2);
        NotHopeless(src, pat, ep, t, caps, e, c2);
      }
      forall t: nat | s <= t <= s + n && Onward(src, pat, ep, t, caps, f, c3) ensures !Hopeless(src, pat, ep, t, caps) {
        OnwardAdmits(src, pat, ep, t, caps, f, c3);
        NotHopeless(src, pat, ep, t, caps, f, c3);
      }
      var t: nat :| s <= t <= s + n && Onward(src, pat, ep, t, caps, e, c2) && Onward(src, pat, ep, t, caps, f, c3);
      OneOnward(src, pat, ep, t, caps, e, c2, f, c3);
    } else {
      OnePreferred(src, pat, ep, s + 1, caps, e, c2, f, c3);
    }
  }

  lemma {:induction false} OneOnward(src: string, pat: string, ep: nat, t: nat, caps: seq<Capture>, e: nat,
      c2: seq<Capture>, f: nat, c3: seq<Capture>)
    requires ep < |pat| && t <= |src| && CapsOk(src, caps)
    requires Onward(src, pat, ep, t, caps, e, c2) && Onward(src, pat, ep, t, caps, f, c3)
    ensures e == f && c2 == c3
    decreases |pat| - ep - 1, 2
  {
    OnePreferred(src, pat, ep + 1, t, caps, e, c2, f, c3);
  }

  lemma NotHopeless(src: string, pat: string, ep: nat, t: nat, caps: seq<Capture>, e: nat, c2: seq<Capture>)
    requires ep < |pat| && t <= |src| && CapsOk(src, caps) && Later(src, pat, ep, t, caps, e, c2)
    ensures !Hopeless(src, pat, ep, t, caps)
  {
    hide Later;
  }

  // ---- The first outcome is the preferred match

  /** The first outcome, if it is not an error. */
  ghost predicate Best(o: seq<Outcome>, e: nat, c2: seq<Capture>) { o != [] && o[0] == Match(e, c2) }

  /** Whatever the limit on nested calls: if the first outcome is a match, it is the preferred one. */
  lemma {:induction false} FirstPreferred(src: string, pat: string, d: nat, p: nat, s: nat, caps: seq<Capture>, e: nat,
      c2: seq<Capture>)
    requires p <= |pat| && s <= |src| && CapsOk(src, caps) && Best(Tries(src, pat, d, p, s, caps), e, c2)
    ensures Preferred(src, pat, p, s, caps, e, c2)
    decreases |pat| - p, 2
  {
    FirstBody(src, pat, d - 1, p, s, caps, e, c2);
  }

  lemma {:induction false} FirstBody(src: string, pat: string, d: nat, p: nat, s: nat, caps: seq<Capture>, e: nat,
      c2: seq<Capture>)
    requires p <= |pat| && s <= |src| && CapsOk(src, caps) && Best(Body(src, pat, d, p, s, caps), e, c2)
    ensures Preferred(src, pat, p, s, caps, e, c2)
    decreases |pat| - p, 1
  {
    if p == |pat| {
    } else if pat[p] == '(' {
      assert Body(src, pat, d, p, s, caps) == Open(src, pat, d, p, s, caps);
      if Char(pat, p + 1) == ')' { FirstPreferred(src, pat, d, p + 2, s, caps + [Capture(s, POSITION)], e, c2); }
      else { FirstPreferred(src, pat, d, p + 1, s, caps + [Capture(s, UNFINISHED)], e, c2); }
    } else if pat[p] == ')' {
      assert Body(src, pat, d, p, s, caps) == Close(src, pat, d, p, s, caps);
      var l := ToClose(caps);
      FirstPreferred(src, pat, d, p + 1, s, caps[l := Capture(caps[l].init, s - caps[l].init)], e, c2);
    } else if pat[p] == '$' && p + 1 == |pat| {
    } else if pat[p] == ESC && Char(pat, p + 1) == 'b' {
      assert Body(src, pat, d, p, s, caps) == Balance(src, pat, d, p, s, caps);
      FirstBody(src, pat, d, p + 4, Balanced(src, s + 1, pat[p + 2], pat[p + 3], 1).i, caps, e, c2);
    } else if pat[p] == ESC && Char(pat, p + 1) == 'f' {
      assert Body(src, pat, d, p, s, caps) == Frontier(src, pat, d, p, s, caps);
      FirstBody(src, pat, d, ClassEnd(pat, p + 2).i, s, caps, e, c2);
    } else if pat[p] == ESC && IsDigit(Char(pat, p + 1)) {
      assert Body(src, pat, d, p, s, caps) == Again(src, pat, d, p, s, caps);
      FirstBody(src, pat, d, p + 2, s + |BackRef(src, caps, pat[p + 1]).t|, caps, e, c2);
    } else {
      FirstItem(src, pat, d, p, ClassEnd(pat, p).i, s, caps, e, c2);
    }
  }

  /** Where the rest has no outcome it admits nothing. */
  lemma NoOutcome(src: string, pat: string, d: nat, ep: nat, t: nat, caps: seq<Capture>)
    requires ep < |pat| && t <= |src| && CapsOk(src, caps) && Rest(src, pat, d, ep, t, caps) == []
    ensures Hopeless(src, pat, ep, t, caps)
  {
    forall e, c2 ensures !Later(src, pat, ep, t, caps, e, c2) {
      MeaningLater(src, pat, d, ep, t, caps, e, c2);
    }
  }

  lemma {:induction false} FirstOnward(src: string, pat: string, d: nat, ep: nat, t: nat, caps: seq<Capture>, e: nat,
      c2: seq<Capture>)
    requires ep < |pat| && t <= |src| && CapsOk(src, caps) && Best(Rest(src, pat, d, ep, t, caps), e, c2)
    ensures Onward(src, pat, ep, t, caps, e, c2)
    decreases |pat| - ep - 1, 3
  {
    FirstPreferred(src, pat, d, ep + 1, t, caps, e, c2);
  }

  lemma {:induction false} MostFirst(src: string, pat: string, d: nat, ep: nat, s: nat, n: nat, caps: seq<Capture>,
      e: nat, c2: seq<Capture>) returns (t: nat)
    requires ep < |pat| && s + n <= |src| && CapsOk(src, caps) && Best(Most(src, pat, d, ep, s, n, caps), e, c2)
    ensures s <= t <= s + n && Best(Rest(src, pat, d, ep, t, caps), e, c2)
      && forall u: nat :: t < u <= s + n ==> Rest(src, pat, d, ep, u, caps) == []
  {
    assert Rest(src, pat, d, ep, s + n, caps) == Tries(src, pat, d, ep + 1, s + n, caps);
    hide Tries, Rest;
    if Rest(src, pat, d, ep, s + n, caps) == [] {
      t := MostFirst(src, pat, d, ep, s, n - 1, caps, e, c2);
    } else {
      t := s + n;
    }
  }

  lemma {:induction false} LeastFirst(src: string, pat: string, d: nat, p: nat, ep: nat, s: nat, caps: seq<Capture>,
      e: nat, c2: seq<Capture>) returns (t: nat)
    requires p < ep < |pat| && s <= |src| && CapsOk(src, caps) && Best(Least(src, pat, d, p, ep, s, caps), e, c2)
    ensures s <= t <= s + Run(src, pat, s, p, ep) && Best(Rest(src, pat, d, ep, t, caps), e, c2)
      && forall u: nat :: s <= u < t ==> Rest(src, pat, d, ep, u, caps) == []
    decreases |src| - s
  {
    assert Rest(src, pat, d, ep, s, caps) == Tries(src, pat, d, ep + 1, s, caps);
    hide Tries, Rest, Single;
    if Rest(src, pat, d, ep, s, caps) == [] {
      t := LeastFirst(src, pat, d, p, ep, s + 1, caps, e, c2);
    } else {
      t := s;
    }
  }

  lemma {:induction false} FirstItem(src: string, pat: string, d: nat, p: nat, ep: nat, s: nat, caps: seq<Capture>,
      e: nat, c2: seq<Capture>)
    requires p < ep <= |pat| && s <= |src| && CapsOk(src, caps) && Best(Item(src, pat, d, p, ep, s, caps), e, c2)
    ensures PreferredItem(src, pat, p, ep, s, caps, e, c2)
    decreases |pat| - p, 0
  {
    hide Tries, Body, Admits, Preferred, Most, Least, Later, Rest, Onward, Hopeless, Single;
    var c, n := Char(pat, ep), Run(src, pat, s, p, ep);
    if c == '?' {
      FirstOptional(src, pat, d, p, ep, s, caps, e, c2);
    } else if c in "*+-" && n == 0 {
      BodyOnward(src, pat, d, ep, s, caps, e, c2);
    } else if c in "*+-" {
      FirstRepeated(src, pat, d, p, ep, s, caps, e, c2);
    } else {
      FirstBody(src, pat, d, ep, s + 1, caps, e, c2);
    }
  }

  lemma {:induction false} BodyOnward(src: string, pat: string, d: nat, ep: nat, s: nat, caps: seq<Capture>, e: nat,
      c2: seq<Capture>)
    requires ep < |pat| && s <= |src| && CapsOk(src, caps)
    ensures Best(Body(src, pat, d, ep + 1, s, caps), e, c2) ==> Onward(src, pat, ep, s, caps, e, c2)
    decreases |pat| - ep - 1, 3
  {
    if Best(Body(src, pat, d, ep + 1, s, caps), e, c2) { FirstBody(src, pat, d, ep + 1, s, caps, e, c2); }
  }

  lemma {:induction false} FirstOptional(src: string, pat: string, d: nat, p: nat, ep: nat, s: nat, caps: seq<Capture>,
      e: nat, c2: seq<Capture>)
    requires p < ep < |pat| && s <= |src| && CapsOk(src, caps) && Best(Item(src, pat, d, p, ep, s, caps), e, c2)
    requires pat[ep] == '?'
    ensures PreferredItem(src, pat, p, ep, s, caps, e, c2)
    decreases |pat| - ep - 1, 4
  {
    hide Body, Admits, Preferred, Later, Onward, Hopeless, Single;
    var n := Run(src, pat, s, p, ep);
    assert n > 0 ==> Rest(src, pat, d, ep, s + 1, caps) == Tries(src, pat, d, ep + 1, s + 1, caps);
    hide Tries, Rest;
    if n > 0 && Rest(src, pat, d, ep, s + 1, caps) != [] {
      FirstOnward(src, pat, d, ep, s + 1, caps, e, c2);
      OnwardAdmits(src, pat, ep, s + 1, caps, e, c2);
      NotHopeless(src, pat, ep, s + 1, caps, e, c2);
    } else {
      if n > 0 { NoOutcome(src, pat, d, ep, s + 1, caps); }
      BodyOnward(src, pat, d, ep, s, caps, e, c2);
    }
  }

  lemma {:induction false} FirstRepeated(src: string, pat: string, d: nat, p: nat, ep: nat, s: nat, caps: seq<Capture>,
      e: nat, c2: seq<Capture>)
    requires p < ep < |pat| && s <= |src| && CapsOk(src, caps) && Best(Item(src, pat, d, p, ep, s, caps), e, c2)
    requires pat[ep] in "*+-" && Run(src, pat, s, p, ep) > 0
    ensures PreferredItem(src, pat, p, ep, s, caps, e, c2)
    decreases |pat| - ep - 1, 4
  {
    hide Tries, Body, Admits, Preferred, Most, Least, Later, Rest, Onward, Hopeless, Single;
    var n := Run(src, pat, s, p, ep);
    assert n == 1 + Run(src, pat, s + 1, p, ep);
    var t;
    if pat[ep] == '*' {
      t := MostFirst(src, pat, d, ep, s, n, caps, e, c2);
    } else if pat[ep] == '+' {
      t := MostFirst(src, pat, d, ep, s + 1, n - 1, caps, e, c2);
    } else {
      t := LeastFirst(src, pat, d, p, ep, s, caps, e, c2);
    }
    FirstOnward(src, pat, d, ep, t, caps, e, c2);
    forall u: nat | s <= u <= s + n && Rest(src, pat, d, ep, u, caps) == [] ensures Hopeless(src, pat, ep, u, caps) {
      NoOutcome(src, pat, d, ep, u, caps);
    }
  }
}
