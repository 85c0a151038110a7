/** What the outcomes of a pattern say, whatever their order (lstrlib.c). */
module PatternMeaning {
  import opened PatternSpec

  // ---- The meaning of a pattern, without an order among its matches

  /** The pattern from p on matches from s to e, and turns the captures into c2. */
  ghost predicate Admits(src: string, pat: string, p: nat, s: nat, caps: seq<Capture>, e: nat, c2: seq<Capture>)
    requires p <= |pat| && s <= |src| && CapsOk(src, caps)
    decreases |pat| - p, 1
  {
    if p == |pat| then e == s && c2 == caps
    else if pat[p] == '(' then
      |caps| < MAXCAPTURES &&
      if Char(pat, p + 1) == ')' then Admits(src, pat, p + 2, s, caps + [Capture(s, POSITION)], e, c2)
      else Admits(src, pat, p + 1, s, caps + [Capture(s, UNFINISHED)], e, c2)
    else if pat[p] == ')' then
      var l := ToClose(caps);
      l >= 0 && Admits(src, pat, p + 1, s, caps[l := Capture(caps[l].init, s - caps[l].init)], e, c2)
    else if pat[p] == '$' && p + 1 == |pat| then s == |src| && e == s && c2 == caps
    else if pat[p] == ESC && Char(pat, p + 1) == 'b' then
      p + 3 < |pat| && Char(src, s) == pat[p + 2] &&
      var b := Balanced(src, s + 1, pat[p + 2], pat[p + 3], 1);
      b.EndAt? && Admits(src, pat, p + 4, b.i, caps, e, c2)
    else if pat[p] == ESC && Char(pat, p + 1) == 'f' then
      Char(pat, p + 2) == '[' &&
      var f := ClassEnd(pat, p + 2);
      f.EndAt? && !MatchBracket(pat, if s == 0 then '\0' else src[s - 1], p + 2, f.i - 1) &&
      MatchBracket(pat, Char(src, s), p + 2, f.i - 1) && Admits(src, pat, f.i, s, caps, e, c2)
    else if pat[p] == ESC && IsDigit(Char(pat, p + 1)) then
      var b := BackRef(src, caps, pat[p + 1]);
      b.Text? && b.t <= src[s..] && Admits(src, pat, p + 2, s + |b.t|, caps, e, c2)
    else ClassEnd(pat, p).EndAt? && AdmitsItem(src, pat, p, ClassEnd(pat, p).i, s, caps, e, c2)
  }

  ghost predicate AdmitsItem(src: string, pat: string, p: nat, ep: nat, s: nat, caps: seq<Capture>, e: nat,
      c2: seq<Capture>)
    requires p < ep <= |pat| && s <= |src| && CapsOk(src, caps)
    decreases |pat| - p, 0
  {
    var c, n := Char(pat, ep), Run(src, pat, s, p, ep);
    if c == '?' then (n > 0 && Later(src, pat, ep, s + 1, caps, e, c2)) || Later(src, pat, ep, s, caps, e, c2)
    else if c == '+' then exists t: nat :: s + 1 <= t <= s + n && Later(src, pat, ep, t, caps, e, c2)
    else if c == '*' || c == '-' then exists t: nat :: s <= t <= s + n && Later(src, pat, ep, t, caps, e, c2)
    else n > 0 && Admits(src, pat, ep, s + 1, caps, e, c2)
  }

  /** The pattern after a suffix at ep. */
  ghost predicate Later(src: string, pat: string, ep: nat, s: nat, caps: seq<Capture>, e: nat, c2: seq<Capture>)
    requires ep < |pat| && s <= |src| && CapsOk(src, caps)
    decreases |pat| - ep - 1, 2
  {
    Admits(src, pat, ep + 1, s, caps, e, c2)
  }

  ghost function Rest(src: string, pat: string, d: nat, ep: nat, s: nat, caps: seq<Capture>): seq<Outcome>
    requires ep < |pat| && s <= |src| && CapsOk(src, caps)
  {
    Tries(src, pat, d, ep + 1, s, caps)
  }

  lemma {:induction false} MostMembers(src: string, pat: string, d: nat, ep: nat, s: nat, n: nat, caps: seq<Capture>,
      o: Outcome)
    requires ep < |pat| && s + n <= |src| && CapsOk(src, caps)
    ensures o in Most(src, pat, d, ep, s, n, caps) <==>
        exists t: nat :: s <= t <= s + n && o in Rest(src, pat, d, ep, t, caps)
  {
    assert Rest(src, pat, d, ep, s + n, caps) == Tries(src, pat, d, ep + 1, s + n, caps);
    if n > 0 { MostMembers(src, pat, d, ep, s, n - 1, caps, o); }
  }

  lemma {:induction false} LeastMembers(src: string, pat: string, d: nat, p: nat, ep: nat, s: nat, caps: seq<Capture>,
      o: Outcome)
    requires p < ep < |pat| && s <= |src| && CapsOk(src, caps)
    ensures o in Least(src, pat, d, p, ep, s, caps) <==>
        exists t: nat :: s <= t <= s + Run(src, pat, s, p, ep) && o in Rest(src, pat, d, ep, t, caps)
    decreases |src| - s
  {
    assert Rest(src, pat, d, ep, s, caps) == Tries(src, pat, d, ep + 1, s, caps);
    if Single(src, pat, s, p, ep) { LeastMembers(src, pat, d, p, ep, s + 1, caps, o); }
  }

  /** The outcomes tell whether the pattern admits this match; only an error may take its place. */
  ghost predicate Tells(o: seq<Outcome>, e: nat, c2: seq<Capture>, admits: bool) {
    && (Match(e, c2) in o ==> admits)
    && (admits ==> Match(e, c2) in o || Error in o)
  }

  /** Whatever the limit on nested calls, the outcomes tell which matches the pattern admits. */
  lemma {:induction false} Meaning(src: string, pat: string, d: nat, p: nat, s: nat, caps: seq<Capture>, e: nat,
      c2: seq<Capture>)
    requires p <= |pat| && s <= |src| && CapsOk(src, caps)
    ensures Tells(Tries(src, pat, d, p, s, caps), e, c2, Admits(src, pat, p, s, caps, e, c2))
    decreases |pat| - p, 2
  {
    if d > 0 { MeaningBody(src, pat, d - 1, p, s, caps, e, c2); }
  }

  lemma {:induction false} MeaningBody(src: string, pat: string, d: nat, p: nat, s: nat, caps: seq<Capture>, e: nat,
      c2: seq<Capture>)
    requires p <= |pat| && s <= |src| && CapsOk(src, caps)
    ensures Tells(Body(src, pat, d, p, s, caps), e, c2, Admits(src, pat, p, s, caps, e, c2))
    decreases |pat| - p, 1
  {
    if p == |pat| {
    } else if pat[p] == '(' {
      assert Body(src, pat, d, p, s, caps) == Open(src, pat, d, p, s, caps);
      if |caps| < MAXCAPTURES {
        if Char(pat, p + 1) == ')' { Meaning(src, pat, d, p + 2, s, caps + [Capture(s, POSITION)], e, c2); }
        else { Meaning(src, pat, d, p + 1, s, caps + [Capture(s, UNFINISHED)], e, c2); }
      }
    } else if pat[p] == ')' {
      assert Body(src, pat, d, p, s, caps) == Close(src, pat, d, p, s, caps);
      var l := ToClose(caps);
      if l >= 0 { Meaning(src, pat, d, p + 1, s, caps[l := Capture(caps[l].init, s - caps[l].init)], e, c2); }
    } else if pat[p] == '$' && p + 1 == |pat| {
    } else if pat[p] == ESC && Char(pat, p + 1) == 'b' {
      assert Body(src, pat, d, p, s, caps) == Balance(src, pat, d, p, s, caps);
      if p + 3 < |pat| {
        var b := Balanced(src, s + 1, pat[p + 2], pat[p + 3], 1);
        if b.EndAt? { MeaningBody(src, pat, d, p + 4, b.i, caps, e, c2); }
      }
    } else if pat[p] == ESC && Char(pat, p + 1) == 'f' {
      assert Body(src, pat, d, p, s, caps) == Frontier(src, pat, d, p, s, caps);
      if Char(pat, p + 2) == '[' {
        var f := ClassEnd(pat, p + 2);
        if f.EndAt? { MeaningBody(src, pat, d, f.i, s, caps, e, c2); }
      }
    } else if pat[p] == ESC && IsDigit(Char(pat, p + 1)) {
      assert Body(src, pat, d, p, s, caps) == Again(src, pat, d, p, s, caps);
      var b := BackRef(src, caps, pat[p + 1]);
      if b.Text? && b.t <= src[s..] { MeaningBody(src, pat, d, p + 2, s + |b.t|, caps, e, c2); }
    } else if ClassEnd(pat, p).EndAt? {
      MeaningItem(src, pat, d, p, ClassEnd(pat, p).i, s, caps, e, c2);
    }
  }

  lemma {:induction false} MeaningLater(src: string, pat: string, d: nat, ep: nat, s: nat, caps: seq<Capture>, e: nat,
      c2: seq<Capture>)
    requires ep < |pat| && s <= |src| && CapsOk(src, caps)
    ensures Rest(src, pat, d, ep, s, caps) == Tries(src, pat, d, ep + 1, s, caps)
    ensures Tells(Rest(src, pat, d, ep, s, caps), e, c2, Later(src, pat, ep, s, caps, e, c2))
    decreases |pat| - ep - 1, 3
  {
    Meaning(src, pat, d, ep + 1, s, caps, e, c2);
  }

  lemma LaterIs(src: string, pat: string, ep: nat, s: nat, caps: seq<Capture>, e: nat, c2: seq<Capture>)
    requires ep < |pat| && s <= |src| && CapsOk(src, caps)
    ensures Later(src, pat, ep, s, caps, e, c2) == Admits(src, pat, ep + 1, s, caps, e, c2)
  {
  }

  lemma {:induction false} MeaningItem(src: string, pat: string, d: nat, p: nat, ep: nat, s: nat, caps: seq<Capture>,
      e: nat, c2: seq<Capture>)
    requires p < ep <= |pat| && s <= |src| && CapsOk(src, caps)
    ensures Tells(Item(src, pat, d, p, ep, s, caps), e, c2, AdmitsItem(src, pat, p, ep, s, caps, e, c2))
    decreases |pat| - p, 0
  {
    hide Tries, Body, Admits, Most, Least, Single, Later, Rest;
    var c, n, o := Char(pat, ep), Run(src, pat, s, p, ep), Match(e, c2);
    if c in "?*+-" {
      LaterIs(src, pat, ep, s, caps, e, c2);
      forall t: nat | s <= t <= s + n
          ensures Tells(Rest(src, pat, d, ep, t, caps), e, c2, Later(src, pat, ep, t, caps, e, c2)) {
        MeaningLater(src, pat, d, ep, t, caps, e, c2);
      }
      MeaningBody(src, pat, d, ep + 1, s, caps, e, c2);
      if n > 0 {
        MeaningLater(src, pat, d, ep, s + 1, caps, e, c2);
        Members(src, pat, d, p, ep, s, caps, o);
        Members(src, pat, d, p, ep, s, caps, Error);
      }
    } else if n > 0 {
      MeaningBody(src, pat, d, ep, s + 1, caps, e, c2);
    }
  }

  /** The outcomes of the repetitions, in any order. */
  lemma Members(src: string, pat: string, d: nat, p: nat, ep: nat, s: nat, caps: seq<Capture>, o: Outcome)
    requires p < ep < |pat| && s <= |src| && CapsOk(src, caps) && Run(src, pat, s, p, ep) > 0
    ensures var n := Run(src, pat, s, p, ep);
            && n == 1 + Run(src, pat, s + 1, p, ep)
            && (o in Most(src, pat, d, ep, s, n, caps) <==>
                exists t: nat :: s <= t <= s + n && o in Rest(src, pat, d, ep, t, caps))
            && (o in Least(src, pat, d, p, ep, s, caps) <==>
                exists t: nat :: s <= t <= s + n && o in Rest(src, pat, d, ep, t, caps))
            && (o in Most(src, pat, d, ep, s + 1, n - 1, caps) <==>
                exists t: nat :: s + 1 <= t <= s + n && o in Rest(src, pat, d, ep, t, caps))
  {
    hide Most, Least, Rest, Single;
    var n := Run(src, pat, s, p, ep);
    assert n == 1 + Run(src, pat, s + 1, p, ep);
    hide Run;
    MostMembers(src, pat, d, ep, s, n, caps, o);
    LeastMembers(src, pat, d, p, ep, s, caps, o);
    MostMembers(src, pat, d, ep, s + 1, n - 1, caps, o);
  }

  // ---- Patterns that raise no error

  /** The pattern is well formed from p on, with so many captures open and begun; it has no back references. */
  predicate WellFormed(pat: string, p: nat, open: nat, begun: nat)
    requires p <= |pat|
    decreases |pat| - p
  {
    if p == |pat| then true
    else if pat[p] == '(' then begun < MAXCAPTURES && if Char(pat, p + 1) == ')' then
        WellFormed(pat, p + 2, open, begun + 1) else WellFormed(pat, p + 1, open + 1, begun + 1)
    else if pat[p] == ')' then open > 0 && WellFormed(pat, p + 1, open - 1, begun)
    else if pat[p] == '$' && p + 1 == |pat| then true
    else if pat[p] == ESC && Char(pat, p + 1) == 'b' then p + 3 < |pat| && WellFormed(pat, p + 4, open, begun)
    else if pat[p] == ESC && Char(pat, p + 1) == 'f' then Char(pat, p + 2) == '[' && var f := ClassEnd(pat, p + 2);
        f.EndAt? && WellFormed(pat, f.i, open, begun)
    else if pat[p] == ESC && IsDigit(Char(pat, p + 1)) then false
    else var e := ClassEnd(pat, p); e.EndAt? && WellFormed(pat, if Char(pat, e.i) in "?*+-" then e.i + 1 else e.i, open,
        begun)
  }

  /** How many calls of match may be nested below one at p: captures and suffixes need one each. */
  function Nesting(pat: string, p: nat): (n: nat)
    requires p <= |pat|
    ensures n <= |pat| - p
    decreases |pat| - p
  {
    if p == |pat| then 0
    else if pat[p] == '(' then 1 + Nesting(pat, if Char(pat, p + 1) == ')' then p + 2 else p + 1)
    else if pat[p] == ')' then 1 + Nesting(pat, p + 1)
    else if pat[p] == '$' && p + 1 == |pat| then 0
    else if pat[p] == ESC && Char(pat, p + 1) == 'b' then (if p + 3 < |pat| then Nesting(pat, p + 4) else 0)
    else if pat[p] == ESC && Char(pat, p + 1) == 'f' then
      (if p + 2 < |pat| && ClassEnd(pat, p + 2).EndAt? then Nesting(pat, ClassEnd(pat, p + 2).i) else 0)
    else if pat[p] == ESC && IsDigit(Char(pat, p + 1)) then Nesting(pat, p + 2)
    else
      var e := ClassEnd(pat, p);
      if e.Malformed? then 0 else if Char(pat, e.i) in "?*+-" then 1 + Nesting(pat, e.i + 1) else Nesting(pat, e.i)
  }

  function Unfinished(caps: seq<Capture>): nat {
    if caps == [] then 0 else Unfinished(caps[..|caps| - 1]) + if caps[|caps| - 1].len == UNFINISHED then 1 else 0
  }

  lemma {:induction false} CloseOne(caps: seq<Capture>, c: Capture)
    requires c.len != UNFINISHED
    ensures ToClose(caps) >= 0 <==> Unfinished(caps) > 0
    ensures ToClose(caps) >= 0 ==> Unfinished(caps[ToClose(caps) := c]) == Unfinished(caps) - 1
  {
    if caps != [] {
      var n, l := |caps| - 1, ToClose(caps);
      CloseOne(caps[..n], c);
      if l == n {
        assert caps[n := c][..n] == caps[..n];
      } else if l >= 0 {
        assert caps[l := c][..n] == caps[..n][l := c];
      }
    }
  }

  /** Every capture begins before place s. */
  predicate Before(caps: seq<Capture>, s: nat) { forall k :: 0 <= k < |caps| ==> caps[k].init <= s }

  /** A well-formed pattern whose nesting stays below the recursion limit raises no error. */
  lemma {:induction false} NoError(src: string, pat: string, d: nat, p: nat, s: nat, caps: seq<Capture>)
    requires p <= |pat| && s <= |src| && CapsOk(src, caps) && Before(caps, s)
        && WellFormed(pat, p, Unfinished(caps), |caps|) && d > Nesting(pat, p)
    ensures Error !in Tries(src, pat, d, p, s, caps)
    decreases |pat| - p, 2
  {
    NoErrorBody(src, pat, d - 1, p, s, caps);
  }

  lemma {:induction false} NoErrorBody(src: string, pat: string, d: nat, p: nat, s: nat, caps: seq<Capture>)
    requires p <= |pat| && s <= |src| && CapsOk(src, caps) && Before(caps, s)
        && WellFormed(pat, p, Unfinished(caps), |caps|) && d >= Nesting(pat, p)
    ensures Error !in Body(src, pat, d, p, s, caps)
    decreases |pat| - p, 1
  {
    if p == |pat| {
    } else if pat[p] == '(' {
      var c := if Char(pat, p + 1) == ')' then Capture(s, POSITION) else Capture(s, UNFINISHED);
      assert (caps + [c])[..|caps|] == caps;
      NoError(src, pat, d, if Char(pat, p + 1) == ')' then p + 2 else p + 1, s, caps + [c]);
    } else if pat[p] == ')' {
      var l := ToClose(caps);
      if l >= 0 {
        var c := Capture(caps[l].init, s - caps[l].init);
        CloseOne(caps, c);
        NoError(src, pat, d, p + 1, s, caps[l := c]);
      } else {
        CloseOne(caps, Capture(0, 0));
      }
    } else if pat[p] == '$' && p + 1 == |pat| {
    } else if pat[p] == ESC && Char(pat, p + 1) == 'b' {
      var b := Balanced(src, s + 1, pat[p + 2], pat[p + 3], 1);
      if b.EndAt? { NoErrorBody(src, pat, d, p + 4, b.i, caps); }
    } else if pat[p] == ESC && Char(pat, p + 1) == 'f' {
      NoErrorBody(src, pat, d, ClassEnd(pat, p + 2).i, s, caps);
    } else {
      NoErrorItem(src, pat, d, p, ClassEnd(pat, p).i, s, caps);
    }
  }

  lemma {:induction false} NoErrorLater(src: string, pat: string, d: nat, ep: nat, s: nat, t: nat, caps: seq<Capture>)
    requires ep < |pat| && s <= t <= |src| && CapsOk(src, caps) && Before(caps, s)
        && WellFormed(pat, ep + 1, Unfinished(caps), |caps|) && d > Nesting(pat, ep + 1)
    ensures Error !in Rest(src, pat, d, ep, t, caps) && Rest(src, pat, d, ep, t, caps) == Tries(src, pat, d, ep + 1,
        t, caps)
    decreases |pat| - ep - 1, 3
  {
    NoError(src, pat, d, ep + 1, t, caps);
  }

  lemma {:induction false} NoErrorItem(src: string, pat: string, d: nat, p: nat, ep: nat, s: nat, caps: seq<Capture>)
    requires p < ep <= |pat| && s <= |src| && CapsOk(src, caps) && Before(caps, s)
        && WellFormed(pat, if Char(pat, ep) in "?*+-" then ep + 1 else ep, Unfinished(caps), |caps|)
        && d >= if Char(pat, ep) in "?*+-" then 1 + Nesting(pat, ep + 1) else Nesting(pat, ep)
    ensures Error !in Item(src, pat, d, p, ep, s, caps)
    decreases |pat| - p, 0
  {
    hide Most, Least, Single, Rest, WellFormed, Unfinished, Nesting;
    var c, n := Char(pat, ep), Run(src, pat, s, p, ep);
    if c in "?*+-" {
      NoErrorBody(src, pat, d, ep + 1, s, caps);
      forall t: nat | s <= t <= s + n ensures Error !in Rest(src, pat, d, ep, t, caps) {
        NoErrorLater(src, pat, d, ep, s, t, caps);
      }
      if n > 0 {
        NoErrorLater(src, pat, d, ep, s, s + 1, caps);
        Members(src, pat, d, p, ep, s, caps, Error);
      }
    } else if n > 0 {
      NoErrorBody(src, pat, d, ep, s + 1, caps);
    }
  }

  // ---- The bound on the nesting is the best possible

  function Copies(t: string, n: nat): string { if n == 0 then "" else t + Copies(t, n - 1) }

  lemma {:induction false} Optionals(n: nat, k: nat)
    ensures |Copies("x", n)| == n && (k < n ==> Copies("x", n)[k] == 'x')
    ensures |Copies("x?", n)| == 2 * n && (k < n ==> Copies("x?", n)[2 * k] == 'x' && Copies("x?", n)[2 * k + 1] == '?')
  {
    if n > 0 { Optionals(n - 1, if k > 0 then k - 1 else 0); }
  }

  /**
   * n optional characters, all of them there, need n nested calls: with no more than that allowed, an error comes
   * first.
   */
  lemma {:induction false} NestingReached(n: nat, d: nat, k: nat)
    requires k <= n && |Copies("x", n)| == n && |Copies("x?", n)| == 2 * n
    ensures var o := Tries(Copies("x", n), Copies("x?", n), d, 2 * k, k, []);
            o != [] && Nesting(Copies("x?", n), 2 * k) == n - k
                && (o[0] == Error <==> d <= Nesting(Copies("x?", n), 2 * k))
    decreases n - k
  {
    if k < n {
      var src, pat := Copies("x", n), Copies("x?", n);
      Optionals(n, k);
      hide Copies;
      assert ClassEnd(pat, 2 * k) == EndAt(2 * k + 1) && Single(src, pat, k, 2 * k, 2 * k + 1);
      NestingReached(n, if d > 0 then d - 1 else 0, k + 1);
      if d > 0 {
        assert Body(src, pat, d - 1, 2 * k, k, []) == Item(src, pat, d - 1, 2 * k, 2 * k + 1, k, []);
        assert 2 * k + 1 + 1 == 2 * (k + 1);
      }
    }
  }
}
