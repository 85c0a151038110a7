/** The texts of 128-bit addresses (RFC 4291, section 2.2): inet_pton6 reads exactly these. */
module InetGrammar {
  import opened InetText

  // ---- The grammar

  predicate HexText(t: string) { forall i :: 0 <= i < |t| ==> HexVal(t[i]) >= 0 }

  function HexNum(t: string): (v: nat)
    requires HexText(t)
    ensures |t| <= 4 ==> Short(|t|, v)
  {
    if t == "" then 0 else HexNum(t[..|t| - 1]) * 16 + HexVal(t[|t| - 1])
  }

  /** One to four hexadecimal digits, in any case, leading zeros allowed. */
  predicate Group(t: string) { 1 <= |t| <= 4 && HexText(t) }

  predicate Groups(gs: seq<string>) { forall i :: 0 <= i < |gs| ==> Group(gs[i]) }

  function GroupBytes(gs: seq<string>): (a: seq<Byte>)
    requires Groups(gs)
    ensures |a| == 2 * |gs|
  {
    if gs == [] then [] else Pair(GroupWord(gs[0])) + GroupBytes(gs[1..])
  }

  function GroupWord(t: string): Word
    requires Group(t)
  {
    HexNum(t)
  }

  /** Groups, and at the end an address of 32 bits or nothing. */
  predicate Part(gs: seq<string>, quad: seq<Byte>) { Groups(gs) && (|quad| == 0 || |quad| == 4) }

  /** Its text, with colons between. */
  function Text(gs: seq<string>, quad: seq<Byte>): string
    requires |quad| == 0 || |quad| == 4
  {
    if gs == [] then (if quad == [] then "" else Text4(quad))
    else if |gs| == 1 && quad == [] then gs[0]
    else gs[0] + ":" + Text(gs[1..], quad)
  }

  /** Eight words, written out. */
  ghost predicate Whole(s: string, a: seq<Byte>, gs: seq<string>, quad: seq<Byte>) {
    Part(gs, quad) && s == Text(gs, quad) && a == GroupBytes(gs) + quad && |a| == 16
  }

  /** A double colon stands for the zeros that are missing, at least one byte of them. */
  ghost predicate Gapped(s: string, a: seq<Byte>, fs: seq<string>, gs: seq<string>, quad: seq<Byte>) {
    && Groups(fs) && Part(gs, quad) && s == Text(fs, []) + "::" + Text(gs, quad)
    && var x, y := GroupBytes(fs), GroupBytes(gs) + quad;
       |x| + |y| < 16 && a == x + Zeros(16 - |x| - |y|) + y
  }

  /** The text is one of the address a. */
  ghost predicate Denotes(s: string, a: seq<Byte>) {
    (exists gs, quad :: Whole(s, a, gs, quad)) || (exists fs, gs, quad :: Gapped(s, a, fs, gs, quad))
  }

  // ---- Every text of the grammar is read

  lemma {:induction false} ReadGroup(t: string, rest: string, out: seq<Byte>, colon: int, tok: string)
    requires HexText(t) && |t| <= 4 && colon <= |out|
    ensures Read6(t + rest, out, colon, tok, 0, 0) == Read6(rest, out, colon, tok, |t|, HexNum(t))
  {
    if t == "" {
      assert t + rest == rest;
    } else {
      var init, c := t[..|t| - 1], t[|t| - 1];
      ReadGroup(init, [c] + rest, out, colon, tok);
      assert t + rest == init + ([c] + rest);
      ReadDigit(c, rest, out, colon, tok, |init|, HexNum(init));
    }
  }

  lemma {:induction false} ReadText(gs: seq<string>, quad: seq<Byte>, out: seq<Byte>, colon: int)
    requires Part(gs, quad) && colon <= |out| && |out| + 2 * |gs| + |quad| <= 16
    ensures Read6(Text(gs, quad), out, colon, Text(gs, quad), 0, 0) == Finish(out + (GroupBytes(gs) + quad), colon)
  {
    hide *;
    TextIs(gs, quad);
    if gs != [] { TextIs(gs[1..], quad); }
    var t := Text(gs, quad);
    if gs == [] {
      if quad == [] { ReadNothing(out, colon); } else { ReadQuad(quad, out, colon); }
    } else {
      var g, v := gs[0], GroupWord(gs[0]);
      if |gs| == 1 && quad == [] {
        assert g + "" == g;
        ReadGroup(g, "", out, colon, t);
        ReadEnd(out, colon, t, |g|, v);
        assert Pair(v) + [] + quad == Pair(v);
      } else {
        var more := Text(gs[1..], quad);
        assert g + ":" + more == g + (":" + more);
        ReadGroup(g, ":" + more, out, colon, t);
        ReadColon(more, out, colon, t, |g|, v);
        ReadText(gs[1..], quad, out + Pair(v), colon);
        assert out + Pair(v) + (GroupBytes(gs[1..]) + quad) == out + (Pair(v) + GroupBytes(gs[1..]) + quad);
      }
    }
  }

  lemma ReadNothing(out: seq<Byte>, colon: int)
    requires colon <= |out|
    ensures Read6("", out, colon, "", 0, 0) == Finish(out + ([] + []), colon)
  {
    assert out + ([] + []) == out;
  }

  lemma TextIs(gs: seq<string>, quad: seq<Byte>)
    requires Part(gs, quad)
    ensures gs == [] ==> Text(gs, quad) == (if quad == [] then "" else Text4(quad)) && GroupBytes(gs) == []
    ensures Groups(gs) && (|quad| == 0 || |quad| == 4)
    ensures gs != [] ==> Group(gs[0]) && 1 <= |gs[0]| <= 4 && HexText(gs[0]) && GroupWord(gs[0]) == HexNum(gs[0])
    ensures gs != [] ==> Groups(gs[1..]) && Part(gs[1..], quad)
    ensures gs != [] ==> GroupBytes(gs) == Pair(GroupWord(gs[0])) + GroupBytes(gs[1..])
    ensures gs != [] ==>
      Text(gs, quad) == if |gs| == 1 && quad == [] then gs[0] else gs[0] + ":" + Text(gs[1..], quad)
    ensures |gs| == 1 ==> gs[1..] == []
    ensures GroupBytes([]) == [] && Text([], []) == ""
    ensures Text(gs, quad) == "" <==> gs == [] && quad == []
    ensures Text(gs, quad) != "" ==> Text(gs, quad)[0] != ':'
  {
    hide Dec, HexNum;
    if quad != [] {
      DottedThree(quad);
      DecStarts(quad[0]);
    }
    hide Text4;
    if gs != [] { assert HexVal(gs[0][0]) >= 0; }
  }

  lemma DecStarts(x: Byte)
    ensures Dec(x) != "" && Dec(x)[0] != ':' && HexText(Dec(x)) && |Dec(x)| <= 3
  {
    Lengths(x, 0);
    DecIs(x);
    NumberDigits(x, 10);
    hide *;
    HexStart(Dec(x));
  }

  lemma HexStart(t: string)
    requires HexText(t) && t != ""
    ensures t[0] != ':'
  {
    assert HexVal(t[0]) >= 0;
  }

  lemma {:induction false} NumberDigits(x: nat, base: nat)
    requires base == 10 || base == 16
    ensures HexText(Number(x, base)) && Number(x, base) != "" && (base == 16 ==> HexNum(Number(x, base)) == x)
  {
    NumberIs(x, base);
    if x >= base { NumberDigits(x / base, base); }
    hide Number;
    var t := Number(x, base);
    assert x >= base ==> t[..|t| - 1] == Number(x / base, base);
    assert x < base ==> t[..|t| - 1] == "";
  }

  /** A text that ends in a dotted one. */
  lemma ReadQuad(a: seq<Byte>, out: seq<Byte>, colon: int)
    requires |a| == 4 && colon <= |out| <= 12
    ensures Read6(Text4(a), out, colon, Text4(a), 0, 0) == Finish(out + ([] + a), colon)
  {
    hide *;
    DottedThree(a);
    var t := Dec(a[1]) + "." + (Dec(a[2]) + "." + Dec(a[3]));
    assert Text4(a) == Dec(a[0]) + ("." + t);
    DecStarts(a[0]);
    ReadGroup(Dec(a[0]), "." + t, out, colon, Text4(a));
    Parse4Exact(Text4(a), a);
    ReadDot(t, out, colon, Text4(a), |Dec(a[0])|, HexNum(Dec(a[0])));
    assert [] + a == a;
  }

  /** What follows fs in a text with a gap, if the colon after an empty fs has been read. */
  function Gap(fs: seq<string>, tail: string): string {
    if fs == [] then ":" + tail else fs[0] + ":" + Gap(fs[1..], tail)
  }

  lemma {:induction false} GapText(fs: seq<string>, tail: string)
    requires Groups(fs)
    ensures Text(fs, []) + "::" + tail == (if fs == [] then ":" else "") + Gap(fs, tail)
    ensures Gap(fs, tail) != "" && (fs != [] ==> Gap(fs, tail)[0] != ':')
  {
    hide *;
    PartFold(fs, []);
    TextIs(fs, []);
    GapIs(fs, tail);
    if fs == [] {
      assert |":" + tail| > 0;
      assert Text(fs, []) + "::" + tail == ":" + Gap(fs, tail);
    } else {
      HexStart(fs[0]);
      GapText(fs[1..], tail);
      if |fs| == 1 {
        GapIs([], tail);
        assert fs[0] + "::" + tail == fs[0] + ":" + (":" + tail);
      } else {
        assert fs[0] + ":" + Text(fs[1..], []) + "::" + tail == fs[0] + ":" + (Text(fs[1..], []) + "::" + tail);
        assert "" + Gap(fs[1..], tail) == Gap(fs[1..], tail);
      }
      assert "" + Gap(fs, tail) == Gap(fs, tail) && Gap(fs, tail)[0] == fs[0][0];
    }
  }

  lemma GapIs(fs: seq<string>, tail: string)
    ensures Gap(fs, tail) == if fs == [] then ":" + tail else fs[0] + ":" + Gap(fs[1..], tail)
  {
  }

  lemma {:induction false} ReadGap(fs: seq<string>, gs: seq<string>, quad: seq<Byte>, out: seq<Byte>)
    requires Groups(fs) && Part(gs, quad) && |out| + 2 * |fs| + 2 * |gs| + |quad| <= 16
    ensures var s := Gap(fs, Text(gs, quad));
            Read6(s, out, -1, s, 0, 0) == Finish(out + GroupBytes(fs) + (GroupBytes(gs) + quad), |out| + 2 * |fs|)
  {
    hide *;
    TextIs(gs, quad);
    var tail := Text(gs, quad);
    var s := Gap(fs, tail);
    GapIs(fs, tail);
    PartFold(fs, []);
    TextIs(fs, []);
    if fs == [] {
      ReadDouble(tail, out, s);
      ReadText(gs, quad, out, |out|);
      assert out + [] == out;
    } else {
      var v, more := GroupWord(fs[0]), Gap(fs[1..], tail);
      GapText(fs[1..], tail);
      ReadGroupColon(fs[0], more, out, s);
      ReadGap(fs[1..], gs, quad, out + Pair(v));
      assert out + Pair(v) + GroupBytes(fs[1..]) == out + (Pair(v) + GroupBytes(fs[1..]));
    }
  }

  lemma ReadGroupColon(g: string, more: string, out: seq<Byte>, tok: string)
    requires Group(g) && more != "" && |out| + 2 <= 16
    ensures Read6(g + ":" + more, out, -1, tok, 0, 0) == Read6(more, out + Pair(GroupWord(g)), -1, more, 0, 0)
  {
    hide Read6, HexText, HexNum;
    assert g + ":" + more == g + (":" + more);
    ReadGroup(g, ":" + more, out, -1, tok);
    ReadColon(more, out, -1, tok, |g|, GroupWord(g));
  }

  lemma Complete(s: string, a: seq<Byte>)
    requires Denotes(s, a)
    ensures Parse6(s) == Ok(a)
  {
    if gs, quad :| Whole(s, a, gs, quad) {
      WholeRead(s, a, gs, quad);
    } else {
      var fs, gs, quad :| Gapped(s, a, fs, gs, quad);
      GappedRead(s, a, fs, gs, quad);
    }
  }

  lemma WholeRead(s: string, a: seq<Byte>, gs: seq<string>, quad: seq<Byte>)
    requires Whole(s, a, gs, quad)
    ensures Parse6(s) == Ok(a)
  {
    TextIs(gs, quad);
    ReadText(gs, quad, [], -1);
    ParseWhole(s);
    hide Text, GroupBytes, Read6, Parse6, Groups, Text4;
    assert [] + a == a;
  }

  lemma GappedRead(s: string, a: seq<Byte>, fs: seq<string>, gs: seq<string>, quad: seq<Byte>)
    requires Gapped(s, a, fs, gs, quad)
    ensures Parse6(s) == Ok(a)
  {
    hide Text, GroupBytes, Read6, Parse6, Groups, Text4, Gap, Zeros, Finish;
    var tail, x, y := Text(gs, quad), GroupBytes(fs), GroupBytes(gs) + quad;
    ReadGap(fs, gs, quad, []);
    GapText(fs, tail);
    GapIs(fs, tail);
    ParseGap(fs, tail);
    assert [] + x == x;
    FinishSplit(x, y);
  }

  lemma ParseGap(fs: seq<string>, tail: string)
    requires Groups(fs)
    ensures Parse6(Text(fs, []) + "::" + tail) == Read6(Gap(fs, tail), [], -1, Gap(fs, tail), 0, 0)
  {
    hide *;
    var s := Gap(fs, tail);
    GapText(fs, tail);
    GapIs(fs, tail);
    if fs == [] {
      ParseColon(s);
    } else {
      assert "" + s == s;
      ParseWhole(s);
    }
  }

  lemma ParseColon(s: string)
    requires s != "" && s[0] == ':'
    ensures Parse6(":" + s) == Read6(s, [], -1, s, 0, 0)
  {
    assert (":" + s)[1..] == s;
    hide Read6;
  }

  // ---- Nothing else is read

  /** What remains, with the digits read since the last colon, is a part, or two with a gap, and read as such. */
  ghost predicate ReadAs(s: string, cur: string, out: seq<Byte>, colon: int, gap: bool, fs: seq<string>,
      gs: seq<string>, quad: seq<Byte>)
    requires HexText(cur) && |cur| <= 4 && colon <= |out| <= 16
  {
    && Groups(fs) && Part(gs, quad) && (gap ==> colon < 0) && (!gap ==> fs == [])
    && cur + s == (if gap then Gap(fs, Text(gs, quad)) else Text(gs, quad))
    && Read6(s, out, colon, cur + s, |cur|, HexNum(cur)) ==
       Finish(out + GroupBytes(fs) + (GroupBytes(gs) + quad), if gap then |out| + 2 * |fs| else colon)
  }

  lemma ReadAsIs(s: string, cur: string, out: seq<Byte>, colon: int, gap: bool, fs: seq<string>, gs: seq<string>,
      quad: seq<Byte>)
    requires HexText(cur) && |cur| <= 4 && colon <= |out| <= 16 && Groups(fs) && Part(gs, quad)
    ensures ReadAs(s, cur, out, colon, gap, fs, gs, quad) <==>
      && (gap ==> colon < 0) && (!gap ==> fs == [])
      && cur + s == (if gap then Gap(fs, Text(gs, quad)) else Text(gs, quad))
      && Read6(s, out, colon, cur + s, |cur|, HexNum(cur)) ==
         Finish(out + GroupBytes(fs) + (GroupBytes(gs) + quad), if gap then |out| + 2 * |fs| else colon)
  {
  }

  lemma ReadAsParts(s: string, cur: string, out: seq<Byte>, colon: int, gap: bool, fs: seq<string>, gs: seq<string>,
      quad: seq<Byte>)
    requires HexText(cur) && |cur| <= 4 && colon <= |out| <= 16 && ReadAs(s, cur, out, colon, gap, fs, gs, quad)
    ensures Groups(fs) && Part(gs, quad)
  {
  }

  lemma {:induction false} Sound(s: string, cur: string, out: seq<Byte>, colon: int)
    returns (gap: bool, fs: seq<string>, gs: seq<string>, quad: seq<Byte>)
    requires HexText(cur) && |cur| <= 4 && colon <= |out| <= 16
    requires Read6(s, out, colon, cur + s, |cur|, HexNum(cur)).Ok?
    ensures ReadAs(s, cur, out, colon, gap, fs, gs, quad)
    decreases |s|
  {
    hide *;
    NumBound(cur);
    NoGroups();
    gap, fs, gs, quad := false, [], [], [];
    if s == "" {
      assert cur + s == cur;
      EndIs(s, out, colon, cur, |cur|, HexNum(cur));
      if cur != "" {
        OneGroup(cur);
        gs := [cur];
        assert Pair(HexNum(cur)) + [] == Pair(HexNum(cur));
      } else {
        assert GroupBytes([]) + [] == [];
      }
      assert out + [] == out;
      ReadAsIs(s, cur, out, colon, gap, fs, gs, quad);
      return;
    }
    Read6Is(s, out, colon, cur + s, |cur|, HexNum(cur));
    var c, rest := s[0], s[1..];
    assert s == [c] + rest;
    if HexVal(c) >= 0 {
      DigitMore(cur, c);
      assert cur + s == cur + [c] + rest;
      gap, fs, gs, quad := Sound(rest, cur + [c], out, colon);
      ReadAsParts(rest, cur + [c], out, colon, gap, fs, gs, quad);
      ReadAsIs(rest, cur + [c], out, colon, gap, fs, gs, quad);
    } else if c == ':' {
      assert "" + rest == rest;
      if cur == "" {
        gap, fs, gs, quad := Sound(rest, "", out, |out|);
        ReadAsParts(rest, "", out, |out|, gap, fs, gs, quad);
        ReadAsIs(rest, "", out, |out|, gap, fs, gs, quad);
        gap := true;
        GapIs([], rest);
        assert cur + s == ":" + rest;
        assert |out| + 2 * 0 == |out|;
      } else {
        gap, fs, gs, quad := Sound(rest, "", out + Pair(HexNum(cur)), colon);
        ReadAsParts(rest, "", out + Pair(HexNum(cur)), colon, gap, fs, gs, quad);
        ReadAsIs(rest, "", out + Pair(HexNum(cur)), colon, gap, fs, gs, quad);
        assert cur + s == cur + ":" + rest;
        AfterColon(cur, rest, out, gap, fs, gs, quad);
        if gap { fs := [cur] + fs; } else { gs := [cur] + gs; }
      }
    } else {
      FourBytes(cur + s);
      quad := Parse4(cur + s).value;
      Parse4Exact(cur + s, quad);
      OnlyQuad(quad);
      assert out + [] == out && [] + quad == quad;
    }
    ReadAsIs(s, cur, out, colon, gap, fs, gs, quad);
  }

  lemma NoGroups()
    ensures Groups([]) && Part([], []) && GroupBytes([]) == [] && Text([], []) == "" && HexText("") && HexNum("") == 0
  {
  }

  lemma OnlyQuad(quad: seq<Byte>)
    requires |quad| == 4
    ensures Part([], quad) && Text([], quad) == Text4(quad)
  {
    hide Text4;
  }

  lemma NumBound(t: string)
    requires HexText(t) && |t| <= 4
    ensures HexNum(t) < 65536
  {
    ShortBound(|t|, HexNum(t));
  }

  lemma OneGroup(t: string)
    requires HexText(t) && 1 <= |t| <= 4
    ensures Group(t) && Groups([t]) && Part([t], []) && Text([t], []) == t && HexNum(t) == GroupWord(t)
    ensures GroupBytes([t]) == Pair(GroupWord(t))
  {
    assert [t][1..] == [];
    assert GroupBytes([t]) == Pair(GroupWord(t)) + [];
  }

  lemma DigitMore(t: string, c: char)
    requires HexText(t) && HexVal(c) >= 0
    ensures HexText(t + [c]) && HexNum(t + [c]) == HexNum(t) * 16 + HexVal(c)
  {
    assert (t + [c])[..|t|] == t;
  }

  /** One group more before what remains. */
  lemma AfterColon(t: string, rest: string, out: seq<Byte>, gap: bool, fs: seq<string>, gs: seq<string>,
      quad: seq<Byte>)
    requires HexText(t) && 1 <= |t| <= 4 && Groups(fs) && Part(gs, quad) && (!gap ==> fs == []) && rest != ""
    requires rest == if gap then Gap(fs, Text(gs, quad)) else Text(gs, quad)
    ensures var fs2, gs2 := if gap then [t] + fs else fs, if gap then gs else [t] + gs;
      && Groups(fs2) && Part(gs2, quad)
      && t + ":" + rest == (if gap then Gap(fs2, Text(gs2, quad)) else Text(gs2, quad))
      && out + GroupBytes(fs2) + (GroupBytes(gs2) + quad)
         == out + Pair(HexNum(t)) + GroupBytes(fs) + (GroupBytes(gs) + quad)
  {
    hide *;
    OneGroup(t);
    NoGroups();
    TextIs(gs, quad);
    if gap {
      var fs2 := [t] + fs;
      GroupMore(t, fs);
      GapIs(fs2, Text(gs, quad));
      assert fs2[1..] == fs;
      assert out + (Pair(HexNum(t)) + GroupBytes(fs)) == out + Pair(HexNum(t)) + GroupBytes(fs);
    } else {
      var gs2 := [t] + gs;
      GroupMore(t, gs);
      PartFold(gs2, quad);
      TextIs(gs2, quad);
      assert gs2[1..] == gs;
      assert out + [] == out && out + Pair(HexNum(t)) + [] == out + Pair(HexNum(t));
      assert out + (Pair(HexNum(t)) + GroupBytes(gs) + quad) == out + Pair(HexNum(t)) + (GroupBytes(gs) + quad);
    }
  }

  lemma GroupMore(t: string, gs: seq<string>)
    requires Group(t) && Groups(gs)
    ensures Groups([t] + gs) && GroupBytes([t] + gs) == Pair(GroupWord(t)) + GroupBytes(gs)
  {
    assert ([t] + gs)[1..] == gs;
    hide Group;
  }

  lemma PartFold(gs: seq<string>, quad: seq<Byte>)
    requires Groups(gs) && (|quad| == 0 || |quad| == 4)
    ensures Part(gs, quad)
  {
  }

  /** A text is read as an address exactly if the grammar makes it one of that address. */
  lemma Parse6Exact(s: string, a: seq<Byte>)
    requires |a| == 16
    ensures Parse6(s) == Ok(a) <==> Denotes(s, a)
  {
    hide *;
    if Denotes(s, a) {
      Complete(s, a);
    } else if Parse6(s) == Ok(a) {
      var gap, fs, gs, quad;
      NoGroups();
      ParseWhole(s);
      if s != "" && s[0] == ':' {
        var t := s[1..];
        assert s == ":" + t && "" + t == t;
        ParseColon(t);
        gap, fs, gs, quad := Sound(t, "", [], -1);
        ReadAsParts(t, "", [], -1, gap, fs, gs, quad);
        ReadAsIs(t, "", [], -1, gap, fs, gs, quad);
      } else {
        assert "" + s == s;
        gap, fs, gs, quad := Sound(s, "", [], -1);
        ReadAsParts(s, "", [], -1, gap, fs, gs, quad);
        ReadAsIs(s, "", [], -1, gap, fs, gs, quad);
      }
      assert [] + GroupBytes(fs) == GroupBytes(fs);
      Found(s, a, gap, fs, gs, quad);
    }
  }

  lemma Found(s: string, a: seq<Byte>, gap: bool, fs: seq<string>, gs: seq<string>, quad: seq<Byte>)
    requires Groups(fs) && Part(gs, quad) && (!gap ==> fs == []) && |a| == 16
    requires var t := if gap then Gap(fs, Text(gs, quad)) else Text(gs, quad);
             if s != "" && s[0] == ':' then t != "" && t[0] == ':' && s == ":" + t else s == t
    requires Finish(GroupBytes(fs) + (GroupBytes(gs) + quad), if gap then 2 * |fs| else -1) == Ok(a)
    ensures Denotes(s, a)
  {
    hide *;
    TextIs(gs, quad);
    NoGroups();
    if gap {
      FoundGap(s, a, fs, gs, quad);
    } else {
      assert [] + (GroupBytes(gs) + quad) == GroupBytes(gs) + quad;
      FinishWhole(GroupBytes(gs) + quad, a);
      WholeFold(s, a, gs, quad);
    }
  }

  lemma FoundGap(s: string, a: seq<Byte>, fs: seq<string>, gs: seq<string>, quad: seq<Byte>)
    requires Groups(fs) && Groups(gs) && Part(gs, quad) && (|quad| == 0 || |quad| == 4)
    requires var t := Gap(fs, Text(gs, quad));
             if s != "" && s[0] == ':' then t != "" && t[0] == ':' && s == ":" + t else s == t
    requires Finish(GroupBytes(fs) + (GroupBytes(gs) + quad), 2 * |fs|) == Ok(a)
    ensures Denotes(s, a)
  {
    hide *;
    FoundText(s, fs, Text(gs, quad));
    FinishGap(GroupBytes(fs), GroupBytes(gs) + quad, a);
    GappedFold(s, a, fs, gs, quad);
  }

  lemma FoundText(s: string, fs: seq<string>, tail: string)
    requires Groups(fs)
    requires var t := Gap(fs, tail); if s != "" && s[0] == ':' then t != "" && t[0] == ':' && s == ":" + t else s == t
    ensures s == Text(fs, []) + "::" + tail
  {
    hide *;
    GapText(fs, tail);
    GapIs(fs, tail);
    assert "" + Gap(fs, tail) == Gap(fs, tail);
  }

  lemma FinishGap(x: seq<Byte>, y: seq<Byte>, a: seq<Byte>)
    requires Finish(x + y, |x|) == Ok(a)
    ensures |x| + |y| < 16 && a == x + Zeros(16 - |x| - |y|) + y
  {
    if |x| + |y| < 16 { FinishSplit(x, y); }
    hide Zeros;
  }

  lemma FinishWhole(y: seq<Byte>, a: seq<Byte>)
    requires Finish(y, -1) == Ok(a)
    ensures a == y && |a| == 16
  {
  }

  lemma WholeFold(s: string, a: seq<Byte>, gs: seq<string>, quad: seq<Byte>)
    requires Part(gs, quad) && s == Text(gs, quad) && a == GroupBytes(gs) + quad && |a| == 16
    ensures Denotes(s, a)
  {
    hide Text, GroupBytes, Part;
    assert Whole(s, a, gs, quad);
  }

  lemma GappedFold(s: string, a: seq<Byte>, fs: seq<string>, gs: seq<string>, quad: seq<Byte>)
    requires Groups(fs) && Part(gs, quad) && s == Text(fs, []) + "::" + Text(gs, quad)
    requires var x, y := GroupBytes(fs), GroupBytes(gs) + quad;
             |x| + |y| < 16 && a == x + Zeros(16 - |x| - |y|) + y
    ensures Denotes(s, a)
  {
    hide Text, GroupBytes, Part, Groups, Zeros;
    assert Gapped(s, a, fs, gs, quad);
  }

  // ---- What is printed is one of the texts

  function Hexes(w: seq<Word>): (gs: seq<string>)
    ensures |gs| == |w|
  {
    if w == [] then [] else [Hex(w[0])] + Hexes(w[1..])
  }

  lemma {:induction false} HexesOk(w: seq<Word>)
    ensures Groups(Hexes(w)) && GroupBytes(Hexes(w)) == Bytes(w) && Text(Hexes(w), []) == Joined(w)
  {
    hide *;
    HexesIs(w);
    NoGroups();
    BytesOne(0);
    ColonedStart();
    if w != [] {
      var x, more := w[0], w[1..];
      HexesOk(more);
      HexGroup(x);
      GroupMore(Hex(x), Hexes(more));
      assert w == [x] + more;
      BytesConcat([x], more);
      BytesOne(x);
      ColonedFirst(x, more);
      if more != [] {
        ColonedFirst(more[0], more[1..]);
        assert more == [more[0]] + more[1..];
      } else {
        assert Hex(x) + "" == Hex(x);
      }
      PartFold(Hexes(w), []);
      TextIs(Hexes(w), []);
      assert Hexes(w)[1..] == Hexes(more);
      assert Hex(x) + ":" + Joined(more) == Hex(x) + (":" + Joined(more));
    }
  }

  lemma HexesIs(w: seq<Word>)
    ensures Hexes(w) == if w == [] then [] else [Hex(w[0])] + Hexes(w[1..])
  {
  }

  lemma HexGroup(x: Word)
    ensures Group(Hex(x)) && GroupWord(Hex(x)) == x
  {
    Lengths(0, x);
    HexIs(x);
    NumberDigits(x, 16);
    hide Number, Hex;
  }

  /** Reading what is printed for an address gives it back, whichever run of zeros is left out. */
  lemma RoundTrip(a: seq<Byte>, b: int, n: nat)
    requires |a| == 16 && (b >= 0 ==> n >= 1 && ZeroRun(Words(a), b, n))
    ensures (b >= 0 ==> b + n <= 8) && Parse6(Text6(a, b, n)) == Ok(a)
  {
    hide *;
    RunInside(Words(a), b, n);
    if b < 0 {
      PrintedWhole(a, n);
    } else if Embeds(Words(a), b, n) {
      PrintedQuad(a, b, n);
    } else {
      PrintedGap(a, b, n);
    }
    Parse6Exact(Text6(a, b, n), a);
  }

  lemma PrintedWhole(a: seq<Byte>, n: nat)
    requires |a| == 16
    ensures Denotes(Text6(a, -1, n), a) && forall b: int :: b < 0 ==> Text6(a, b, n) == Text6(a, -1, n)
  {
    hide Joined, Words, Bytes;
    var w := Words(a);
    HexesOk(w);
    BytesOfWords(a);
    PartFold(Hexes(w), []);
    hide *;
    Text6Is(a, -1, n);
    assert a + [] == a;
    WholeFold(Text6(a, -1, n), a, Hexes(w), []);
  }

  lemma PrintedGap(a: seq<Byte>, b: nat, n: nat)
    requires |a| == 16 && n >= 1 && ZeroRun(Words(a), b, n) && b + n <= 8 && !Embeds(Words(a), b, n)
    ensures Denotes(Text6(a, b, n), a)
  {
    hide *;
    var w := Words(a);
    var v, u := w[..b], w[b + n..];
    Text6Is(a, b, n);
    WordsGap(v, u);
    HexesOk(v);
    HexesOk(u);
    FinishRun(a, b, n);
    FinishSplit(Bytes(v), Bytes(u));
    PartFold(Hexes(u), []);
    assert Bytes(u) + [] == Bytes(u);
    GappedFold(Text6(a, b, n), a, Hexes(v), Hexes(u), []);
  }

  lemma PrintedQuad(a: seq<Byte>, b: nat, n: nat)
    requires |a| == 16 && n >= 1 && ZeroRun(Words(a), b, n) && b + n <= 8 && Embeds(Words(a), b, n)
    ensures Denotes(Text6(a, b, n), a)
  {
    hide *;
    var w, quad := Words(a), a[12..];
    EmbedsIs(w, b, n);
    Text6Is(a, b, n);
    var ws := w[n..6];
    QuadText(ws, quad);
    HexesOk(ws);
    QuadBytes(a, n);
    FinishRun(a, 0, n);
    NoGroups();
    FinishSplit([], Bytes(ws) + quad);
    PartFold(Hexes(ws), quad);
    GappedFold(Text6(a, b, n), a, [], Hexes(ws), quad);
  }

  lemma QuadBytes(a: seq<Byte>, n: nat)
    requires |a| == 16 && n <= 6
    ensures Bytes(Words(a)[..0]) + Bytes(Words(a)[n..]) == [] + (Bytes(Words(a)[n..6]) + a[12..])
  {
    hide *;
    var w := Words(a);
    LastFour(a);
    BytesOne(0);
    BytesConcat(w[n..6], w[6..]);
    assert w[n..6] + w[6..] == w[n..] && w[..0] == [];
  }

  /** What is printed after six zero words, or five and one more word. */
  lemma QuadText(ws: seq<Word>, quad: seq<Byte>)
    requires |quad| == 4 && |ws| <= 1
    ensures ":" + Coloned(ws) + ":" + Text4(quad) == Text([], []) + "::" + Text(Hexes(ws), quad)
  {
    hide *;
    NoGroups();
    HexesOk(ws);
    PartFold(Hexes(ws), quad);
    TextIs(Hexes(ws), quad);
    OnlyQuad(quad);
    HexesIs(ws);
    ColonedStart();
    if ws == [] {
      assert ":" + "" + ":" + Text4(quad) == "" + "::" + Text4(quad);
    } else {
      var x := ws[0];
      ColonedFirst(x, []);
      HexesIs(ws[1..]);
      assert ws == [x] + [] && Hexes(ws)[1..] == [] && Hex(x) + "" == Hex(x);
      assert ":" + (":" + Hex(x)) + ":" + Text4(quad) == "" + "::" + (Hex(x) + ":" + Text4(quad));
    }
  }
}
