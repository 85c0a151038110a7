/** Conversion between Internet addresses and their texts (inet.c of libuv). */
module Inet {
  import InetGrammar
  import opened InetText

  const INET6_ADDRSTRLEN: nat := 46

  // ---- Printing

  /** inet_ntop4 */
  method Ntop4(src: seq<Byte>, size: nat) returns (r: Result<string>)
    requires |src| == 4
    ensures r == if |Text4(src)| < size then Ok(Text4(src)) else NoSpace
  {
    var tmp := Dec(src[0]) + "." + (Dec(src[1]) + "." + (Dec(src[2]) + "." + Dec(src[3])));
    DottedThree(src);
    hide Dec, Text4;
    var l := |tmp|;
    if l >= size { return NoSpace; }
    return Ok(tmp);
  }

  function High(byte: int): int { byte * 256 }

  /** The word-wise copy of an address. */
  method CopyWords(src: seq<Byte>) returns (words: seq<Word>)
    requires |src| == 16
    ensures words == Words(src)
  {
    words := seq(8, _ => 0);
    for i := 0 to 16
      invariant |words| == 8
      invariant forall k :: 0 <= k < 8 ==> words[k] == if 2 * k + 1 < i then WordOf(src, k) else if 2 * k < i then
          High(src[2 * k]) else 0
    {
      var byte: int := src[i];
      words := words[i / 2 := words[i / 2] + if i % 2 == 0 then High(byte) else byte];
    }
  }

  /** The zero runs that end by limit are no longer than n, and those that are as long do not begin before b. */
  ghost predicate BestUpTo(w: seq<Word>, limit: nat, b: int, n: nat) {
    && (b >= 0 ==> n > 0 && ZeroRun(w, b, n) && b + n <= limit)
    && (b < 0 ==> b == -1)
    && forall c: nat, m: nat {:trigger ZeroRun(w, c, m)} ::
        ZeroRun(w, c, m) && m > 0 && c + m <= limit ==> b >= 0 && m <= n && (m == n ==> b <= c)
  }

  /** The current run, from b to i. */
  ghost predicate Current(w: seq<Word>, i: nat, b: int, n: nat) {
    i <= |w| && if b < 0 then b == -1 && (i > 0 ==>
        w[i - 1] != 0) else b + n == i && n > 0 && ZeroRun(w, b, n) && (b > 0 ==> w[b - 1] != 0)
  }

  lemma InRun(w: seq<Word>, b: nat, n: nat, k: int)
    requires ZeroRun(w, b, n)
    ensures b <= k < b + n ==> k < |w| && w[k] == 0
  {
  }

  /** The runs that begin before a non-zero word end before it. */
  lemma TakeCurrent(w: seq<Word>, i: nat, b: int, n: nat, c: int, m: nat)
    requires c >= 0 && Current(w, i, c, m) && BestUpTo(w, c, b, n)
    ensures BestUpTo(w, i, if b == -1 || m > n then c else b, if b == -1 || m > n then m else n)
  {
    forall d: nat, l: nat | ZeroRun(w, d, l) && l > 0 && d + l <= i ensures d + l <= c || (c <= d && l <= m) {
      InRun(w, d, l, c - 1);
    }
  }

  lemma SkipNonZero(w: seq<Word>, i: nat, b: int, n: nat)
    requires i < |w| && w[i] != 0 && BestUpTo(w, i, b, n)
    ensures BestUpTo(w, i + 1, b, n)
  {
    forall d: nat, l: nat | ZeroRun(w, d, l) && l > 0 && d + l <= i + 1 ensures d + l <= i {
      InRun(w, d, l, i);
    }
  }

  lemma NoShortRun(w: seq<Word>, b: int, n: nat)
    requires BestUpTo(w, |w|, b, n)
    ensures if b != -1 && n < 2 then BestRun(w, -1, n) else BestRun(w, b, n)
  {
    if b == -1 || n < 2 {
      forall c: nat ensures !ZeroRun(w, c, 2) { assert ZeroRun(w, c, 2) ==> c + 2 <= |w|; }
    }
  }

  /** The search for the first of the longest runs of zeros; a single zero is none. */
  method FindRun(w: seq<Word>) returns (base: int, len: nat)
    ensures BestRun(w, base, len)
  {
    hide BestUpTo, BestRun;
    base, len := -1, 0;
    var curBase: int, curLen: nat := -1, 0;
    NoRuns(w);
    for i := 0 to |w|
      invariant Current(w, i, curBase, curLen)
      invariant BestUpTo(w, if curBase == -1 then i else curBase, base, len)
    {
      if w[i] == 0 {
        if curBase == -1 { curBase, curLen := i, 1; } else { curLen := curLen + 1; }
      } else {
        if curBase != -1 {
          TakeCurrent(w, i, base, len, curBase, curLen);
          if base == -1 || curLen > len { base, len := curBase, curLen; }
          curBase := -1;
        }
        SkipNonZero(w, i, base, len);
      }
    }
    if curBase != -1 {
      TakeCurrent(w, |w|, base, len, curBase, curLen);
      if base == -1 || curLen > len { base, len := curBase, curLen; }
    }
    NoShortRun(w, base, len);
    if base != -1 && len < 2 { base := -1; }
  }

  lemma NoRuns(w: seq<Word>)
    ensures BestUpTo(w, 0, -1, 0)
  {
  }

  /** The text is determined: there is only one first run of the greatest length. */
  lemma BestUnique(w: seq<Word>, b: int, n: nat, c: int, m: nat)
    requires BestRun(w, b, n) && BestRun(w, c, m)
    ensures b == c && (b >= 0 ==> n == m)
  {
    if b >= 0 { assert ZeroRun(w, b, n) && ZeroRun(w, b, 2); }
    if c >= 0 { assert ZeroRun(w, c, m) && ZeroRun(w, c, 2); }
  }

  /** What has been printed of the words before i. */
  ghost function Printed(w: seq<Word>, b: int, n: nat, i: nat): string
    requires i <= |w| && (b >= 0 ==> b + n <= |w|)
  {
    if b < 0 || i <= b then Joined(w[..i])
    else if i <= b + n then Joined(w[..b]) + ":"
    else Joined(w[..b]) + ":" + Coloned(w[b + n..i])
  }

  lemma PrintedNext(w: seq<Word>, b: int, n: nat, i: nat)
    requires i < |w| && (b >= 0 ==> n > 0 && b + n <= |w|)
    ensures Printed(w, b, n, 0) == ""
    ensures Printed(w, b, n, i + 1) ==
      if b >= 0 && b <= i < b + n then Printed(w, b, n, i) + (if i == b then ":" else "")
      else Printed(w, b, n, i) + (if i == 0 then "" else ":") + Hex(w[i])
  {
    hide Joined, Coloned, Hex;
    ColonedStart();
    if b < 0 || i < b {
      assert w[..i + 1] == w[..i] + [w[i]];
      ColonedNext(w[..i], w[i]);
    } else if i >= b + n {
      assert w[b + n..i + 1] == w[b + n..i] + [w[i]];
      ColonedNext(w[b + n..i], w[i]);
      assert w[i..i] == [];
    }
  }

  /** inet_ntop6: the run of zeros that the text leaves out is at b, and n words long. */
  method Ntop6(src: seq<Byte>, size: nat) returns (r: Result<string>, ghost b: int, ghost n: nat)
    requires |src| == 16
    ensures BestRun(Words(src), b, n) && (b >= 0 ==> b + n <= 8)
    ensures r == if |Text6(src, b, n)| < size then Ok(Text6(src, b, n)) else NoSpace
  {
    hide *;
    var words := CopyWords(src);
    var base, len := FindRun(words);
    b, n := base, len;
    RunBounds(words, base, len);
    Text6Length(src, base, len);
    Text6End(src, base, len);
    var tp := "";
    var i := 0;
    PrintedNext(words, base, len, 0);
    while i < 8
      invariant i <= 8 && tp == Printed(words, base, len, i)
      invariant base == 0 && Embeds(words, base, len) ==> i <= 6
    {
      PrintedNext(words, base, len, i);
      EmbedsOnly(words, base, len);
      // inside the run of zeros only its first word shows
      if base != -1 && base <= i < base + len {
        if i == base { tp := tp + ":"; }
        i := i + 1;
        continue;
      }
      // a run of seven words would include word 6, so the source's test for it never succeeds here
      if i == 6 && base == 0 && (len == 6 || (len == 5 && words[5] == 0xffff)) {
        tp := tp + ":";
        PrintedSix(words, len);
        ShortPrefix(words, len);
        Text4Length(src[12..]);
        BufferSize();
        var four := Ntop4(src[12..], INET6_ADDRSTRLEN - |tp|);
        tp := tp + four.value;
        break;
      }
      if i != 0 { tp := tp + ":"; }
      tp := tp + Hex(words[i]);
      i := i + 1;
    }
    EmbedsOnly(words, base, len);
    if base != -1 && base + len == 8 { tp := tp + ":"; }
    if |tp| + 1 > size { return NoSpace, b, n; }
    return Ok(tp), b, n;
  }

  lemma BufferSize()
    ensures INET6_ADDRSTRLEN == 46
  {
  }

  lemma RunBounds(w: seq<Word>, b: int, n: nat)
    requires BestRun(w, b, n)
    ensures b >= -1 && (b >= 0 ==> n >= 2 && b + n <= |w| && ZeroRun(w, b, n))
  {
  }

  lemma EmbedsOnly(w: seq<Word>, b: int, n: nat)
    requires |w| == 8
    ensures Embeds(w, b, n) <==> b == 0 && (n == 6 || (n == 5 && w[5] == 0xffff))
  {
  }

  lemma PrintedSix(w: seq<Word>, n: nat)
    requires |w| == 8 && (n == 5 || n == 6)
    ensures Printed(w, 0, n, 6) == ":" + Coloned(w[n..6])
  {
    ColonedStart();
    assert w[..0] == [] && w[6..6] == [];
    hide Joined, Coloned;
  }

  lemma ShortPrefix(w: seq<Word>, n: nat)
    requires |w| == 8 && (n == 5 || n == 6)
    ensures |Coloned(w[n..6])| <= 5
  {
    ColonedLength(w[n..6]);
    hide Coloned;
  }

  lemma PrintedAll(w: seq<Word>, b: int, n: nat)
    requires |w| == 8 && (b >= 0 ==> n > 0 && b + n <= 8)
    ensures Printed(w, b, n, 8) == if b < 0 then Joined(w) else Joined(w[..b]) + ":" + Coloned(w[b + n..])
  {
    ColonedStart();
    assert w[..8] == w && w[8..] == [];
    hide Joined, Coloned;
  }

  /** The text, as the loop and what follows it put it together. */
  lemma Text6End(a: seq<Byte>, b: int, n: nat)
    requires |a| == 16 && (b >= 0 ==> n > 0 && b + n <= 8)
    ensures var w := Words(a);
      Text6(a, b, n) == if b >= 0 && Embeds(w, b, n) then Printed(w, b, n, 6) + ":" + Text4(a[12..])
        else if b >= 0 && b + n == 8 then Printed(w, b, n, 8) + ":" else Printed(w, b, n, 8)
  {
    hide *;
    var w := Words(a);
    Text6Is(a, b, n);
    PrintedAll(w, b, n);
    if b >= 0 {
      EmbedsOnly(w, b, n);
      if Embeds(w, b, n) { PrintedSix(w, n); }
      assert w[b + n..] == [] <==> b + n == 8;
      assert Joined(w[..b]) + ":" + Coloned(w[b + n..]) + "" == Joined(w[..b]) + ":" + Coloned(w[b + n..]);
    }
  }

  /** A run of seven zero words is never followed by a dotted end. */
  lemma SevenZeros(a: seq<Byte>)
    requires |a| == 16 && BestRun(Words(a), 0, 7)
    ensures Text6(a, 0, 7) == "::" + Hex(WordOf(a, 7))
  {
    var w := Words(a);
    Text6Is(a, 0, 7);
    ColonedStart();
    hide Joined, Text6, Hex;
    assert w[..0] == [] && w[7..] == [WordOf(a, 7)] && w[7..][..0] == [];
    assert "" + ":" + Coloned(w[7..]) + "" == ":" + Coloned(w[7..]);
    assert Coloned(w[7..]) == "" + ":" + Hex(WordOf(a, 7));
  }

  // ---- Reading

  /** inet_pton4: it accepts exactly what inet_ntop4 prints. */
  method Pton4(s: string) returns (r: Result<seq<Byte>>)
    ensures r == Parse4(s)
  {
    hide *;
    var tmp := new Byte[4](_ => 0);
    var tp: nat, saw, octets: nat := 0, false, 0;
    var i := 0;
    ParseIs(s);
    assert tmp[..0] == [] && s[0..] == s;
    while i < |s|
      invariant i <= |s| && tp <= 3 && octets == tp + if saw then 1 else 0
      invariant Read4(s[i..], tmp[..tp], tmp[tp], saw) == Parse4(s)
    {
      var ch := s[i];
      Read4Is(s[i..], tmp[..tp], tmp[tp], saw);
      assert s[i..][1..] == s[i + 1..];
      if '0' <= ch <= '9' {
        var nw := tmp[tp] * 10 + HexVal(ch);
        if saw && tmp[tp] == 0 { return Invalid; }
        if nw > 255 { return Invalid; }
        ghost var was := tmp[..tp];
        tmp[tp] := nw;
        assert tmp[..tp] == was;
        if !saw {
          octets := octets + 1;
          if octets > 4 { return Invalid; }
          saw := true;
        }
      } else if ch == '.' && saw {
        if octets == 4 { return Invalid; }
        ghost var was := tmp[..tp] + [tmp[tp]];
        tp := tp + 1;
        tmp[tp] := 0;
        assert tmp[..tp] == was;
        saw := false;
      } else {
        return Invalid;
      }
      i := i + 1;
    }
    Read4Is(s[i..], tmp[..tp], tmp[tp], saw);
    if octets < 4 { return Invalid; }
    assert tmp[..] == tmp[..3] + [tmp[3]];
    return Ok(tmp[..]);
  }

  /** The end of inet_pton6: what came after the double colon moves to the end, in place. */
  method Spread(tmp: array<Byte>, tp: nat, colonp: nat)
    requires tmp.Length == 16 && colonp <= tp < 16 && forall k :: tp <= k < 16 ==> tmp[k] == 0
    modifies tmp
    ensures tmp[..] == old(tmp[..colonp]) + Zeros(16 - tp) + old(tmp[colonp..tp])
  {
    var n := tp - colonp;
    for i := 1 to n + 1
      invariant forall k :: 0 <= k < 16 ==> tmp[k] == if k > 16 - i then old(tmp[k - (16 - tp)])
          else if k <= tp - i then old(tmp[k]) else 0
    {
      tmp[16 - i] := tmp[colonp + n - i];
      tmp[colonp + n - i] := 0;
    }
  }

  /** The last two bytes are stored, and the gap of the double colon is filled. */
  method Complete(tmp: array<Byte>, tp0: nat, colonp: int, seen: nat, val: nat) returns (r: Result<seq<Byte>>)
    requires tmp.Length == 16 && tp0 <= 16 && colonp <= tp0 && val < 65536 && forall k :: tp0 <= k < 16 ==> tmp[k] == 0
    modifies tmp
    ensures r == if seen == 0 then Finish(old(tmp[..tp0]), colonp) else if tp0 + 2 > 16 then Invalid
        else Finish(old(tmp[..tp0]) + Pair(val), colonp)
  {
    var tp := tp0;
    ghost var out := tmp[..tp0];
    if seen > 0 {
      if tp + 2 > 16 { return Invalid; }
      tmp[tp], tmp[tp + 1] := val / 256, val % 256;
      tp := tp + 2;
      assert tmp[..tp] == out + Pair(val);
    }
    hide Zeros;
    if colonp >= 0 {
      if tp == 16 { return Invalid; }
      ghost var all := tmp[..tp];
      assert all[..colonp] == tmp[..colonp] && all[colonp..] == tmp[colonp..tp];
      Spread(tmp, tp, colonp);
      tp := 16;
    }
    if tp != 16 { return Invalid; }
    assert tmp[..16] == tmp[..];
    return Ok(tmp[..]);
  }

  /** inet_pton6 */
  method Pton6(s: string) returns (r: Result<seq<Byte>>)
    ensures r == Parse6(s)
  {
    hide *;
    var tmp := new Byte[16](_ => 0);
    var tp: nat, colonp: int := 0, -1;
    var i: nat := 0;
    StartIs(s);
    if s != "" && s[0] == ':' {  // a leading double colon
      if !(|s| > 1 && s[1] == ':') { return Invalid; }
      i := 1;
    }
    var curtok: nat, seen: nat, val: nat := i, 0, 0;
    assert tmp[..0] == [] && s[0..] == s;
    ShortStart();
    while i < |s|
      invariant i <= |s| && curtok <= |s| && tp <= 16 && colonp <= tp && Short(seen, val)
      invariant forall k :: tp <= k < 16 ==> tmp[k] == 0
      invariant Read6(s[i..], tmp[..tp], colonp, s[curtok..], seen, val) == Parse6(s)
      decreases |s| - i
    {
      var ch := s[i];
      ShortBound(seen, val);
      Read6Is(s[i..], tmp[..tp], colonp, s[curtok..], seen, val);
      assert s[i..][1..] == s[i + 1..];
      i := i + 1;
      if HexVal(ch) >= 0 {
        HexBound(ch);
        ShortNext(seen, val, HexVal(ch));
        val := val * 16 + HexVal(ch);
        seen := seen + 1;
        if seen > 4 { return Invalid; }
        continue;
      }
      if ch == ':' {
        curtok := i;
        if seen == 0 {
          if colonp >= 0 { return Invalid; }
          colonp := tp;
          continue;
        } else if i == |s| {
          return Invalid;
        }
        if tp + 2 > 16 { return Invalid; }
        ghost var was := tmp[..tp] + Pair(val);
        tmp[tp], tmp[tp + 1] := val / 256, val % 256;
        tp := tp + 2;
        assert tmp[..tp] == was;
        seen, val := 0, 0;
        continue;
      }
      if ch == '.' && tp + 4 <= 16 {
        var four := Pton4(s[curtok..]);
        FourBytes(s[curtok..]);
        if four.Ok? {
          ghost var was := tmp[..tp] + four.value;
          tmp[tp], tmp[tp + 1], tmp[tp + 2], tmp[tp + 3] := four.value[0], four.value[1], four.value[2], four.value[3];
          tp := tp + 4;
          assert tmp[..tp] == was;
          r := Complete(tmp, tp, colonp, 0, 0);
          return;
        }
      }
      return Invalid;
    }
    ShortBound(seen, val);
    EndIs(s[i..], tmp[..tp], colonp, s[curtok..], seen, val);
    r := Complete(tmp, tp, colonp, seen, val);
  }

  lemma StartIs(s: string)
    ensures Parse6(s) == if s != ""
        && s[0] == ':' then (if |s| > 1 && s[1] == ':' then Read6(s[1..], [], -1, s[1..], 0, 0) else Invalid)
        else Read6(s, [], -1, s, 0, 0)
  {
    hide Read6;
  }

  // ---- The interface

  datatype Family = Inet | Inet6 | Other

  /** uv_inet_ntop */
  method UvNtop(af: Family, src: seq<Byte>, size: nat) returns (r: Result<string>)
    requires (af.Inet? ==> |src| == 4) && (af.Inet6? ==> |src| == 16)
    ensures af.Other? ==> r == NoFamily
    ensures af.Inet? ==> r == if |Text4(src)| < size then Ok(Text4(src)) else NoSpace
    ensures af.Inet6? ==>
        (r.Ok? ==> |r.value| < size && |r.value| <= 39 && Parse6(r.value) == Ok(src)) && (size >= 40 ==> r.Ok?)
        && (r.Ok? || r == NoSpace)
  {
    hide *;
    BufferSize();
    match af {
      case Inet => r := Ntop4(src, size);
      case Inet6 =>
        ghost var b, n;
        r, b, n := Ntop6(src, size);
        RunBounds(Words(src), b, n);
        Text6Length(src, b, n);
        InetGrammar.RoundTrip(src, b, n);
      case Other => return NoFamily;
    }
  }

  /** The text without a zone, which begins at the first '%'. */
  function Zoneless(s: string): string { if s == "" || s[0] == '%' then "" else [s[0]] + Zoneless(s[1..]) }

  /** uv_inet_pton */
  method UvPton(af: Family, src: string) returns (r: Result<seq<Byte>>)
    ensures af.Other? ==> r == NoFamily
    ensures af.Inet? ==> forall a: seq<Byte> :: |a| == 4 ==> (r == Ok(a) <==> src == Text4(a))
    ensures af.Inet6? ==> r == if '%' in src && |Zoneless(src)| > INET6_ADDRSTRLEN - 1 then Invalid
        else Parse6(Zoneless(src))
  {
    hide *;
    match af {
      case Inet =>
        r := Pton4(src);
        forall a: seq<Byte> | |a| == 4 ensures r == Ok(a) <==> src == Text4(a) { Parse4Exact(src, a); }
      case Inet6 =>
        var len: nat := 0;
        assert src[..0] == "" && src[0..] == src;
        while len < |src| && src[len] != '%'  // strchr
          invariant len <= |src| && '%' !in src[..len] && src[..len] + Zoneless(src[len..]) == Zoneless(src)
        {
          ZoneStep(src[len..]);
          assert src[len..][1..] == src[len + 1..] && src[..len + 1] == src[..len] + [src[len]];
          assert src[..len] + ([src[len]] + Zoneless(src[len + 1..])) == src[..len] + [src[len]]
              + Zoneless(src[len + 1..]);
          len := len + 1;
        }
        ZoneEnd(src[len..]);
        assert src[..len] + "" == src[..len];
        if len < |src| {
          assert src[len] in src;
          if len > INET6_ADDRSTRLEN - 1 { return Invalid; }
        } else {
          assert src[..len] == src;
        }
        r := Pton6(src[..len]);
      case Other => return NoFamily;
    }
  }

  lemma ZoneStep(s: string)
    requires s != "" && s[0] != '%'
    ensures Zoneless(s) == [s[0]] + Zoneless(s[1..])
  {
  }

  lemma ZoneEnd(s: string)
    requires s != "" ==> s[0] == '%'
    ensures Zoneless(s) == ""
  {
  }

  /** Printing an address and reading the text gives the address back. */
  method RoundTrip(a: seq<Byte>) returns (r: Result<seq<Byte>>)
    requires |a| == 16
    ensures r == Ok(a)
  {
    var t := UvNtop(Inet6, a, INET6_ADDRSTRLEN);
    r := Pton6(t.value);
  }
}
