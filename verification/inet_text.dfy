/** Internet addresses and their texts (inet.c of libuv; RFC 4291, section 2.2, and RFC 5952, section 4). */
module InetText {

  type Byte = x: int | 0 <= x < 256
  type Word = x: int | 0 <= x < 65536

  datatype Result<T> = Ok(value: T) | NoSpace | Invalid | NoFamily

  // ---- Numbers

  function Digit(d: nat): (c: char)
    requires d < 16
    ensures HexVal(c) == d && (d < 10 ==> '0' <= c <= '9') && c != ':'
  {
    if d < 10 then '0' + d as char else 'a' + (d - 10) as char
  }

  /** The value of a digit, or -1. */
  function HexVal(c: char): int {
    if '0' <= c <= '9' then (c - '0') as int
    else if 'a' <= c <= 'f' then (c - 'a') as int + 10
    else if 'A' <= c <= 'F' then (c - 'A') as int + 10
    else -1
  }

  /** A number in the given base, without leading zeros. */
  function Number(x: nat, base: nat): (s: string)
    requires 2 <= base <= 16
    ensures s != ""
  {
    if x < base then [Digit(x)] else Number(x / base, base) + [Digit(x % base)]
  }

  function Dec(b: Byte): string { Number(b, 10) }

  function Hex(w: Word): string { Number(w, 16) }

  lemma Lengths(b: Byte, w: Word)
    ensures |Dec(b)| <= 3 && |Hex(w)| <= 4
  {
    NumberLonger(b, 10);
    NumberLonger(b / 10, 10);
    NumberLonger(b / 100, 10);
    assert b / 10 / 10 == b / 100 < 10;
    NumberLonger(w, 16);
    NumberLonger(w / 16, 16);
    NumberLonger(w / 256, 16);
    NumberLonger(w / 4096, 16);
    assert w / 16 / 16 == w / 256 && w / 256 / 16 == w / 4096 < 16;
    hide Number;
  }

  lemma NumberLonger(x: nat, base: nat)
    requires 2 <= base <= 16
    ensures |Number(x, base)| == if x < base then 1 else |Number(x / base, base)| + 1
  {
  }

  // ---- Texts of 32 bits

  /** Every number with a dot after it. */
  function Dotted(a: seq<Byte>): string { if a == [] then "" else Dotted(a[..|a| - 1]) + Dec(a[|a| - 1]) + "." }

  function Text4(a: seq<Byte>): string
    requires |a| == 4
  {
    Dotted(a[..3]) + Dec(a[3])
  }

  lemma Text4Length(a: seq<Byte>)
    requires |a| == 4
    ensures |Text4(a)| <= 15
  {
    assert a[..3][..2] == a[..2] && a[..2][..1] == a[..1] && a[..1][..0] == [];
    Lengths(a[0], 0);
    Lengths(a[1], 0);
    Lengths(a[2], 0);
    Lengths(a[3], 0);
    hide Dec;
    assert |Dotted(a[..1])| <= 4 && |Dotted(a[..2])| <= 8 && |Dotted(a[..3])| <= 12;
  }

  // ---- Words

  function WordOf(a: seq<Byte>, k: nat): Word
    requires 2 * k + 1 < |a|
  {
    var hi: int, lo: int := a[2 * k], a[2 * k + 1];
    hi * 256 + lo
  }

  function Words(a: seq<Byte>): (w: seq<Word>)
    requires |a| == 16
    ensures |w| == 8
  {
    seq(8, k requires 0 <= k < 8 => WordOf(a, k))
  }

  function Bytes(w: seq<Word>): (a: seq<Byte>)
    ensures |a| == 2 * |w|
  {
    if w == [] then [] else Bytes(w[..|w| - 1]) + Pair(w[|w| - 1])
  }

  function Pair(v: Word): (p: seq<Byte>)
    ensures p == [v / 256, v % 256]
  {
    var hi: Byte, lo: Byte := v / 256, v % 256;
    [hi, lo]
  }

  lemma {:induction false} BytesAt(w: seq<Word>, k: nat)
    requires k < |w|
    ensures Bytes(w)[2 * k] == w[k] / 256 && Bytes(w)[2 * k + 1] == w[k] % 256
  {
    if k < |w| - 1 { BytesAt(w[..|w| - 1], k); }
  }

  lemma BytesOfWords(a: seq<Byte>)
    requires |a| == 16
    ensures Bytes(Words(a)) == a
  {
    forall i | 0 <= i < 16 ensures Bytes(Words(a))[i] == a[i] {
      BytesAt(Words(a), i / 2);
      assert Words(a)[i / 2] == WordOf(a, i / 2);
    }
  }

  lemma {:induction false} BytesConcat(v: seq<Word>, w: seq<Word>)
    ensures Bytes(v + w) == Bytes(v) + Bytes(w)
  {
    if w == [] {
      assert v + w == v;
    } else {
      assert (v + w)[..|v + w| - 1] == v + w[..|w| - 1];
      BytesConcat(v, w[..|w| - 1]);
    }
  }

  function Zeros(n: nat): (z: seq<Byte>)
    ensures |z| == n && forall k :: 0 <= k < n ==> z[k] == 0
  {
    if n == 0 then [] else Zeros(n - 1) + [0]
  }

  lemma {:induction false} BytesZero(w: seq<Word>)
    requires forall k :: 0 <= k < |w| ==> w[k] == 0
    ensures Bytes(w) == Zeros(2 * |w|)
  {
    forall i | 0 <= i < 2 * |w| ensures Bytes(w)[i] == 0 { BytesAt(w, i / 2); }
  }

  // ---- Runs of zeros

  /** n words from b on are zero. */
  predicate ZeroRun(w: seq<Word>, b: nat, n: nat) { b + n <= |w| && forall k :: b <= k < b + n ==> w[k] == 0 }

  /**
   * The first of the longest runs of at least two zeros; b is -1 if there is none (RFC 5952, sections 4.2.2 and 4.2.3).
   */
  ghost predicate BestRun(w: seq<Word>, b: int, n: nat) {
    if b < 0 then b == -1 && forall c: nat {:trigger ZeroRun(w, c, 2)} :: !ZeroRun(w, c, 2)
    else
      && n >= 2 && ZeroRun(w, b, n)
      && forall c: nat, m: nat {:trigger ZeroRun(w, c, m)} ::
          ZeroRun(w, c, m) && m > 0 ==> m <= n && (m == n ==> b <= c)
  }

  // ---- Texts of 128 bits

  /** Every word with a colon before it. */
  function Coloned(w: seq<Word>): string { if w == [] then "" else Coloned(w[..|w| - 1]) + ":" + Hex(w[|w| - 1]) }

  /** The words with colons between them. */
  function Joined(w: seq<Word>): string { if w == [] then "" else Coloned(w)[1..] }

  /** An address that stands for one of 32 bits ends like it: six zero words, or five and a word of ones. */
  predicate Embeds(w: seq<Word>, b: int, n: nat)
    requires |w| == 8
  {
    b == 0 && (n == 6 || (n == 5 && w[5] == 0xffff))
  }

  /** The text of an address whose run of n zero words at b is left out. */
  function Text6(a: seq<Byte>, b: int, n: nat): string
    requires |a| == 16 && (b >= 0 ==> b + n <= 8)
  {
    var w := Words(a);
    if b < 0 then Joined(w)
    else if Embeds(w, b, n) then ":" + Coloned(w[n..6]) + ":" + Text4(a[12..])
    else Joined(w[..b]) + ":" + Coloned(w[b + n..]) + if b + n == 8 then ":" else ""
  }

  // ---- The characters of a text: no letter is a capital, no number has a zero in front

  predicate Lower(s: string) { forall i :: 0 <= i < |s| ==> s[i] in "0123456789abcdef.:" }

  lemma DigitLower(d: nat)
    requires d < 16
    ensures Digit(d) in "0123456789abcdef.:" && (Digit(d) == '0' ==> d == 0)
  {
    assert Digit(d) == "0123456789abcdef.:"[d];
  }

  lemma NumberParts(x: nat, base: nat)
    requires 2 <= base <= x && base <= 16
    ensures x / base > 0 && Number(x, base) == Number(x / base, base) + [Digit(x % base)]
  {
  }

  lemma {:induction false} NumberLower(x: nat, base: nat)
    requires 2 <= base <= 16
    ensures Lower(Number(x, base)) && (Number(x, base)[0] == '0' ==> x == 0 && |Number(x, base)| == 1)
  {
    if x < base {
      DigitLower(x);
    } else {
      NumberLower(x / base, base);
      DigitLower(x % base);
      hide Digit, Number;
      NumberParts(x, base);
    }
  }

  lemma {:induction false} DottedLower(a: seq<Byte>)
    ensures Lower(Dotted(a))
  {
    if a != [] {
      DottedLower(a[..|a| - 1]);
      NumberLower(a[|a| - 1], 10);
    }
  }

  lemma {:induction false} ColonedLower(w: seq<Word>)
    ensures Lower(Coloned(w)) && Lower(Joined(w))
  {
    if w != [] {
      ColonedLower(w[..|w| - 1]);
      NumberLower(w[|w| - 1], 16);
    }
  }

  /** Texts of addresses have lower-case digits, colons and dots only (RFC 5952, section 4.3). */
  lemma TextLower(a: seq<Byte>, b: int, n: nat)
    requires |a| == 16 && (b >= 0 ==> b + n <= 8)
    ensures Lower(Text6(a, b, n)) && Lower(Text4(a[12..]))
  {
    var w := Words(a);
    DottedLower(a[12..][..3]);
    NumberLower(a[12..][3], 10);
    ColonedLower(w);
    if b >= 0 {
      ColonedLower(w[..b]);
      ColonedLower(w[b + n..]);
      if Embeds(w, b, n) { ColonedLower(w[n..6]); }
    }
    hide Coloned, Number, Words, Dotted;
  }

  lemma ColonedNext(w: seq<Word>, x: Word)
    ensures Coloned(w + [x]) == Coloned(w) + ":" + Hex(x)
    ensures Joined(w + [x]) == Joined(w) + (if w == [] then "" else ":") + Hex(x)
  {
    hide Hex;
    assert (w + [x])[..|w|] == w;
    if w != [] { assert Coloned(w) != ""; }
    hide Coloned;
  }

  lemma {:induction false} ColonedFirst(x: Word, w: seq<Word>)
    ensures Coloned([x] + w) == ":" + Joined([x] + w) && Joined([x] + w) == Hex(x) + Coloned(w)
  {
    hide *;
    ColonedStart();
    if w == [] {
      ColonedNext([], x);
      assert [] + [x] == [x] + w;
      assert Coloned([]) + ":" + Hex(x) == ":" + Hex(x);
    } else {
      var most, last := w[..|w| - 1], w[|w| - 1];
      ColonedFirst(x, most);
      ColonedNext(most, last);
      ColonedNext([x] + most, last);
      assert [x] + w == [x] + most + [last] && w == most + [last];
    }
  }

  lemma ColonedStart()
    ensures Coloned([]) == "" && Joined([]) == ""
  {
  }

  lemma {:induction false} ColonedLength(w: seq<Word>)
    ensures |Coloned(w)| <= 5 * |w| && (w != [] ==> |Joined(w)| < 5 * |w|)
  {
    if w != [] {
      ColonedLength(w[..|w| - 1]);
      Lengths(0, w[|w| - 1]);
      hide Hex;
    }
  }

  /** No text is longer than 39 characters, so a buffer of 46 has room for all of them. */
  lemma Text6Length(a: seq<Byte>, b: int, n: nat)
    requires |a| == 16 && BestRun(Words(a), b, n)
    ensures (b >= 0 ==> b + n <= 8) && |Text6(a, b, n)| <= 39
  {
    var w := Words(a);
    hide Words, Coloned, Joined;
    if b < 0 {
      ColonedLength(w);
    } else {
      Text4Length(a[12..]);
      ColonedLength(w[n..if n < 6 then 6 else n]);
      ColonedLength(w[..b]);
      ColonedLength(w[b + n..]);
      hide Text4;
      assert Embeds(w, b, n) ==> |Coloned(w[n..6])| <= 5;
    }
  }

  // ---- Reading a text of 32 bits

  /** The rest of a text, after the numbers of done and the digits that give cur. */
  function Read4(s: string, done: seq<Byte>, cur: Byte, saw: bool): Result<seq<Byte>> {
    if s == "" then (if |done| == 3 && saw then Ok(done + [cur]) else Invalid)
    else if '0' <= s[0] <= '9' then
      var x := cur * 10 + HexVal(s[0]);
      if (saw && cur == 0) || x > 255 then Invalid else Read4(s[1..], done, x, true)
    else if s[0] == '.' && saw && |done| < 3 then Read4(s[1..], done + [cur], 0, false)
    else Invalid
  }

  function Parse4(s: string): Result<seq<Byte>> { Read4(s, [], 0, false) }

  /** What has been read so far. */
  function Prefix4(done: seq<Byte>, cur: Byte, saw: bool): string { Dotted(done) + if saw then Dec(cur) else "" }

  lemma {:induction false} Read4Exact(s: string, done: seq<Byte>, cur: Byte, saw: bool)
    requires |done| <= 3 && (!saw ==> cur == 0)
    ensures var r := Read4(s, done, cur, saw); r.Ok? ==> |r.value| == 4 && Prefix4(done, cur, saw) + s == Text4(r.value)
    ensures !Read4(s, done, cur, saw).NoSpace? && !Read4(s, done, cur, saw).NoFamily?
    decreases |s|
  {
    hide *;
    Read4Is(s, done, cur, saw);
    if s == "" {
      if |done| == 3 && saw { PrefixEnd(done, cur); }
    } else {
      assert s == [s[0]] + s[1..];
      if '0' <= s[0] <= '9' {
        var x := cur * 10 + HexVal(s[0]);
        if !(saw && cur == 0) && x <= 255 {
          Read4Exact(s[1..], done, x, true);
          PrefixDigit(done, cur, s[0], saw);
          assert Prefix4(done, cur, saw) + [s[0]] + s[1..] == Prefix4(done, cur, saw) + s;
        }
      } else if s[0] == '.' && saw && |done| < 3 {
        Read4Exact(s[1..], done + [cur], 0, false);
        PrefixDot(done, cur);
        assert Prefix4(done, cur, saw) + "." + s[1..] == Prefix4(done, cur, saw) + s;
      }
    }
  }

  lemma Read4Is(s: string, done: seq<Byte>, cur: Byte, saw: bool)
    ensures s == "" ==> Read4(s, done, cur, saw) == if |done| == 3 && saw then Ok(done + [cur]) else Invalid
    ensures s != "" && '0' <= s[0] <= '9' ==> HexVal(s[0]) >= 0 && var x := cur * 10 + HexVal(s[0]);
        Read4(s, done, cur, saw) == if (saw && cur == 0) || x > 255 then Invalid else Read4(s[1..], done, x, true)
    ensures s != "" && !('0' <= s[0] <= '9') ==> Read4(s, done, cur, saw) == if s[0] == '.' && saw
        && |done| < 3 then Read4(s[1..], done + [cur], 0, false) else Invalid
  {
  }

  lemma PrefixEnd(done: seq<Byte>, cur: Byte)
    requires |done| == 3
    ensures Prefix4(done, cur, true) + "" == Text4(done + [cur])
  {
    assert (done + [cur])[..3] == done;
  }

  lemma PrefixDigit(done: seq<Byte>, cur: Byte, c: char, saw: bool)
    requires '0' <= c <= '9' && (saw ==> cur > 0) && (!saw ==> cur == 0) && cur * 10 + HexVal(c) <= 255
    ensures Prefix4(done, cur * 10 + HexVal(c), true) == Prefix4(done, cur, saw) + [c]
  {
    MoreDigits(cur, c, saw);
    hide Dec, Dotted, HexVal;
  }

  lemma PrefixDot(done: seq<Byte>, cur: Byte)
    ensures Prefix4(done + [cur], 0, false) == Prefix4(done, cur, true) + "."
  {
    assert (done + [cur])[..|done|] == done;
  }

  lemma MoreDigits(cur: Byte, c: char, saw: bool)
    requires '0' <= c <= '9' && (saw ==> cur > 0) && (!saw ==> cur == 0) && cur * 10 + HexVal(c) <= 255
    ensures Dec(cur * 10 + HexVal(c)) == (if saw then Dec(cur) else "") + [c]
  {
    var x := cur * 10 + HexVal(c);
    assert x / 10 == cur && x % 10 == HexVal(c) && Digit(HexVal(c)) == c;
  }

  lemma {:induction false} ReadNumber(x: nat, rest: string, done: seq<Byte>)
    requires x <= 255 && |done| <= 3
    ensures Read4(Number(x, 10) + rest, done, 0, false) == Read4(rest, done, x, true)
    decreases x
  {
    var d := [Digit(x % 10)];
    assert (d + rest)[1..] == rest;
    if x < 10 {
      assert Number(x, 10) == d;
    } else {
      ReadNumber(x / 10, d + rest, done);
      assert Number(x, 10) + rest == Number(x / 10, 10) + (d + rest);
    }
  }

  lemma ReadDotted(x: Byte, rest: string, done: seq<Byte>)
    requires |done| < 3
    ensures Read4(Dec(x) + "." + rest, done, 0, false) == Read4(rest, done + [x], 0, false)
  {
    var t := "." + rest;
    assert Dec(x) + "." + rest == Dec(x) + t && t[1..] == rest;
    ReadNumber(x, t, done);
  }

  /** A text is read as an address exactly if it is what is printed for that address. */
  lemma Parse4Exact(s: string, a: seq<Byte>)
    requires |a| == 4
    ensures Parse4(s) == Ok(a) <==> s == Text4(a)
  {
    hide *;
    Read4Exact(s, [], 0, false);
    assert Prefix4([], 0, false) + s == s by { PrefixEmpty(); }
    ParseIs(s);
    var t3 := Dec(a[3]);
    var t2 := Dec(a[2]) + "." + t3;
    var t1 := Dec(a[1]) + "." + t2;
    DottedThree(a);
    assert Text4(a) == Dec(a[0]) + "." + t1;
    ReadDotted(a[0], t1, []);
    ReadDotted(a[1], t2, [a[0]]);
    ReadDotted(a[2], t3, [a[0], a[1]]);
    ReadLast(a[3], [a[0], a[1], a[2]]);
    assert [] + [a[0]] == [a[0]] && [a[0]] + [a[1]] == [a[0], a[1]] && [a[0], a[1]] + [a[2]] == [a[0], a[1], a[2]];
    assert [a[0], a[1], a[2]] + [a[3]] == a;
  }

  lemma PrefixEmpty()
    ensures Prefix4([], 0, false) == ""
  {
  }

  lemma ParseIs(s: string)
    ensures Parse4(s) == Read4(s, [], 0, false)
  {
  }

  lemma ReadLast(x: Byte, done: seq<Byte>)
    requires |done| == 3
    ensures Read4(Dec(x), done, 0, false) == Ok(done + [x])
  {
    ReadNumber(x, "", done);
    assert Dec(x) + "" == Dec(x);
  }

  lemma DottedThree(a: seq<Byte>)
    requires |a| == 4
    ensures Text4(a) == Dec(a[0]) + "." + (Dec(a[1]) + "." + (Dec(a[2]) + "." + Dec(a[3])))
  {
    assert a[..3][..2] == a[..2] && a[..2][..1] == a[..1] && a[..1][..0] == [];
    hide Dec;
    assert Dotted(a[..1]) == Dec(a[0]) + ".";
    assert Dotted(a[..2]) == Dotted(a[..1]) + Dec(a[1]) + ".";
    assert Dotted(a[..3]) == Dotted(a[..2]) + Dec(a[2]) + ".";
  }

  // ---- Reading a text of 128 bits

  /** The end of a text: zeros take the place of the double colon. */
  function Finish(out: seq<Byte>, colon: int): (r: Result<seq<Byte>>)
    requires colon <= |out|
    ensures r.Ok? ==> |r.value| == 16
  {
    if colon >= 0 then
      if |out| >= 16 then Invalid else Ok(out[..colon] + Zeros(16 - |out|) + out[colon..])
    else if |out| != 16 then Invalid else Ok(out)
  }

  /**
   * The rest of a text, with the bytes so far, the place of the double colon or -1, the text since the last colon, and
   * the digits since then and their value.
   */
  function Read6(s: string, out: seq<Byte>, colon: int, tok: string, seen: nat, val: nat): Result<seq<Byte>>
    requires colon <= |out|
    decreases |s|
  {
    if s == "" then
      if seen == 0 then Finish(out, colon) else if |out| + 2 > 16 || val >= 65536 then Invalid
          else Finish(out + Pair(val), colon)
    else if HexVal(s[0]) >= 0 then
      if seen >= 4 then Invalid else Read6(s[1..], out, colon, tok, seen + 1, val * 16 + HexVal(s[0]))
    else if s[0] == ':' then
      if seen == 0 then (if colon >= 0 then Invalid else Read6(s[1..], out, |out|, s[1..], 0, val))
      else if s[1..] == "" || |out| + 2 > 16 || val >= 65536 then Invalid
      else Read6(s[1..], out + Pair(val), colon, s[1..], 0, 0)
    else if s[0] == '.' && |out| + 4 <= 16 && Parse4(tok).Ok? then Finish(out + Parse4(tok).value, colon)
    else Invalid
  }

  function Parse6(s: string): Result<seq<Byte>> {
    if s != "" && s[0] == ':' then
      if |s| > 1 && s[1] == ':' then Read6(s[1..], [], -1, s[1..], 0, 0) else Invalid
    else Read6(s, [], -1, s, 0, 0)
  }

  // ---- Single steps of reading, and parts of addresses

  lemma NumberIs(x: nat, base: nat)
    requires base == 10 || base == 16
    ensures Number(x, base) == if x < base then [Digit(x % base)] else Number(x / base, base) + [Digit(x % base)]
    ensures x < base ==> x % base == x
    ensures x >= base ==> base == 16 ==> x == (x / base) * 16 + x % base
    ensures x >= base ==> x / base < x
  {
    hide Digit;
    if base == 16 { assert x == x / 16 * 16 + x % 16; }
  }

  lemma ReadDigit(c: char, rest: string, out: seq<Byte>, colon: int, tok: string, seen: nat, v: nat)
    requires colon <= |out| && HexVal(c) >= 0 && seen < 4
    ensures Read6([c] + rest, out, colon, tok, seen, v) == Read6(rest, out, colon, tok, seen + 1, v * 16 + HexVal(c))
  {
    assert ([c] + rest)[1..] == rest;
  }

  /** A colon after a word, and not at the end. */
  lemma ReadColon(rest: string, out: seq<Byte>, colon: int, tok: string, seen: nat, v: Word)
    requires colon <= |out| && seen > 0 && rest != "" && |out| + 2 <= 16
    ensures Read6(":" + rest, out, colon, tok, seen, v) == Read6(rest, out + Pair(v), colon, rest, 0, 0)
  {
    assert (":" + rest)[1..] == rest;
  }

  /** The second of two colons. */
  lemma ReadDouble(rest: string, out: seq<Byte>, tok: string)
    ensures Read6(":" + rest, out, -1, tok, 0, 0) == Read6(rest, out, |out|, rest, 0, 0)
  {
    assert (":" + rest)[1..] == rest;
  }

  lemma ReadEnd(out: seq<Byte>, colon: int, tok: string, seen: nat, v: Word)
    requires colon <= |out|
    ensures Read6("", out, colon, tok, 0, v) == Finish(out, colon)
    ensures seen > 0 && |out| + 2 <= 16 ==> Read6("", out, colon, tok, seen, v) == Finish(out + Pair(v), colon)
  {
  }

  lemma BytesOne(v: Word)
    ensures Bytes([v]) == Pair(v) && Bytes([]) == []
  {
  }

  lemma HexIs(x: Word)
    ensures Hex(x) == Number(x, 16)
  {
  }

  lemma FinishRun(a: seq<Byte>, b: nat, n: nat)
    requires |a| == 16 && n >= 1 && ZeroRun(Words(a), b, n)
    ensures b + n <= 8 && Finish(Bytes(Words(a)[..b]) + Bytes(Words(a)[b + n..]), 2 * b) == Ok(a)
  {
    var w := Words(a);
    BytesOfWords(a);
    BytesZero(w[b..b + n]);
    hide *;
    BytesParts(w, b, n);
    FinishSplit(Bytes(w[..b]), Bytes(w[b + n..]));
  }

  lemma BytesParts(w: seq<Word>, b: nat, n: nat)
    requires b + n <= |w|
    ensures Bytes(w) == Bytes(w[..b]) + Bytes(w[b..b + n]) + Bytes(w[b + n..])
  {
    hide *;
    Parts(w, b, n);
    BytesConcat(w[..b], w[b..b + n]);
    BytesConcat(w[..b + n], w[b + n..]);
  }

  lemma Parts<T>(w: seq<T>, b: nat, n: nat)
    requires b + n <= |w|
    ensures w[..b] + w[b..b + n] == w[..b + n] && w[..b + n] + w[b + n..] == w
  {
  }

  lemma FinishSplit(x: seq<Byte>, y: seq<Byte>)
    requires |x| + |y| < 16
    ensures Finish(x + y, |x|) == Ok(x + Zeros(16 - |x| - |y|) + y)
  {
    hide Zeros;
    assert (x + y)[..|x|] == x && (x + y)[|x|..] == y;
  }

  lemma DecIs(x: Byte)
    ensures Dec(x) == Number(x, 10)
  {
  }

  lemma ReadDot(rest: string, out: seq<Byte>, colon: int, tok: string, seen: nat, v: nat)
    requires colon <= |out| <= 12 && Parse4(tok).Ok?
    ensures Read6("." + rest, out, colon, tok, seen, v) == Finish(out + Parse4(tok).value, colon)
  {
    hide Parse4, Finish;
  }

  lemma WordsGap(v: seq<Word>, w: seq<Word>)
    ensures Joined(v) + ":" + Coloned(w) + (if w == [] then ":" else "") == Joined(v) + "::" + Joined(w)
  {
    hide *;
    ColonedStart();
    if w != [] {
      ColonedFirst(w[0], w[1..]);
      assert w == [w[0]] + w[1..];
    }
    assert Coloned(w) + (if w == [] then ":" else "") == ":" + Joined(w);
    assert Joined(v) + ":" + Coloned(w) + (if w == [] then ":" else "") == Joined(v) + ":"
        + (Coloned(w) + (if w == [] then ":" else ""));
    assert Joined(v) + ":" + (":" + Joined(w)) == Joined(v) + "::" + Joined(w);
  }

  lemma RunInside(w: seq<Word>, b: int, n: nat)
    requires b >= 0 ==> ZeroRun(w, b, n)
    ensures b >= 0 ==> b + n <= |w|
  {
  }

  /** The words in hexadecimal, two colons for the run that is left out, and a dotted end for addresses of 32 bits. */
  lemma Text6Shape(a: seq<Byte>, b: int, n: nat)
    requires |a| == 16 && (b >= 0 ==> b + n <= 8)
    ensures var w := Words(a);
      && (b < 0 ==> Text6(a, b, n) == Joined(w))
      && (b == 0 && n == 6 ==> Text6(a, b, n) == "::" + Text4(a[12..]))
      && (b == 0 && n == 5 && w[5] == 0xffff ==> Text6(a, b, n) == "::ffff:" + Text4(a[12..]))
      && (b >= 0 && !(b == 0 && (n == 6 || (n == 5 && w[5] == 0xffff))) ==>
            Text6(a, b, n) == Joined(w[..b]) + "::" + Joined(w[b + n..]))
  {
    var w := Words(a);
    Text6Is(a, b, n);
    ColonedStart();
    if b >= 0 && !Embeds(w, b, n) { WordsGap(w[..b], w[b + n..]); }
    if b == 0 && n == 6 { assert w[6..6] == []; }
    if b == 0 && n == 5 && w[5] == 0xffff {
      assert w[5..6] == [0xffff];
      ColonedNext([], 0xffff);
      WordOfOnes();
    }
    hide Words, Coloned, Joined, Text4, Text6, Hex;
  }

  lemma WordOfOnes()
    ensures Hex(0xffff) == "ffff"
  {
    assert Number(0xf, 16) == "f" && Number(0xff, 16) == "ff" && Number(0xfff, 16) == "fff";
  }

  lemma Text6Is(a: seq<Byte>, b: int, n: nat)
    requires |a| == 16 && (b >= 0 ==> b + n <= 8)
    ensures var w := Words(a);
      Text6(a, b, n) == if b < 0 then Joined(w)
        else if Embeds(w, b, n) then ":" + Coloned(w[n..6]) + ":" + Text4(a[12..])
        else Joined(w[..b]) + ":" + Coloned(w[b + n..]) + if w[b + n..] == [] then ":" else ""
  {
    hide Words, Coloned, Joined, Text4;
  }

  lemma EmbedsIs(w: seq<Word>, b: int, n: nat)
    requires |w| == 8 && Embeds(w, b, n)
    ensures b == 0 && (n == 5 || n == 6)
  {
  }

  lemma LastFour(a: seq<Byte>)
    requires |a| == 16
    ensures Bytes(Words(a)[6..]) == a[12..]
  {
    var w := Words(a);
    BytesOfWords(a);
    BytesConcat(w[..6], w[6..]);
    assert w[..6] + w[6..] == w;
    hide Bytes, Words;
  }

  lemma ParseWhole(s: string)
    ensures s == "" || s[0] != ':' ==> Parse6(s) == Read6(s, [], -1, s, 0, 0)
    ensures s != "" && s[0] == ':' && (|s| == 1 || s[1] != ':') ==> Parse6(s) == Invalid
  {
    hide Read6;
  }

  lemma Read6Is(s: string, out: seq<Byte>, colon: int, tok: string, seen: nat, val: nat)
    requires s != "" && colon <= |out| <= 16 && val < 65536
    ensures Read6(s, out, colon, tok, seen, val) ==
      if HexVal(s[0]) >= 0 then
          (if seen >= 4 then Invalid else Read6(s[1..], out, colon, tok, seen + 1, val * 16 + HexVal(s[0])))
      else if s[0] == ':' then
        if seen == 0 then (if colon >= 0 then Invalid else Read6(s[1..], out, |out|, s[1..], 0, val))
        else if s[1..] == "" || |out| + 2 > 16 then Invalid
        else Read6(s[1..], out + Pair(val), colon, s[1..], 0, 0)
      else if s[0] == '.' && |out| + 4 <= 16 && Parse4(tok).Ok? then Finish(out + Parse4(tok).value, colon)
      else Invalid
  {
    hide HexVal, Parse4, Finish;
  }

  lemma EndIs(s: string, out: seq<Byte>, colon: int, tok: string, seen: nat, val: nat)
    requires s == "" && colon <= |out| <= 16 && val < 65536
    ensures Read6(s, out, colon, tok, seen, val) == if seen == 0 then Finish(out, colon) else if |out| + 2 > 16 then
        Invalid else Finish(out + Pair(val), colon)
  {
    hide Finish;
  }

  lemma FourBytes(s: string)
    ensures Parse4(s).Ok? ==> |Parse4(s).value| == 4
  {
    Read4Exact(s, [], 0, false);
    hide Read4;
  }

  lemma HexBound(c: char)
    ensures HexVal(c) < 16
  {
  }

  lemma ShortBound(seen: nat, val: nat)
    requires Short(seen, val)
    ensures val < 65536 && seen <= 4 && (seen == 0 ==> val == 0)
  {
  }

  lemma ShortNext(seen: nat, val: nat, d: nat)
    requires Short(seen, val) && d < 16
    ensures seen < 4 ==> Short(seen + 1, val * 16 + d)
  {
  }

  lemma ShortStart()
    ensures Short(0, 0)
  {
  }

  /** The value of so many hexadecimal digits. */
  predicate Short(seen: nat, val: nat) {
    seen <= 4 && val < (if seen == 0 then 1 else if seen == 1 then 16 else if seen == 2 then 256 else if seen == 3 then
        4096 else 65536)
  }
}
