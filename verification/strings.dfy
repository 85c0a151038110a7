/** The table of short strings (lstring.c): one object for each text, found by hash, rehashed in place. */
module Strings {
  import opened Powers

  type Ref = int

  const NULL: Ref := 0
  const MAX_INT := 0x7fff_ffff

  /** A list linked by next, with its first object. */
  ghost predicate Chain(next: map<Ref, Ref>, head: Ref, list: seq<Ref>) {
    && head == (if list == [] then NULL else list[0])
    && (forall k {:trigger list[k]} :: 0 <= k < |list| ==>
        list[k] != NULL && list[k] in next && next[list[k]] == if k + 1 < |list| then list[k + 1] else NULL)
  }

  ghost predicate Distinct(list: seq<Ref>) {
    forall i, j {:trigger list[i], list[j]} :: 0 <= i < j < |list| ==> list[i] != list[j]
  }

  lemma ChainTail(next: map<Ref, Ref>, head: Ref, list: seq<Ref>)
    requires Chain(next, head, list) && Distinct(list) && list != []
    ensures head != NULL && head == list[0] && head in next && Chain(next, next[head], list[1..]) && Distinct(list[1..])
        && head !in list[1..]
  {
    var t := list[1..];
    assert list[0] == head;
    forall k | 0 <= k < |t| ensures t[k] != NULL && t[k] in next && t[k] != head && next[t[k]] == if k + 1 < |t| then
        t[k + 1] else NULL {
      assert t[k] == list[k + 1] && (k + 1 < |t| ==> t[k + 1] == list[k + 2]);
    }
    forall i, j {:trigger t[i], t[j]} | 0 <= i < j < |t| ensures t[i] != t[j] {
      assert t[i] == list[i + 1] && t[j] == list[j + 1];
    }
    hide Distinct;
  }

  lemma ChainPush(next: map<Ref, Ref>, head: Ref, list: seq<Ref>, p: Ref)
    requires Chain(next, head, list) && Distinct(list) && p != NULL && p !in list
    ensures Chain(next[p := head], p, [p] + list) && Distinct([p] + list)
  {
    var t := [p] + list;
    forall k | 0 <= k < |t| ensures t[k] != NULL && t[k] in next[p := head] && next[p := head][t[k]]
        == if k + 1 < |t| then t[k + 1] else NULL {
      if k > 0 { assert t[k] == list[k - 1] && list[k - 1] in list; }
    }
    forall i, j {:trigger t[i], t[j]} | 0 <= i < j < |t| ensures t[i] != t[j] {
      assert t[j] == list[j - 1] && list[j - 1] in list;
      if i > 0 { assert t[i] == list[i - 1]; }
    }
  }

  lemma ChainKept(next: map<Ref, Ref>, head: Ref, list: seq<Ref>, p: Ref, v: Ref)
    requires Chain(next, head, list) && p !in list
    ensures Chain(next[p := v], head, list)
  {
    forall k | 0 <= k < |list| ensures list[k] in next && next[p := v][list[k]] == next[list[k]] {
      assert list[k] in list;
    }
  }

  // ---- The table

  /** The buckets: their lists, and the bucket of each object (-1 while it is on its way). */
  datatype State = State(hash: seq<Ref>, next: map<Ref, Ref>, lists: seq<seq<Ref>>, place: map<Ref, int>)

  ghost predicate BucketOk(s: State, b: nat) {
    b < |s.hash| ==>
        b < |s.lists| && Chain(s.next, s.hash[b], s.lists[b]) && Distinct(s.lists[b])
        && forall e {:trigger e in s.lists[b]} :: e in s.lists[b] ==> e in s.place && s.place[e] == b
  }

  ghost predicate PlaceOk(s: State, e: Ref) {
    e in s.place && s.place[e] >= 0 ==> s.place[e] < |s.lists| && e in s.lists[s.place[e]] && e != NULL && e in s.next
  }

  ghost predicate Buckets(s: State) {
    && |s.lists| == |s.hash|
    && (forall b: nat {:trigger BucketOk(s, b)} :: BucketOk(s, b))
    && (forall e {:trigger PlaceOk(s, e)} :: PlaceOk(s, e))
  }

  lemma BucketsFold(s: State)
    requires |s.lists| == |s.hash| && (forall b: nat {:trigger BucketOk(s, b)} :: BucketOk(s, b))
        && (forall e {:trigger PlaceOk(s, e)} :: PlaceOk(s, e))
    ensures Buckets(s)
  {
  }

  /** The head of bucket b leaves it, or the whole list does. */
  ghost function Detached(s: State, b: nat): State
    requires b < |s.hash| == |s.lists|
  {
    s.(hash := s.hash[b := NULL], lists := s.lists[b := []], place := map e | e in s.place :: if s.place[e] == b then -1
        else s.place[e])
  }

  lemma DetachOk(s: State, b: nat)
    requires Buckets(s) && b < |s.hash|
    ensures Buckets(Detached(s, b)) && Chain(s.next, s.hash[b], s.lists[b]) && Distinct(s.lists[b])
    ensures forall e :: e in s.lists[b] ==> e in s.place && s.place[e] == b
    ensures forall e :: e in s.place && s.place[e] == b ==> e in s.lists[b]
  {
    assert BucketOk(s, b);
    var t := Detached(s, b);
    forall c: nat ensures BucketOk(t, c) { assert BucketOk(s, c); }
    forall e ensures PlaceOk(t, e) { assert PlaceOk(s, e); }
    forall e | e in s.place && s.place[e] == b ensures e in s.lists[b] { assert PlaceOk(s, e); }
  }

  /** p is chained at the front of bucket h. */
  ghost function Pushed(s: State, p: Ref, h: nat): State
    requires h < |s.hash| == |s.lists|
  {
    State(s.hash[h := p], s.next[p := s.hash[h]], s.lists[h := [p] + s.lists[h]], s.place[p := h])
  }

  lemma PushOk(s: State, p: Ref, h: nat)
    requires Buckets(s) && h < |s.hash| && p != NULL && (p in s.place ==> s.place[p] == -1)
    ensures Buckets(Pushed(s, p, h))
  {
    var t := Pushed(s, p, h);
    forall c: nat ensures BucketOk(t, c) {
      assert BucketOk(s, c);
      if c < |s.hash| {
        if c == h {
          ChainPush(s.next, s.hash[h], s.lists[h], p);
        } else {
          ChainKept(s.next, s.hash[c], s.lists[c], p, s.hash[h]);
        }
      }
    }
    forall e ensures PlaceOk(t, e) { assert PlaceOk(s, e); }
  }

  /** The object after those kept leaves bucket b. */
  ghost function Dropped(s: State, b: nat, kept: seq<Ref>, rest: seq<Ref>): State
    requires b < |s.hash| == |s.lists| && rest != []
  {
    State(Relinked(s, b, kept, rest).hash, Relinked(s, b, kept, rest).next - {rest[0]}, s.lists[b := kept + rest[1..]],
        s.place - {rest[0]})
  }

  /** The link to it is the bucket's head or the last one kept. */
  ghost function Relinked(s: State, b: nat, kept: seq<Ref>, rest: seq<Ref>): State
    requires b < |s.hash| && rest != []
  {
    var after := if |rest| > 1 then rest[1] else NULL;
    if kept == [] then s.(hash := s.hash[b := after]) else s.(next := s.next[kept[|kept| - 1] := after])
  }

  lemma DropList(kept: seq<Ref>, rest: seq<Ref>)
    requires rest != [] && Distinct(kept + rest)
    ensures Distinct(kept + rest[1..]) && rest[0] !in kept + rest[1..]
    ensures forall e :: e in kept + rest <==> e == rest[0] || e in kept + rest[1..]
  {
    var all, list, n := kept + rest, kept + rest[1..], |kept|;
    assert all[n] == rest[0];
    forall k | 0 <= k < |list| ensures list[k] == all[if k < n then k else k + 1] && list[k] != rest[0] { }
    forall i, j {:trigger list[i], list[j]} | 0 <= i < j < |list| ensures list[i] != list[j] {
      assert all[if i < n then i else i + 1] != all[if j < n then j else j + 1];
    }
    hide Distinct;
    forall e ensures e in all <==> e == rest[0] || e in list {
      assert rest == [rest[0]] + rest[1..];
    }
  }

  lemma DropChain(s: State, b: nat, kept: seq<Ref>, rest: seq<Ref>)
    requires b < |s.hash| == |s.lists| && rest != [] && Chain(s.next, s.hash[b], kept + rest) && Distinct(kept + rest)
    ensures var t := Dropped(s, b, kept, rest); Chain(t.next, t.hash[b], kept + rest[1..])
  {
    var all, t, list := kept + rest, Dropped(s, b, kept, rest), kept + rest[1..];
    var n := |kept|;
    forall k {:trigger list[k]} | 0 <= k < |list| ensures list[k] != NULL && list[k] in t.next && t.next[list[k]]
        == if k + 1 < |list| then list[k + 1] else NULL {
      DropLink(s, b, kept, rest, k);
    }
    if n > 0 { assert all[0] == kept[0] && list[0] == kept[0]; }
    if n == 0 && |rest| > 1 { assert list[0] == rest[1]; }
    assert t.hash[b] == if list == [] then NULL else list[0];
  }

  lemma DropLink(s: State, b: nat, kept: seq<Ref>, rest: seq<Ref>, k: nat)
    requires b < |s.hash| == |s.lists| && rest != [] && Chain(s.next, s.hash[b], kept + rest) && Distinct(kept + rest)
    requires k < |kept + rest[1..]|
    ensures var t, list := Dropped(s, b, kept, rest), kept + rest[1..];
      list[k] != NULL && list[k] in t.next && t.next[list[k]] == if k + 1 < |list| then list[k + 1] else NULL
  {
    var all, list, n := kept + rest, kept + rest[1..], |kept|;
    var i := if k < n then k else k + 1;
    assert all[i] == list[k] && all[n] == rest[0] && all[i] != all[n];
    assert i + 1 < |all| ==> all[i + 1] == if k == n - 1 then rest[0] else list[k + 1];
    if n > 0 { assert all[n - 1] == kept[n - 1]; }
    if n > 0 && i != n - 1 { assert all[n - 1] != all[i]; }
  }

  lemma DropOk(s: State, b: nat, kept: seq<Ref>, rest: seq<Ref>)
    requires Buckets(s) && b < |s.hash| == |s.lists| && rest != [] && s.lists[b] == kept + rest
    ensures Buckets(Dropped(s, b, kept, rest))
    ensures rest[0] !in kept + rest[1..]
  {
    var t := Dropped(s, b, kept, rest);
    assert BucketOk(s, b);
    DropList(kept, rest);
    forall c: nat ensures BucketOk(t, c) { DropBucket(s, b, kept, rest, c); }
    forall e ensures PlaceOk(t, e) { assert PlaceOk(s, e); DropPlace(s, b, kept, rest, e); }
    assert |t.lists| == |t.hash|;
    hide Dropped, BucketOk, PlaceOk;
  }

  lemma DropPlace(s: State, b: nat, kept: seq<Ref>, rest: seq<Ref>, e: Ref)
    requires b < |s.hash| == |s.lists| && rest != [] && s.lists[b] == kept + rest && PlaceOk(s, e)
    requires forall e :: e in kept + rest <==> e == rest[0] || e in kept + rest[1..]
    ensures PlaceOk(Dropped(s, b, kept, rest), e)
  {
  }

  lemma DropBucket(s: State, b: nat, kept: seq<Ref>, rest: seq<Ref>, c: nat)
    requires b < |s.hash| == |s.lists| && rest != [] && s.lists[b] == kept + rest && BucketOk(s, b) && BucketOk(s, c)
    ensures BucketOk(Dropped(s, b, kept, rest), c)
  {
    var t, p := Dropped(s, b, kept, rest), rest[0];
    DropList(kept, rest);
    if c == b {
      DropChain(s, b, kept, rest);
    } else if c < |s.hash| {
      assert kept != [] ==> kept[|kept| - 1] in kept + rest;
      OtherChain(s, t, c, p, kept);
    }
    hide Chain, Distinct;
  }

  lemma OtherChain(s: State, t: State, c: nat, p: Ref, kept: seq<Ref>)
    requires c < |s.hash| == |s.lists| && Chain(s.next, s.hash[c], s.lists[c]) && p !in s.lists[c]
        && (kept != [] ==> kept[|kept| - 1] !in s.lists[c])
    requires forall e ::
        e in s.next && e != p && (kept == [] || e != kept[|kept| - 1]) ==> e in t.next && t.next[e] == s.next[e]
    ensures Chain(t.next, s.hash[c], s.lists[c])
  {
    var list := s.lists[c];
    forall k | 0 <= k < |list| ensures list[k] in t.next && t.next[list[k]] == s.next[list[k]] {
      assert list[k] in list;
    }
  }

  // ---- Rehashing

  /** Where an object belongs while buckets 0, ..., i - 1 have been rehashed from size n to size m. */
  ghost predicate Placed(s: State, h: map<Ref, nat>, n: nat, m: nat, i: nat)
    requires n > 0 && m > 0
  {
    forall e {:trigger s.place[e]} :: e in s.place ==> e in h && s.place[e] == if h[e] % n < i then h[e] % m
        else h[e] % n
  }

  /** For powers of two, a rehashed object never goes to a bucket that is still to be rehashed. */
  lemma NeverAgain(a: nat, b: nat, h: nat, i: nat)
    requires i < Pow2(a) && h % Pow2(a) == i
    ensures var r := h % Pow2(b); r == i || r >= Pow2(a) || r < i
  {
    hide Pow2;
    if a <= b {
      PowDivides(a, b);
      Refines(h, Pow2(a), Pow2(b) / Pow2(a));
    } else {
      PowDivides(b, a);
      Refines(h, Pow2(b), Pow2(a) / Pow2(b));
    }
  }

  /** The remainders of h for n and for a multiple of n. */
  lemma Refines(h: nat, n: nat, q: nat)
    requires n > 0 && n * q > 0
    ensures h % n <= h % (n * q) && (h % (n * q) < n ==> h % (n * q) == h % n)
  {
    var r := h % (n * q);
    if q > 0 { ModMod(h, n, q); }
    assert r == (r / n) * n + r % n && r / n >= 0;
    MulBound(r / n, n);
  }

  lemma {:induction false} PowDivides(a: nat, b: nat)
    requires a <= b
    ensures Pow2(b) % Pow2(a) == 0 && Pow2(b) == Pow2(a) * (Pow2(b) / Pow2(a))
  {
    if a < b {
      PowDivides(a, b - 1);
      var q := Pow2(b - 1) / Pow2(a);
      assert Pow2(b) == Pow2(a) * (2 * q);
      DivExact(Pow2(a), 2 * q);
    } else {
      DivExact(Pow2(a), 1);
    }
  }

  lemma DivExact(n: nat, q: nat)
    requires n > 0
    ensures (n * q) / n == q && (n * q) % n == 0
  {
    assert n * q == q * n + 0;
    DivUnique(n * q, n, q, 0);
  }

  /** Quotient and remainder are unique. */
  lemma DivUnique(x: int, n: int, q: int, r: int)
    requires n > 0 && x == q * n + r && 0 <= r < n
    ensures x / n == q && x % n == r
  {
    var d := x / n - q;
    assert x == (x / n) * n + x % n;
    assert d * n == r - x % n;
    MulBound(d, n);
  }

  lemma MulBound(d: int, n: int)
    requires n > 0
    ensures (d >= 1 ==> d * n >= n) && (d <= -1 ==> d * n <= -n) && (d >= 0 ==> d * n >= 0)
  {
  }

  lemma ModMod(h: nat, n: nat, q: nat)
    requires n > 0 && q > 0 && n * q > 0
    ensures (h % (n * q)) % n == h % n
  {
    var r, k := h % (n * q), h / (n * q);
    assert h == k * (n * q) + r;
    assert k * (n * q) == (k * q) * n;
    assert r == (r / n) * n + r % n;
    assert h == (k * q + r / n) * n + r % n by { assert (k * q + r / n) * n == (k * q) * n + (r / n) * n; }
    DivUnique(h, n, k * q + r / n, r % n);
  }

  /**
   * While bucket i is being rehashed from size n to size m: its objects in rest are on their way, all others are in
   * place.
   */
  ghost predicate Moving(s: State, h: map<Ref, nat>, n: nat, m: nat, i: nat, rest: seq<Ref>)
    requires n > 0 && m > 0
  {
    forall e {:trigger s.place[e]} {:trigger e in rest} :: e in s.place ==> e in h && if e in rest then s.place[e] == -1
        && h[e] % n == i else s.place[e] == if h[e] % n <= i then h[e] % m else h[e] % n
  }

  lemma MovingStart(s: State, h: map<Ref, nat>, a: nat, b: nat, i: nat)
    requires Buckets(s) && i < Pow2(a) && i < |s.hash| && Placed(s, h, Pow2(a), Pow2(b), i)
    ensures Moving(Detached(s, i), h, Pow2(a), Pow2(b), i, s.lists[i]) && forall e :: e in s.lists[i] ==> e in s.place
  {
    DetachOk(s, i);
    var t := Detached(s, i);
    forall e | e in t.place
      ensures e in h
      ensures if e in s.lists[i] then t.place[e] == -1 && h[e] % Pow2(a) == i
          else t.place[e] == if h[e] % Pow2(a) <= i then h[e] % Pow2(b) else h[e] % Pow2(a)
    {
      assert s.place[e] == if h[e] % Pow2(a) < i then h[e] % Pow2(b) else h[e] % Pow2(a);
      if h[e] % Pow2(a) < i { NeverAgain(a, b, h[e], h[e] % Pow2(a)); }
      hide Pow2, Buckets;
    }
  }

  lemma HeadAlone(list: seq<Ref>)
    requires Distinct(list) && list != []
    ensures list[0] !in list[1..] && list[0] in list
  {
    forall k | 0 <= k < |list[1..]| ensures list[1..][k] != list[0] { assert list[1..][k] == list[k + 1]; }
  }

  lemma MovingStep(s: State, h: map<Ref, nat>, n: nat, m: nat, i: nat, rest: seq<Ref>)
    requires n > 0 && m > 0 && Moving(s, h, n, m, i, rest) && rest != [] && rest[0] in s.place && rest[0] in h
        && Distinct(rest) && h[rest[0]] % m < |s.hash| == |s.lists|
    ensures Moving(Pushed(s, rest[0], h[rest[0]] % m), h, n, m, i, rest[1..])
  {
    var p, t := rest[0], rest[1..];
    var u := Pushed(s, p, h[p] % m);
    HeadAlone(rest);
    forall e | e in u.place
      ensures e in h
      ensures if e in t then u.place[e] == -1 && h[e] % n == i
          else u.place[e] == if h[e] % n <= i then h[e] % m else h[e] % n
    {
      assert e in s.place;
      assert e in rest <==> e == p || e in t by {
        if e in rest { var k :| 0 <= k < |rest| && rest[k] == e; if k > 0 { assert t[k - 1] == e; } }
      }
    }
  }

  lemma MovingEnd(s: State, h: map<Ref, nat>, n: nat, m: nat, i: nat)
    requires n > 0 && m > 0 && Moving(s, h, n, m, i, [])
    ensures Placed(s, h, n, m, i + 1)
  {
  }

  function Nulls(n: nat): (r: seq<Ref>)
    ensures |r| == n && forall k :: 0 <= k < n ==> r[k] == NULL
  {
    seq(n, i => NULL)
  }

  ghost function Empties(n: nat): (r: seq<seq<Ref>>)
    ensures |r| == n && forall k :: 0 <= k < n ==> r[k] == []
  {
    seq(n, i => [])
  }

  /** More buckets, empty. */
  ghost function Grown(s: State, n: nat): State { State(s.hash + Nulls(n), s.next, s.lists + Empties(n), s.place) }

  lemma GrowOk(s: State, n: nat, t: State)
    requires Buckets(s) && t == Grown(s, n)
    ensures Buckets(t)
  {
    forall b: nat ensures BucketOk(t, b) { assert BucketOk(s, b); }
    forall e ensures PlaceOk(t, e) { assert PlaceOk(s, e); }
    BucketsFold(t);
  }

  lemma GrownIs(s: State, n: nat)
    ensures Grown(s, n) == State(s.hash + Nulls(n), s.next, s.lists + Empties(n), s.place)
  {
  }

  lemma HasElement(list: seq<Ref>)
    ensures list != [] ==> exists e :: e in list
  {
    if list != [] { var e := list[0]; assert e in list; }
  }

  lemma BucketEmpty(s: State, b: nat, m: nat)
    requires b < |s.hash| && BucketOk(s, b) && m <= b && forall e :: e in s.place ==> s.place[e] < m
    ensures forall e :: e !in s.lists[b]
  {
    hide Chain, Distinct;
  }

  /** The shrinking slice is empty. */
  lemma ShrinkOk(s: State, m: nat)
    requires Buckets(s) && m <= |s.hash| && forall e :: e in s.place ==> 0 <= s.place[e] < m
    ensures Buckets(State(s.hash[..m], s.next, s.lists[..m], s.place)) && forall b ::
        m <= b < |s.hash| ==> s.hash[b] == NULL
  {
    var t := State(s.hash[..m], s.next, s.lists[..m], s.place);
    forall b: nat ensures BucketOk(t, b) { assert BucketOk(s, b); }
    forall e ensures PlaceOk(t, e) { assert PlaceOk(s, e); }
    forall b: nat | m <= b < |s.hash| ensures s.hash[b] == NULL {
      assert BucketOk(s, b);
      BucketEmpty(s, b, m);
      HasElement(s.lists[b]);
    }
  }

  class StringTable {
    var hash: seq<Ref>
    var next: map<Ref, Ref>
    var text: map<Ref, string>
    var h: map<Ref, nat>
    var dead: set<Ref>
    var nuse: nat
    /** Whether the strings are being swept, and the bucket that comes next. */
    var sweeping: bool
    var cursor: nat
    const sweepMax: nat
    const hashFn: string -> nat
    ghost var lists: seq<seq<Ref>>
    ghost var place: map<Ref, int>
    ghost var bits: nat

    ghost predicate Valid()
      reads this`hash, this`next, this`text, this`h, this`dead, this`nuse, this`lists, this`place, this`bits
    {
      && |hash| == Pow2(bits) && Buckets(State(hash, next, lists, place))
        && Placed(State(hash, next, lists, place), h, |hash|, |hash|, 0)
      && Contents(text, h, place, hashFn) && nuse == |place| && dead <= text.Keys
    }

    /** Dead strings exist only during a sweep, in buckets that it has not reached. */
    ghost predicate Phase()
      reads this
    {
      PhaseOk(sweepMax, sweeping, cursor, |hash|, place, dead)
    }

    constructor (k: nat, max: nat, fn: string -> nat)
      requires max > 0
      ensures Valid() && Phase() && text == map[] && |hash| == Pow2(k) && hashFn == fn && !sweeping
    {
      hash, next, text, h, dead, nuse, hashFn := Nulls(Pow2(k)), map[], map[], map[], {}, 0, fn;
      sweeping, cursor, sweepMax := false, 0, max;
      lists, place, bits := Empties(Pow2(k)), map[], k;
    }

    /** The rehash of one bucket in luaS_resize. */
    method RehashBucket(i: nat, newsize: nat, ghost a: nat, ghost b: nat)
      requires Buckets(State(hash, next, lists, place)) && newsize == Pow2(b) && i < Pow2(a) <= |hash|
          && newsize <= |hash| && Placed(State(hash, next, lists, place), h, Pow2(a), newsize, i)
      modifies this`hash, this`next, this`lists, this`place
      ensures Buckets(State(hash, next, lists, place)) && Placed(State(hash, next, lists, place), h, Pow2(a), newsize,
          i + 1) && |hash| == |old(hash)| && place.Keys == old(place.Keys)
    {
      hide *;
      ghost var s := State(hash, next, lists, place);
      Sizes(s);
      DetachOk(s, i);
      MovingStart(s, h, a, b, i);
      var p := hash[i];
      ghost var rest := lists[i];
      hash := hash[i := NULL];
      lists, place := lists[i := []], Detached(s, i).place;
      DetachedIs(s, i);
      while p != NULL
        invariant Buckets(State(hash, next, lists, place)) && Chain(next, p, rest) && Distinct(rest)
            && |hash| == |old(hash)| && |lists| == |hash| && place.Keys == old(place.Keys)
        invariant Moving(State(hash, next, lists, place), h, Pow2(a), newsize, i, rest) && forall e ::
            e in rest ==> e in place
        decreases |rest|
      {
        ghost var t := State(hash, next, lists, place);
        NonEmpty(next, p, rest);
        MovingAt(t, h, Pow2(a), newsize, i, rest);
        var following := next[p];
        var pos := h[p] % newsize;
        PushOk(t, p, pos);
        MovingStep(t, h, Pow2(a), newsize, i, rest);
        PushedIs(t, p, pos);
        ChainTail(next, p, rest);
        ChainKept(next, following, rest[1..], p, hash[pos]);
        next := next[p := hash[pos]];
        hash := hash[pos := p];
        lists, place := lists[pos := [p] + lists[pos]], place[p := pos];
        p, rest := following, rest[1..];
      }
      ChainEmpty(next, rest);
      MovingEnd(State(hash, next, lists, place), h, Pow2(a), newsize, i);
    }

    /** New, empty buckets. */
    method Grow(n: nat)
      requires Buckets(State(hash, next, lists, place))
      modifies this`hash, this`lists
      ensures Buckets(State(hash, next, lists, place)) && |hash| == |old(hash)| + n
    {
      hide *;
      GrowOk(State(hash, next, lists, place), n, Grown(State(hash, next, lists, place), n));
      GrownIs(State(hash, next, lists, place), n);
      hash := hash + Nulls(n);
      lists := lists + Empties(n);
    }

    /** The shrinking slice is empty. */
    method Shrink(n: nat)
      requires Buckets(State(hash, next, lists, place)) && n <= |hash| && forall e :: e in place ==> 0 <= place[e] < n
      modifies this`hash, this`lists
      ensures Buckets(State(hash, next, lists, place)) && |hash| == n
    {
      hide *;
      ghost var s := State(hash, next, lists, place);
      Sizes(s);
      ShrinkOk(s, n);
      assert forall b :: n <= b < |hash| ==> hash[b] == NULL;
      hash := hash[..n];
      lists := lists[..n];
    }

    /** luaS_resize; a sweep of the strings that is under way is finished first. */
    method Resize(newsize: nat, ghost b: nat)
      requires Valid() && Phase() && newsize == Pow2(b)
      modifies this
      ensures Valid() && Phase() && !sweeping && |hash| == newsize && bits == b && text == old(text) - old(dead)
          && dead == {}
    {
      hide *;
      FinishSweep();
      PhaseIs();
      PhaseRest(sweepMax, cursor, |hash|, place);
      Rehash(newsize, b);
      PhaseRest(sweepMax, cursor, newsize, place);
      PhaseIs();
    }

    /** Every object moves to its bucket among newsize of them. */
    method Rehash(newsize: nat, ghost b: nat)
      requires Valid() && newsize == Pow2(b)
      modifies this`hash, this`next, this`lists, this`place, this`bits
      ensures Valid() && |hash| == newsize && bits == b && place.Keys == old(place.Keys)
    {
      hide *;
      ValidParts();
      var size := |hash|;
      ghost var a := bits;
      ghost var s := State(hash, next, lists, place);
      ghost var keys := place.Keys;
      Sizes(s);
      if newsize > size { Grow(newsize - size); }
      PlacedStart(s, State(hash, next, lists, place), h, size, newsize);
      for i := 0 to size
        invariant Buckets(State(hash, next, lists, place))
            && Placed(State(hash, next, lists, place), h, size, newsize, i) && place.Keys == keys
        invariant |hash| == if newsize > size then newsize else size
      {
        RehashBucket(i, newsize, a, b);
      }
      ghost var t := State(hash, next, lists, place);
      PlacedEnd(t, h, size, newsize);
      Sizes(t);
      if newsize < size { Shrink(newsize); }
      PlacedStart(t, State(hash, next, lists, place), h, newsize, newsize);
      bits := b;
      KeysCard(s.place, place);
      ContentsSame(text, h, s.place, place, hashFn);
      ValidFold();
    }

    /**
     * The address does not matter for strings that exist: equal text means the same object, which the search of one
     * bucket finds.
     */
    method Intern(str: string, addr: Ref) returns (o: Ref)
      requires Valid() && Phase() && addr != NULL && addr !in text
      modifies this
      ensures Valid() && Phase()
      ensures Unknown(old(text), str) ==>
          o == addr
          && if old(Crowded()) then text == (old(text) - old(dead))[addr := str] && dead == {}
             else text == old(text)[addr := str] && dead == old(dead)
      ensures !Unknown(old(text), str) ==>
          o in old(text) && old(text)[o] == str && text == old(text) && dead == old(dead) - {o}
    {
      hide *;
      var hv := hashFn(str);
      SearchStart(str);
      ghost var b := hv % |hash|;
      o := hash[hv % |hash|];
      ghost var rest := lists[b];
      while o != NULL
        invariant Chain(next, o, rest) && Distinct(rest) && Unseen(text, str, lists[b], rest) && Valid() && Phase()
            && dead == old(dead)
        modifies this`dead
        decreases |rest|
      {
        NonEmpty(next, o, rest);
        UnseenNext(text, str, lists[b], rest);
        InBucket(b, o);
        if hv == h[o] && text[o] == str {
          Known(text, str, o);
          PhaseIs();
          PhaseLess(sweepMax, sweeping, cursor, |hash|, place, dead, o);
          Revive(o);
          PhaseIs();
          return;
        }
        ChainTail(next, o, rest);
        o, rest := next[o], rest[1..];
      }
      ChainEmpty(next, rest);
      SearchEnd(str);
      NewShort(str, hv, addr);
      o := addr;
    }

    /** A string that is dead but not yet collected is resurrected. */
    method Revive(o: Ref)
      requires Valid()
      modifies this`dead
      ensures Valid() && dead == old(dead) - {o}
    {
      if o in dead { dead := dead - {o}; }
    }

    /** The end of a mark phase: some of the objects have not been reached, and a sweep of the strings begins. */
    method Die(doomed: set<Ref>)
      requires Valid() && Phase() && !sweeping
      modifies this`dead, this`sweeping, this`cursor
      ensures Valid() && Phase() && sweeping && dead == doomed * text.Keys
    {
      hide Buckets, Placed, Contents;
      PlacesIn();
      dead := doomed * text.Keys;
      sweeping, cursor := true, 0;
    }

    /** A new string finds the table with no more buckets than objects. */
    predicate Crowded()
      reads this
    {
      nuse >= |hash| && |hash| <= MAX_INT / 2
    }

    /** newshrstr */
    method NewShort(str: string, hv: nat, addr: Ref)
      requires Valid() && Phase() && addr != NULL && addr !in text && hv == hashFn(str) && Unknown(text, str)
      modifies this
      ensures Valid() && Phase()
      ensures if old(Crowded()) then text == (old(text) - old(dead))[addr := str] && dead == {}
          else text == old(text)[addr := str] && dead == old(dead)
    {
      hide *;
      if Crowded() {
        SizeIs();
        UnknownLess(text, dead, str);
        Resize(|hash| * 2, bits + 1);  // one object per bucket on average
      }
      Insert(str, hv, addr);
    }

    /** The new object becomes the first of its bucket. */
    method Insert(str: string, hv: nat, addr: Ref)
      requires Valid() && Phase() && addr != NULL && addr !in text && hv == hashFn(str) && Unknown(text, str)
      modifies this
      ensures Valid() && Phase() && text == old(text)[addr := str] && dead == old(dead)
    {
      hide *;
      ValidParts();
      SizeIs();
      ghost var s := State(hash, next, lists, place);
      var b := hv % |hash|;
      Sizes(s);
      Absent(text, h, place, hashFn, addr);
      PushOk(s, addr, b);
      PushedIs(s, addr, b);
      PushedPlaced(s, h, |hash|, addr, hv);
      ContentsNew(text, h, place, hashFn, addr, str, b);
      PhaseIs();
      PhaseNew(sweepMax, sweeping, cursor, |hash|, place, dead, addr, b);
      Write(hash[b := addr], next[addr := hash[b]], text[addr := str], h[addr := hv], dead, nuse + 1,
          lists[b := [addr] + lists[b]], place[addr := b]);
      PhaseIs();
    }

    method Write(hash1: seq<Ref>, next1: map<Ref, Ref>, text1: map<Ref, string>, h1: map<Ref, nat>, dead1: set<Ref>,
        nuse1: nat, ghost lists1: seq<seq<Ref>>, ghost place1: map<Ref, int>)
      requires |hash1| == Pow2(bits) && Buckets(State(hash1, next1, lists1, place1))
          && Placed(State(hash1, next1, lists1, place1), h1, |hash1|, |hash1|, 0)
      requires Contents(text1, h1, place1, hashFn) && nuse1 == |place1| && dead1 <= text1.Keys
      modifies this
      ensures Valid() && hash == hash1 && text == text1 && dead == dead1 && lists == lists1 && place == place1
          && sweeping == old(sweeping) && cursor == old(cursor)
    {
      hash, next, text, h, dead, nuse := hash1, next1, text1, h1, dead1, nuse1;
      lists, place := lists1, place1;
    }

    /** One dead string leaves its bucket; prev is the last string kept before it. */
    method Erase(i: nat, prev: Ref, o: Ref, ghost kept: seq<Ref>, ghost rest: seq<Ref>)
      requires Valid() && i < |hash| == |lists| && lists[i] == kept + rest && rest != [] && o == rest[0] && prev
          == if kept == [] then NULL else kept[|kept| - 1]
      modifies this
      ensures Valid() && |hash| == old(|hash|) == |lists| && lists[i] == kept + rest[1..] && text == old(text) - {o}
          && dead == old(dead) - {o} && place == old(place) - {o}
      ensures sweeping == old(sweeping) && cursor == old(cursor)
    {
      hide *;
      ValidParts();
      ghost var s := State(hash, next, lists, place);
      EraseLink(s, i, prev, kept, rest);
      var after := next[o];
      DropOk(s, i, kept, rest);
      DroppedIs(s, i, kept, rest, prev, after);
      DroppedPlaced(s, Dropped(s, i, kept, rest), h, |hash|, o);
      ContentsLess(text, h, place, hashFn, o);
      var hash1 := if prev == NULL then hash[i := after] else hash;
      var next1 := if prev == NULL then next else next[prev := after];
      Write(hash1, next1 - {o}, text - {o}, h - {o}, dead - {o}, nuse - 1, lists[i := kept + rest[1..]], place - {o});
    }

    /** The sweep of one bucket: its dead strings, and nothing else, disappear. */
    method SweepBucket(i: nat)
      requires Valid() && i < |hash|
      modifies this
      ensures Valid() && |hash| == old(|hash|) && sweeping == old(sweeping) && cursor == old(cursor)
      ensures var gone := Gone(old(place), old(dead), i);
          text == old(text) - gone && dead == old(dead) - gone && place == old(place) - gone
    {
      hide *;
      ListsSize();
      ghost var place0, dead0, text0, list := place, dead, text, lists[i];
      ghost var kept, rest, gone: set<Ref> := [], list, {};
      CursorStart(i);
      SplitStart(i);
      MinusNone(text, dead, place);
      var prev, o := NULL, hash[i];
      assert kept + rest == list;
      while o != NULL
        invariant Valid() && |hash| == old(|hash|) == |lists| && lists[i] == kept + rest && sweeping == old(sweeping)
            && cursor == old(cursor)
        invariant o == (if rest == [] then NULL else rest[0]) && prev == if kept == [] then NULL else kept[|kept| - 1]
        invariant Split(place0, dead0, i, list, rest, gone)
        invariant text == text0 - gone && dead == dead0 - gone && place == place0 - gone
        decreases |rest|
      {
        CursorAt(i, o, kept, rest);
        SplitNext(place0, dead0, i, list, rest, gone);
        var following := next[o];
        if o in dead {
          Erase(i, prev, o, kept, rest);
          MinusAll(text0, dead0, place0, gone, {o});
          gone := gone + {o};
        } else {
          assert kept + rest == kept + [o] + rest[1..];
          prev := o;
          kept := kept + [o];
        }
        o, rest := following, rest[1..];
      }
      CursorEnd(i, kept, rest);
      SplitEnd(place0, dead0, i, list, gone);
    }

    /** GCSsweepstring in singlestep: the dead strings of the next buckets are gone, and no others. */
    method SweepStrings()
      requires Valid() && Phase() && sweeping
      modifies this
      ensures Valid() && Phase() && |hash| == old(|hash|) && sweeping == (old(cursor) + sweepMax < |hash|)
      ensures sweeping ==> cursor == old(cursor) + sweepMax
      ensures text == old(text) - (old(dead) - dead) && dead <= old(dead)
          && dead == Later(old(place), old(dead), old(cursor) + sweepMax)
    {
      hide *;
      ghost var place0, dead0, text0 := place, dead, text;
      PhaseIs();
      LaterStart(sweepMax, cursor, |hash|, place, dead);
      MinusSame(text, dead, place);
      var i := 0;
      while i < sweepMax && cursor + i < |hash|
        invariant Valid() && |hash| == old(|hash|) && sweeping == old(sweeping) && cursor == old(cursor)
            && i <= sweepMax && cursor + i <= |hash|
        invariant dead == Later(place0, dead0, cursor + i) && text == text0 - (dead0 - dead)
            && place == place0 - (dead0 - dead)
      {
        LaterNext(place0, dead0, text0, cursor + i);
        SweepBucket(cursor + i);
        i := i + 1;
      }
      PlacesIn();
      LaterEnd(place0, dead0, cursor + i, place, |hash|, cursor + sweepMax, sweepMax);
      LaterLess(place0, dead0, cursor + sweepMax, dead0, text0);
      cursor := cursor + i;
      if cursor >= |hash| { sweeping := false; }
      PhaseIs();
    }

    /** luaC_runtilstate, to the end of the sweep: exactly the dead strings are gone. */
    method FinishSweep()
      requires Valid() && Phase()
      modifies this
      ensures Valid() && Phase() && !sweeping && |hash| == old(|hash|) && text == old(text) - old(dead) && dead == {}
    {
      hide *;
      MinusSame(text, dead, place);
      PhaseIs();
      PhaseBounds(sweepMax, sweeping, cursor, |hash|, place, dead);
      while sweeping
        invariant Valid() && Phase() && |hash| == old(|hash|) && dead <= old(dead)
            && text == old(text) - (old(dead) - dead)
        invariant if sweeping then cursor <= |hash| else dead == {}
        decreases if sweeping then |hash| - cursor + 1 else 0
      {
        ghost var dead1, place1, c := dead, place, cursor;
        SweepStrings();
        LaterLess(place1, dead1, c + sweepMax, old(dead), old(text));
        PhaseIs();
        PhaseBounds(sweepMax, sweeping, cursor, |hash|, place, dead);
      }
    }

    /** checkSizes, the string table's part. */
    method CheckSizes()
      requires Valid() && Phase() && !sweeping
      modifies this
      ensures Valid() && Phase() && !sweeping && dead == {} && text == old(text) && |hash|
          == if old(nuse) < old(|hash|) / 2 then old(|hash|) / 2 else old(|hash|)
    {
      hide *;
      SizeIs();
      PhaseIs();
      PhaseBounds(sweepMax, sweeping, cursor, |hash|, place, dead);
      MinusNone(text, dead, place);
      var hs := |hash| / 2;
      if nuse < hs { Resize(hs, bits - 1); }  // the upper half becomes empty
    }

    lemma ValidParts()
      requires Valid()
      ensures |hash| == Pow2(bits) && Buckets(State(hash, next, lists, place))
          && Placed(State(hash, next, lists, place), h, |hash|, |hash|, 0) && Contents(text, h, place, hashFn)
          && nuse == |place| && dead <= text.Keys
    {
    }

    lemma SizeIs()
      requires Valid()
      ensures |hash| == Pow2(bits) > 0 && |hash| * 2 == Pow2(bits + 1)
          && (|hash| / 2 > 0 ==> bits > 0 && |hash| / 2 == Pow2(bits - 1))
    {
      ValidParts();
      hide Valid;
    }

    lemma PhaseIs()
      ensures Phase() <==> PhaseOk(sweepMax, sweeping, cursor, |hash|, place, dead)
    {
    }

    lemma ListsSize()
      requires Valid()
      ensures |hash| == |lists|
    {
      ValidParts();
      Sizes(State(hash, next, lists, place));
      hide *;
    }

    lemma PlacesIn()
      requires Valid()
      ensures place.Keys == text.Keys && dead <= place.Keys && forall e :: e in place ==> 0 <= place[e] < |hash|
    {
      ValidParts();
      hide Valid;
      hide Buckets;
    }

    lemma SearchStart(str: string)
      requires Valid()
      ensures |hash| == |lists| > 0
      ensures var b := hashFn(str) % |hash|;
          Chain(next, hash[b], lists[b]) && Distinct(lists[b]) && Unseen(text, str, lists[b], lists[b])
    {
      ListsSize();
      SizeIs();
      ValidParts();
      assert BucketOk(State(hash, next, lists, place), hashFn(str) % |hash|);
      hide Valid, Placed, Contents, Chain, Distinct;
    }

    lemma InBucket(b: nat, o: Ref)
      requires Valid() && b < |lists| && o in lists[b]
      ensures o in text && o in h && o in next && h[o] == hashFn(text[o])
    {
      ListsSize();
      ValidParts();
      var s := State(hash, next, lists, place);
      assert BucketOk(s, b) && PlaceOk(s, o);
      hide Valid, Placed, Chain, Distinct;
    }

    lemma SearchEnd(str: string)
      requires Valid() && |hash| == |lists| > 0 && Unseen(text, str, lists[hashFn(str) % |hash|], [])
      ensures Unknown(text, str)
    {
      ValidParts();
      var s := State(hash, next, lists, place);
      forall e | e in text ensures text[e] != str {
        assert PlaceOk(s, e);
        assert s.place[e] == h[e] % |hash| && h[e] == hashFn(text[e]);
      }
      hide Valid, Chain, Distinct;
    }

    lemma CursorStart(i: nat)
      requires Valid() && i < |hash| == |lists|
      ensures hash[i] == if lists[i] == [] then NULL else lists[i][0]
    {
      ValidParts();
      assert BucketOk(State(hash, next, lists, place), i);
      hide Valid, Placed, Contents, Distinct;
    }

    lemma CursorAt(i: nat, o: Ref, kept: seq<Ref>, rest: seq<Ref>)
      requires Valid() && i < |hash| == |lists| && lists[i] == kept + rest && rest != [] && o == rest[0]
      ensures o in next && next[o] == if |rest| > 1 then rest[1] else NULL
    {
      ValidParts();
      assert BucketOk(State(hash, next, lists, place), i);
      assert lists[i][|kept|] == o;
      hide Valid, Placed, Contents, Distinct;
    }

    lemma CursorEnd(i: nat, kept: seq<Ref>, rest: seq<Ref>)
      requires Valid() && i < |hash| == |lists| && lists[i] == kept + rest
      ensures rest != [] ==> rest[0] != NULL
    {
      ValidParts();
      assert BucketOk(State(hash, next, lists, place), i);
      assert rest != [] ==> lists[i][|kept|] == rest[0];
      hide Valid, Placed, Contents, Distinct;
    }

    lemma SplitStart(i: nat)
      requires Valid() && i < |hash| == |lists|
      ensures Split(place, dead, i, lists[i], lists[i], {})
    {
      ValidParts();
      var s := State(hash, next, lists, place);
      assert BucketOk(s, i);
      forall e ensures e in lists[i] <==> e in place && place[e] == i { assert PlaceOk(s, e); }
      hide Valid, Placed, Contents, Chain, Distinct;
    }

    lemma NoneDead()
      requires Valid() && text == map[]
      ensures dead == {}
    {
      ValidParts();
      hide Valid;
    }

    lemma FreshAddress(addr: Ref)
      requires Valid() && addr !in text
      ensures addr !in dead && NULL !in text
    {
      ValidParts();
      var s := State(hash, next, lists, place);
      PlacesIn();
      assert PlaceOk(s, NULL);
      hide Valid, Chain, Distinct, Placed;
    }

    lemma HeldUnique()
      requires Valid()
      ensures Unique(text - dead)
    {
      hide Valid;
      var held := text - dead;
      forall e, f {:trigger held[e], held[f]} | e in held && f in held ensures e == f <==> held[e] == held[f] {
        PointerEquality(e, f);
      }
    }

    /** Two live strings are the same object if and only if they have the same text. */
    lemma PointerEquality(a: Ref, b: Ref)
      requires Valid() && a in text && b in text
      ensures a == b <==> text[a] == text[b]
    {
      ValidParts();
      hide Valid, Placed, Buckets;
    }

    lemma ValidFold()
      requires |hash| == Pow2(bits) && Buckets(State(hash, next, lists, place))
          && Placed(State(hash, next, lists, place), h, |hash|, |hash|, 0) && Contents(text, h, place, hashFn)
          && nuse == |place| && dead <= text.Keys
      ensures Valid()
    {
    }
  }

  /** Every object has its hash, and no two objects have the same text. */
  ghost predicate Contents(text: map<Ref, string>, h: map<Ref, nat>, place: map<Ref, int>, fn: string -> nat) {
    && text.Keys == h.Keys == place.Keys
    && (forall e {:trigger h[e]} :: e in text ==> h[e] == fn(text[e]))
    && (forall e, f {:trigger text[e], text[f]} :: e in text && f in text && text[e] == text[f] ==> e == f)
  }

  /**
   * What happens to the table: a text is interned (at an address, if it is new), a collection declares objects dead, or
   * cleans up.
   */
  datatype Op = Intern(str: string, addr: Ref) | Die(doomed: set<Ref>) | SweepStrings | CheckSizes

  /** The strings handed out in a run and not declared dead since, with their texts. */
  ghost function Held(ops: seq<Op>, got: seq<Ref>, n: nat): map<Ref, string>
    requires n <= |ops| == |got|
  {
    if n == 0 then map[] else
      var before := Held(ops, got, n - 1);
      match ops[n - 1]
      case Intern(str, addr) => if got[n - 1] == NULL then before else before[got[n - 1] := str]
      case Die(doomed) => before - doomed
      case _ => before
  }

  /** Equal texts are equal objects. */
  ghost predicate Unique(held: map<Ref, string>) {
    forall e, f {:trigger held[e], held[f]} :: e in held && f in held ==> (e == f <==> held[e] == held[f])
  }

  ghost predicate IsHeld(ops: seq<Op>, got: seq<Ref>, n: nat, held: map<Ref, string>) {
    n <= |ops| == |got| && held == Held(ops, got, n)
  }

  /**
   * Before operation k the table is made of the strings that are held and of dead ones; only a taken address stops an
   * object from being made.
   */
  ghost predicate Moment(ops: seq<Op>, got: seq<Ref>, texts: seq<map<Ref, string>>, deads: seq<set<Ref>>, k: nat) {
    k < |texts| == |deads| && |got| == |ops| ==>
      && IsHeld(ops, got, k, texts[k] - deads[k]) && Unique(texts[k] - deads[k])
      && (k < |ops| && ops[k].Intern? ==> (got[k] == NULL <==> ops[k].addr == NULL || ops[k].addr in texts[k]))
  }

  /**
   * At every moment of any run the table is made of the strings that are held, under the text they were asked for, and
   * of dead ones. So two held strings are equal exactly when their texts are, no string is both handed out again and
   * swept, and when no sweep is under way nothing else is left. A new mark phase and the check of the sizes wait for
   * the sweep to end.
   */
  method Run(tb: StringTable, ops: seq<Op>)
      returns (got: seq<Ref>, ghost texts: seq<map<Ref, string>>, ghost deads: seq<set<Ref>>)
    requires tb.Valid() && tb.Phase() && tb.text == map[]
    modifies tb
    ensures tb.Valid() && tb.Phase() && |got| == |ops| && |texts| == |deads| == |ops| + 1
    ensures texts[|ops|] == tb.text && deads[|ops|] == tb.dead && (tb.sweeping || tb.dead == {})
    ensures forall k: nat :: k <= |ops| ==> Moment(ops, got, texts, deads, k)
  {
    hide *;
    got := seq(|ops|, i => NULL);
    tb.NoneDead();
    HeldStart(ops, got, tb.text, tb.dead);
    texts, deads := [tb.text], [tb.dead];
    for i := 0 to |ops|
      invariant tb.Valid() && tb.Phase() && |got| == |ops| && |texts| == |deads| == i + 1 && texts[i] == tb.text
          && deads[i] == tb.dead
      invariant IsHeld(ops, got, i, tb.text - tb.dead)
      invariant forall k: nat :: k < i ==> Moment(ops, got, texts, deads, k)
      invariant forall k :: i <= k < |ops| ==> got[k] == NULL
    {
      ghost var before, text0, dead0 := got, tb.text, tb.dead;
      tb.HeldUnique();
      match ops[i] {
      case Intern(str, addr) =>
        if addr != NULL && addr !in tb.text {
          tb.FreshAddress(addr);
          ghost var c := tb.Crowded();
          var o := tb.Intern(str, addr);
          got := got[i := o];
          HeldIntern(text0, dead0, tb.text, tb.dead, str, addr, o, c);
        }
      case Die(doomed) =>
        tb.FinishSweep();
        tb.Die(doomed);
        HeldDie(text0, dead0, doomed);
      case SweepStrings =>
        if tb.sweeping {
          tb.SweepStrings();
          HeldSweep(text0, dead0, tb.dead);
        }
      case CheckSizes =>
        tb.FinishSweep();
        tb.CheckSizes();
        HeldNone(text0, dead0);
      }
      assert got == before[i := got[i]];
      HeldNext(ops, before, got, i, text0 - dead0, tb.text - tb.dead);
      MomentsKept(ops, before, got, texts, deads, i, tb.text, tb.dead);
      texts, deads := texts + [tb.text], deads + [tb.dead];
    }
    tb.HeldUnique();
    LastMoment(ops, got, texts, deads);
    tb.PhaseIs();
    PhaseBounds(tb.sweepMax, tb.sweeping, tb.cursor, |tb.hash|, tb.place, tb.dead);
  }

  lemma LastMoment(ops: seq<Op>, got: seq<Ref>, texts: seq<map<Ref, string>>, deads: seq<set<Ref>>)
    requires |texts| == |deads| == |ops| + 1 && |got| == |ops| && IsHeld(ops, got, |ops|, texts[|ops|] - deads[|ops|])
        && Unique(texts[|ops|] - deads[|ops|])
    ensures Moment(ops, got, texts, deads, |ops|)
  {
  }

  lemma MomentsKept(ops: seq<Op>, a: seq<Ref>, b: seq<Ref>, texts: seq<map<Ref, string>>, deads: seq<set<Ref>>, n: nat,
      text: map<Ref, string>, dead: set<Ref>)
    requires n < |ops| == |a| == |b| && b == a[n := b[n]] && |texts| == |deads| == n + 1
    requires forall k: nat :: k < n ==> Moment(ops, a, texts, deads, k)
    requires IsHeld(ops, a, n, texts[n] - deads[n]) && Unique(texts[n] - deads[n])
    requires ops[n].Intern? ==> (b[n] == NULL <==> ops[n].addr == NULL || ops[n].addr in texts[n])
    ensures forall k: nat :: k < n + 1 ==> Moment(ops, b, texts + [text], deads + [dead], k)
  {
    hide Unique, Held;
    forall k: nat | k < n + 1 ensures Moment(ops, b, texts + [text], deads + [dead], k) {
      assert k < n ==> Moment(ops, a, texts, deads, k);
      HeldSame(ops, a, b, k);
    }
  }

  lemma HeldStart(ops: seq<Op>, got: seq<Ref>, text: map<Ref, string>, dead: set<Ref>)
    requires |ops| == |got| && text == map[] && dead == {}
    ensures IsHeld(ops, got, 0, text - dead)
  {
  }

  lemma {:induction false} HeldSame(ops: seq<Op>, a: seq<Ref>, b: seq<Ref>, n: nat)
    requires n <= |ops| == |a| == |b| && a[..n] == b[..n]
    ensures Held(ops, a, n) == Held(ops, b, n)
  {
    if n > 0 {
      assert a[..n][n - 1] == b[..n][n - 1] && a[..n - 1] == a[..n][..n - 1] && b[..n - 1] == b[..n][..n - 1];
      HeldSame(ops, a, b, n - 1);
    }
  }

  lemma HeldNext(ops: seq<Op>, a: seq<Ref>, b: seq<Ref>, n: nat, before: map<Ref, string>, held: map<Ref, string>)
    requires n < |ops| == |a| == |b| && b == a[n := b[n]] && IsHeld(ops, a, n, before)
    requires held == match ops[n] { case Intern(str, addr) => if b[n] == NULL then before else before[b[n] := str]
        case Die(doomed) => before - doomed case _ => before }
    ensures IsHeld(ops, b, n + 1, held)
  {
    HeldSame(ops, a, b, n);
  }

  lemma HeldIntern(text: map<Ref, string>, dead: set<Ref>, text1: map<Ref, string>, dead1: set<Ref>, str: string,
      addr: Ref, o: Ref, c: bool)
    requires addr != NULL && addr !in text && addr !in dead && NULL !in text
    requires Unknown(text, str) ==> o == addr && if c then text1 == (text - dead)[addr := str] && dead1 == {}
        else text1 == text[addr := str] && dead1 == dead
    requires !Unknown(text, str) ==> o in text && text[o] == str && text1 == text && dead1 == dead - {o}
    ensures o != NULL && text1 - dead1 == (text - dead)[o := str]
  {
    hide Unknown;
    if Unknown(text, str) { assert text[addr := str] - dead == (text - dead)[o := str]; }
  }

  lemma HeldDie(text: map<Ref, string>, dead: set<Ref>, doomed: set<Ref>)
    ensures (text - dead) - doomed * (text - dead).Keys == text - dead - doomed
  {
  }

  lemma HeldSweep(text: map<Ref, string>, dead: set<Ref>, left: set<Ref>)
    requires left <= dead
    ensures text - (dead - left) - left == text - dead
  {
  }

  lemma HeldNone(text: map<Ref, string>, dead: set<Ref>)
    ensures text - dead - {} == text - dead
  {
  }

  ghost predicate Unknown(text: map<Ref, string>, str: string) { forall e :: e in text ==> text[e] != str }

  lemma Known(text: map<Ref, string>, str: string, o: Ref)
    requires o in text && text[o] == str
    ensures !Unknown(text, str)
  {
  }

  /** A search of the bucket has not met str before rest. */
  ghost predicate Unseen(text: map<Ref, string>, str: string, list: seq<Ref>, rest: seq<Ref>) {
    && (forall e {:trigger e in rest} :: e in rest ==> e in list)
    && (forall e {:trigger e in list} :: e in list && e in text && text[e] == str ==> e in rest)
  }

  lemma UnseenNext(text: map<Ref, string>, str: string, list: seq<Ref>, rest: seq<Ref>)
    requires Unseen(text, str, list, rest) && rest != []
    ensures rest[0] in list && (rest[0] in text && text[rest[0]] != str ==> Unseen(text, str, list, rest[1..]))
  {
    var e := rest[0];
    HeadTail(rest);
    assert e in rest && e in list;
  }

  lemma HeadTail(list: seq<Ref>)
    requires list != []
    ensures list[0] in list && forall e :: e in list <==> e == list[0] || e in list[1..]
  {
    assert list == [list[0]] + list[1..];
  }

  /** The dead objects of bucket i. */
  ghost function Gone(place: map<Ref, int>, dead: set<Ref>, i: nat): set<Ref> {
    set e | e in place && place[e] == i && e in dead
  }

  /** While bucket i is being swept: gone holds its dead objects before rest. */
  ghost predicate Split(place: map<Ref, int>, dead: set<Ref>, i: nat, list: seq<Ref>, rest: seq<Ref>, gone: set<Ref>) {
    && Distinct(rest)
    && (forall e {:trigger e in rest} :: e in rest ==> e in list)
    && (forall e {:trigger e in list} :: e in list <==> e in place && place[e] == i)
    && (forall e {:trigger e in gone} :: e in gone <==> e in list && e !in rest && e in dead)
  }

  lemma SplitNext(place: map<Ref, int>, dead: set<Ref>, i: nat, list: seq<Ref>, rest: seq<Ref>, gone: set<Ref>)
    requires Split(place, dead, i, list, rest, gone) && rest != []
    ensures rest[0] !in gone && Split(place, dead, i, list, rest[1..], if rest[0] in dead then gone + {rest[0]}
        else gone)
  {
    var e, t := rest[0], rest[1..];
    HeadAlone(rest);
    HeadTail(rest);
    assert Distinct(t) by {
      forall i, j {:trigger t[i], t[j]} | 0 <= i < j < |t| ensures t[i] != t[j] {
        assert t[i] == rest[i + 1] && t[j] == rest[j + 1];
      }
    }
    hide Distinct;
  }

  lemma SplitEnd(place: map<Ref, int>, dead: set<Ref>, i: nat, list: seq<Ref>, gone: set<Ref>)
    requires Split(place, dead, i, list, [], gone)
    ensures gone == Gone(place, dead, i)
  {
    forall e ensures e in gone <==> e in Gone(place, dead, i) { assert e in list <==> e in place && place[e] == i; }
  }

  lemma MinusNone(text: map<Ref, string>, dead: set<Ref>, place: map<Ref, int>)
    ensures text - {} == text && dead - {} == dead && place - {} == place
  {
  }

  lemma MinusAll(text: map<Ref, string>, dead: set<Ref>, place: map<Ref, int>, gone: set<Ref>, more: set<Ref>)
    ensures text - gone - more == text - (gone + more) && dead - gone - more == dead - (gone + more)
        && place - gone - more == place - (gone + more)
  {
  }

  lemma MinusSame(text: map<Ref, string>, dead: set<Ref>, place: map<Ref, int>)
    ensures text - (dead - dead) == text && place - (dead - dead) == place
  {
  }

  ghost predicate Ahead(place: map<Ref, int>, dead: set<Ref>, c: nat) {
    forall e {:trigger e in dead} :: e in dead ==> e in place && place[e] >= c
  }

  ghost predicate PhaseOk(max: nat, sweeping: bool, cursor: nat, n: nat, place: map<Ref, int>, dead: set<Ref>) {
    max > 0 && if sweeping then cursor <= n && Ahead(place, dead, cursor) else dead == {}
  }

  lemma PhaseBounds(max: nat, sweeping: bool, cursor: nat, n: nat, place: map<Ref, int>, dead: set<Ref>)
    requires PhaseOk(max, sweeping, cursor, n, place, dead)
    ensures max > 0 && if sweeping then cursor <= n else dead == {}
  {
  }

  lemma PhaseRest(max: nat, cursor: nat, n: nat, place: map<Ref, int>)
    ensures PhaseOk(max, false, cursor, n, place, {}) <==> max > 0
  {
  }

  lemma PhaseLess(max: nat, sweeping: bool, cursor: nat, n: nat, place: map<Ref, int>, dead: set<Ref>, o: Ref)
    requires PhaseOk(max, sweeping, cursor, n, place, dead)
    ensures PhaseOk(max, sweeping, cursor, n, place, dead - {o})
  {
    assert dead == {} ==> dead - {o} == {};
  }

  lemma PhaseNew(max: nat, sweeping: bool, cursor: nat, n: nat, place: map<Ref, int>, dead: set<Ref>, o: Ref, b: nat)
    requires PhaseOk(max, sweeping, cursor, n, place, dead) && o !in place
    ensures PhaseOk(max, sweeping, cursor, n, place[o := b], dead)
  {
  }

  /** The dead objects in the buckets from c on. */
  ghost function Later(place: map<Ref, int>, dead: set<Ref>, c: nat): set<Ref> {
    set e | e in dead && e in place && place[e] >= c
  }

  lemma LaterStart(max: nat, c: nat, n: nat, place: map<Ref, int>, dead: set<Ref>)
    requires PhaseOk(max, true, c, n, place, dead)
    ensures max > 0 && c <= n && dead == Later(place, dead, c)
  {
    forall e ensures e in dead <==> e in Later(place, dead, c) {}
  }

  lemma LaterNext(place: map<Ref, int>, dead: set<Ref>, text: map<Ref, string>, c: nat)
    ensures var left, next := Later(place, dead, c), Later(place, dead, c + 1);
            var g := Gone(place - (dead - left), left, c);
            left - g == next && text - (dead - left) - g == text - (dead - next) && place - (dead - left) - g == place
                - (dead - next)
  {
    var left, next := Later(place, dead, c), Later(place, dead, c + 1);
    var g := Gone(place - (dead - left), left, c);
    assert left - g == next;
    assert (dead - left) + g == dead - next;
  }

  lemma LaterEnd(place: map<Ref, int>, dead: set<Ref>, c: nat, place1: map<Ref, int>, n: nat, d: nat, max: nat)
    requires place1 == place - (dead - Later(place, dead, c)) && c <= n && (c == d || c == n <= d) && max > 0
    requires forall e :: e in place1 ==> 0 <= place1[e] < n
    ensures Later(place, dead, c) == Later(place, dead, d)
    ensures PhaseOk(max, c < n, c, n, place1, Later(place, dead, c))
  {
    var left := Later(place, dead, c);
    forall e | e in left ensures e in place1 && place1[e] == place[e] && c <= place[e] < n {}
  }

  lemma LaterLess(place: map<Ref, int>, dead: set<Ref>, c: nat, dead0: set<Ref>, text0: map<Ref, string>)
    requires dead <= dead0
    ensures var d := Later(place, dead, c); d <= dead0 && text0 - (dead0 - dead) - (dead - d) == text0 - (dead0 - d)
  {
    var d := Later(place, dead, c);
    assert (dead0 - dead) + (dead - d) == dead0 - d;
  }

  lemma UnknownLess(text: map<Ref, string>, dead: set<Ref>, str: string)
    requires Unknown(text, str)
    ensures Unknown(text - dead, str)
  {
  }

  lemma EraseLink(s: State, i: nat, prev: Ref, kept: seq<Ref>, rest: seq<Ref>)
    requires Buckets(s) && i < |s.hash| == |s.lists| && s.lists[i] == kept + rest && rest != [] && prev
        == if kept == [] then NULL else kept[|kept| - 1]
    ensures rest[0] in s.next && s.next[rest[0]] == (if |rest| > 1 then rest[1] else NULL)
        && (prev == NULL <==> kept == []) && rest[0] in s.place
  {
    assert BucketOk(s, i);
    assert s.lists[i][|kept|] == rest[0];
    assert kept != [] ==> s.lists[i][|kept| - 1] == prev;
    var e := rest[0];
    HeadTail(rest);
    assert e in rest && e in kept + rest && PlaceOk(s, e);
    hide Distinct;
  }

  lemma DroppedIs(s: State, i: nat, kept: seq<Ref>, rest: seq<Ref>, prev: Ref, after: Ref)
    requires i < |s.hash| == |s.lists| && rest != [] && after == (if |rest| > 1 then rest[1] else NULL)
        && (prev == NULL <==> kept == []) && (kept != [] ==> prev == kept[|kept| - 1])
    ensures Dropped(s, i, kept, rest) == State(if prev == NULL then s.hash[i := after] else s.hash,
        (if prev == NULL then s.next else s.next[prev := after]) - {rest[0]}, s.lists[i := kept + rest[1..]],
        s.place - {rest[0]})
  {
  }

  lemma DroppedPlaced(s: State, t: State, h: map<Ref, nat>, n: nat, o: Ref)
    requires n > 0 && Placed(s, h, n, n, 0) && t.place == s.place - {o}
    ensures Placed(t, h - {o}, n, n, 0)
  {
  }

  lemma ContentsLess(text: map<Ref, string>, h: map<Ref, nat>, place: map<Ref, int>, fn: string -> nat, o: Ref)
    requires Contents(text, h, place, fn) && o in place
    ensures Contents(text - {o}, h - {o}, place - {o}, fn) && |place - {o}| == |place| - 1
        && (text - {o}).Keys == text.Keys - {o}
  {
    assert (text - {o}).Keys == text.Keys - {o} && (h - {o}).Keys == h.Keys - {o};
    CardLess(place, o);
  }

  lemma Absent(text: map<Ref, string>, h: map<Ref, nat>, place: map<Ref, int>, fn: string -> nat, o: Ref)
    requires Contents(text, h, place, fn) && o !in text
    ensures o !in place && o !in h
  {
  }

  lemma PushedPlaced(s: State, h: map<Ref, nat>, n: nat, o: Ref, hv: nat)
    requires n == |s.hash| == |s.lists| && n > 0 && Placed(s, h, n, n, 0) && o !in s.place
    ensures Placed(Pushed(s, o, hv % n), h[o := hv], n, n, 0)
  {
    var t := Pushed(s, o, hv % n);
    forall e | e in t.place ensures e in h[o := hv] && t.place[e] == h[o := hv][e] % n {
      assert e in s.place ==> s.place[e] == h[e] % n;
    }
  }

  lemma ContentsNew(text: map<Ref, string>, h: map<Ref, nat>, place: map<Ref, int>, fn: string -> nat, o: Ref,
      str: string, b: int)
    requires Contents(text, h, place, fn) && o !in text && Unknown(text, str)
    ensures Contents(text[o := str], h[o := fn(str)], place[o := b], fn) && |place[o := b]| == |place| + 1
        && text.Keys <= text[o := str].Keys
  {
    CardMore(place, o, b);
    HashNew(text, h, fn, o, str, text[o := str], h[o := fn(str)]);
    OneText(text, o, str, text[o := str]);
  }

  lemma HashNew(text: map<Ref, string>, h: map<Ref, nat>, fn: string -> nat, o: Ref, str: string, t: map<Ref, string>,
      g: map<Ref, nat>)
    requires text.Keys == h.Keys && (forall e {:trigger h[e]} :: e in text ==> h[e] == fn(text[e]))
        && t == text[o := str] && g == h[o := fn(str)]
    ensures t.Keys == g.Keys == text.Keys + {o} && forall e {:trigger g[e]} :: e in t ==> g[e] == fn(t[e])
  {
  }

  lemma OneText(text: map<Ref, string>, o: Ref, str: string, t: map<Ref, string>)
    requires (forall e, f {:trigger text[e], text[f]} :: e in text && f in text && text[e] == text[f] ==> e == f)
        && Unknown(text, str) && t == text[o := str]
    ensures forall e, f {:trigger t[e], t[f]} :: e in t && f in t && t[e] == t[f] ==> e == f
  {
    forall e, f {:trigger t[e], t[f]} | e in t && f in t && t[e] == t[f] ensures e == f {
      assert e != o && f != o ==> text[e] == text[f];
    }
  }

  lemma CardMore(m: map<Ref, int>, o: Ref, b: int)
    requires o !in m
    ensures m[o := b].Keys == m.Keys + {o} && |m[o := b]| == |m| + 1
  {
    assert m[o := b].Keys == m.Keys + {o};
    assert |m[o := b]| == |m[o := b].Keys| && |m| == |m.Keys|;
  }

  lemma CardLess(m: map<Ref, int>, o: Ref)
    requires o in m
    ensures (m - {o}).Keys == m.Keys - {o} && |m - {o}| == |m| - 1
  {
    var t := m - {o};
    assert t.Keys == m.Keys - {o};
    assert |t| == |t.Keys| && |m| == |m.Keys|;
  }

  lemma Sizes(s: State)
    requires Buckets(s)
    ensures |s.lists| == |s.hash|
  {
  }

  lemma DetachedIs(s: State, b: nat)
    requires b < |s.hash| == |s.lists|
    ensures Detached(s, b) == State(s.hash[b := NULL], s.next, s.lists[b := []], Detached(s, b).place)
        && Detached(s, b).place.Keys == s.place.Keys
  {
  }

  lemma PushedIs(s: State, p: Ref, h: nat)
    requires h < |s.hash| == |s.lists|
    ensures Pushed(s, p, h) == State(s.hash[h := p], s.next[p := s.hash[h]], s.lists[h := [p] + s.lists[h]],
        s.place[p := h])
  {
  }

  lemma NonEmpty(next: map<Ref, Ref>, p: Ref, rest: seq<Ref>)
    requires Chain(next, p, rest) && p != NULL
    ensures rest != [] && rest[0] == p && p in rest && p in next
  {
  }

  lemma ChainEmpty(next: map<Ref, Ref>, rest: seq<Ref>)
    requires Chain(next, NULL, rest)
    ensures rest == []
  {
  }

  lemma MovingAt(s: State, h: map<Ref, nat>, n: nat, m: nat, i: nat, rest: seq<Ref>)
    requires n > 0 && m > 0 && Moving(s, h, n, m, i, rest) && rest != [] && rest[0] in s.place
    ensures rest[0] in h && s.place[rest[0]] == -1 && h[rest[0]] % m < m
  {
    var e := rest[0];
    assert e in rest && e in s.place && s.place[e] == s.place[rest[0]];
  }

  lemma PlacedStart(s: State, t: State, h: map<Ref, nat>, n: nat, m: nat)
    requires n > 0 && m > 0 && t.place == s.place && (Placed(s, h, n, n, 0) || Placed(s, h, n, m, 0))
    ensures Placed(t, h, n, m, 0)
  {
  }

  lemma PlacedEnd(s: State, h: map<Ref, nat>, n: nat, m: nat)
    requires n > 0 && m > 0 && Placed(s, h, n, m, n)
    ensures Placed(s, h, m, m, 0) && forall e :: e in s.place ==> 0 <= s.place[e] < m
  {
    forall e | e in s.place ensures e in h && s.place[e] == h[e] % m && 0 <= s.place[e] < m {
      assert s.place[e] == s.place[e] && e in h && h[e] % n < n;
    }
  }

  lemma KeysCard(a: map<Ref, int>, b: map<Ref, int>)
    requires a.Keys == b.Keys
    ensures |a| == |b|
  {
    assert |a| == |a.Keys| && |b| == |b.Keys|;
  }

  lemma ContentsSame(text: map<Ref, string>, h: map<Ref, nat>, a: map<Ref, int>, b: map<Ref, int>, fn: string -> nat)
    requires Contents(text, h, a, fn) && a.Keys == b.Keys
    ensures Contents(text, h, b, fn)
  {
  }
}
