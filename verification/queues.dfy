/** Intrusive circular lists (queue.h). */
module Queues {

  /** The two link fields of every queue node in memory. */
  datatype Links<N(==,!new)> = Links(next: map<N, N>, prev: map<N, N>)

  ghost predicate Has<N(!new)>(l: Links<N>, n: N) { n in l.next && n in l.prev }

  /** The neighbour of r[i] on a ring. */
  ghost function After<N(!new)>(r: seq<N>, i: nat): N
    requires i < |r|
  {
    if i + 1 < |r| then r[i + 1] else r[0]
  }

  ghost function Before<N(!new)>(r: seq<N>, i: nat): N
    requires i < |r|
  {
    if i > 0 then r[i - 1] else r[|r| - 1]
  }

  ghost predicate LinkedAt<N(!new)>(l: Links<N>, r: seq<N>, i: nat) {
    i < |r| ==> Has(l, r[i]) && l.next[r[i]] == After(r, i) && l.prev[r[i]] == Before(r, i)
  }

  ghost predicate Distinct<N(!new)>(r: seq<N>) {
    forall i, j {:trigger r[i], r[j]} :: 0 <= i < j < |r| ==> r[i] != r[j]
  }

  ghost predicate Ring<N(!new)>(l: Links<N>, r: seq<N>) {
    Distinct(r) && forall i: nat {:trigger LinkedAt(l, r, i)} :: LinkedAt(l, r, i)
  }

  /** The queue with header h holds the nodes s, in this order. */
  ghost predicate IsQueue<N(!new)>(l: Links<N>, h: N, s: seq<N>) { Ring(l, [h] + s) }

  /** Nothing changed outside the nodes of s. */
  ghost predicate Only<N(!new)>(l: Links<N>, m: Links<N>, s: seq<N>) {
    forall n {:trigger Has(m, n)} {:trigger n in m.next} ::
        n !in s ==> (Has(l, n) ==> Has(m, n) && m.next[n] == l.next[n] && m.prev[n] == l.prev[n])
  }

  /** A queue elsewhere is still the same queue. */
  lemma Elsewhere<N(!new)>(l: Links<N>, m: Links<N>, s: seq<N>, h: N, t: seq<N>)
    requires Only(l, m, s) && IsQueue(l, h, t) && h !in s && forall n :: n in t ==> n !in s
    ensures IsQueue(m, h, t)
  {
    var r := [h] + t;
    forall i: nat ensures LinkedAt(m, r, i) {
      assert LinkedAt(l, r, i);
      if i < |r| { assert r[i] == h || r[i] in t; }
    }
  }

  /** The test of uv_cancel: a node in a queue is not linked to itself, so QUEUE_EMPTY tells the two apart. */
  lemma NotSelf<N(!new)>(l: Links<N>, h: N, s: seq<N>, n: N)
    requires IsQueue(l, h, s) && n in s
    ensures Has(l, n) && l.next[n] != n
  {
    var i :| 0 <= i < |s| && s[i] == n;
    var r := [h] + s;
    assert r[i + 1] == n && LinkedAt(l, r, i + 1);
    if i + 2 < |r| { assert r[i + 2] != r[i + 1]; } else { assert r[0] != r[i + 1]; }
  }

  lemma EmptyQueue<N(!new)>(l: Links<N>, h: N, s: seq<N>)
    requires IsQueue(l, h, s)
    ensures Has(l, h) && (l.next[h] == h <==> s == []) && (s != [] ==> l.next[h] == s[0])
  {
    var r := [h] + s;
    assert LinkedAt(l, r, 0) && r[0] == h;
    if s != [] { assert r[1] == s[0] && r[1] != r[0]; }
  }

  lemma RingFold<N(!new)>(l: Links<N>, r: seq<N>)
    requires Distinct(r) && forall i: nat :: i < |r| ==> LinkedAt(l, r, i)
    ensures Ring(l, r)
  {
  }

  class Memory<N(==,!new)> {
    var next: map<N, N>
    var prev: map<N, N>

    constructor ()
      ensures next == map[] && prev == map[]
    {
      next, prev := map[], map[];
    }

    /** QUEUE_INIT */
    method Init(q: N)
      modifies this
      ensures IsQueue(Links(next, prev), q, []) && Only(old(Links(next, prev)), Links(next, prev), [q])
    {
      next := next[q := q];
      prev := prev[q := q];
      assert forall i: nat :: LinkedAt(Links(next, prev), [q], i);
      assert [q] + [] == [q];
    }

    /** QUEUE_INSERT_TAIL */
    method InsertTail(h: N, q: N, ghost s: seq<N>)
      requires IsQueue(Links(next, prev), h, s) && q != h && q !in s
      modifies this
      ensures IsQueue(Links(next, prev), h, s + [q]) && Only(old(Links(next, prev)), Links(next, prev), [h] + s + [q])
    {
      ghost var l, r := Links(next, prev), [h] + s;
      assert LinkedAt(l, r, 0) && LinkedAt(l, r, |s|);
      next := next[q := h];
      prev := prev[q := prev[h]];
      next := next[prev[q] := q];
      prev := prev[h := q];
      TailLinked(l, Links(next, prev), h, q, s);
    }

    /** QUEUE_REMOVE: the links of the node itself stay. */
    method Remove(q: N, ghost h: N, ghost a: seq<N>, ghost b: seq<N>)
      requires IsQueue(Links(next, prev), h, a + [q] + b)
      modifies this
      ensures IsQueue(Links(next, prev), h, a + b) && Only(old(Links(next, prev)), Links(next, prev), [h] + a + [q] + b)
    {
      ghost var l, r := Links(next, prev), [h] + (a + [q] + b);
      assert r[|a| + 1] == q && LinkedAt(l, r, |a| + 1) && LinkedAt(l, r, |a|);
      if b != [] { assert LinkedAt(l, r, |a| + 2); } else { assert LinkedAt(l, r, 0); }
      next := next[prev[q] := next[q]];
      prev := prev[next[q] := prev[q]];
      RemoveLinked(l, Links(next, prev), h, q, a, b);
    }

    /** QUEUE_SPLIT: the nodes from q on move to the queue n. */
    method Split(h: N, q: N, n: N, ghost a: seq<N>, ghost b: seq<N>)
      requires IsQueue(Links(next, prev), h, a + b) && b != [] && b[0] == q && n != h && n !in a && n !in b
      modifies this
      ensures IsQueue(Links(next, prev), h, a) && IsQueue(Links(next, prev), n, b)
          && Only(old(Links(next, prev)), Links(next, prev), [h, n] + a + b)
    {
      ghost var l, r := Links(next, prev), [h] + (a + b);
      assert LinkedAt(l, r, 0) && LinkedAt(l, r, |a| + 1) && r[|a| + 1] == q && LinkedAt(l, r, |a|)
          && LinkedAt(l, r, |a| + |b|);
      prev := prev[n := prev[h]];
      next := next[prev[n] := n];
      next := next[n := q];
      prev := prev[h := prev[q]];
      next := next[prev[h] := h];
      prev := prev[q := n];
      SplitLinked(l, Links(next, prev), h, q, n, a, b);
    }

    /** QUEUE_ADD: the nodes of the queue n move to the end of the queue h; the header n is left as it is. */
    method Add(h: N, n: N, ghost s: seq<N>, ghost t: seq<N>)
      requires IsQueue(Links(next, prev), h, s) && IsQueue(Links(next, prev), n, t) && n != h && n !in s && h !in t
          && forall x :: x in s ==> x !in t
      modifies this
      ensures IsQueue(Links(next, prev), h, s + t) && Only(old(Links(next, prev)), Links(next, prev), [h, n] + s + t)
    {
      ghost var l, r, u := Links(next, prev), [h] + s, [n] + t;
      assert LinkedAt(l, r, 0) && LinkedAt(l, r, |s|) && LinkedAt(l, u, 0) && LinkedAt(l, u, |t|);
      if t != [] { assert LinkedAt(l, u, 1); }
      next := next[prev[h] := next[n]];
      prev := prev[next[n] := prev[h]];
      prev := prev[h := prev[n]];
      next := next[prev[h] := h];
      AddLinked(l, Links(next, prev), h, n, s, t);
    }
  }

  lemma TailLinked<N(!new)>(l: Links<N>, m: Links<N>, h: N, q: N, s: seq<N>)
    requires IsQueue(l, h, s) && q != h && q !in s && Has(l, h)
    requires var last := l.prev[h]; m == Links(l.next[q := h][last := q], l.prev[q := last][h := q])
    ensures IsQueue(m, h, s + [q]) && Only(l, m, [h] + s + [q])
  {
    var r, u := [h] + s, [h] + (s + [q]);
    assert LinkedAt(l, r, 0) && LinkedAt(l, r, |s|);
    assert l.prev[h] == r[|s|];
    forall i: nat | i < |u| ensures LinkedAt(m, u, i) {
      assert LinkedAt(l, r, i);
      if i < |r| { assert u[i] == r[i]; }
    }
    forall i, j {:trigger u[i], u[j]} | 0 <= i < j < |u| ensures u[i] != u[j] {
      assert u[i] == r[i] && (j < |r| ==> u[j] == r[j]) && (r[i] == h || r[i] in s);
    }
    RingFold(m, u);
    assert forall n :: n in [h] + s + [q] <==> n in u;
  }

  lemma RemoveLinked<N(!new)>(l: Links<N>, m: Links<N>, h: N, q: N, a: seq<N>, b: seq<N>)
    requires IsQueue(l, h, a + [q] + b) && Has(l, q)
        && m == Links(l.next[l.prev[q] := l.next[q]], l.prev[l.next[q] := l.prev[q]])
    ensures IsQueue(m, h, a + b) && Only(l, m, [h] + a + [q] + b)
  {
    var r, u := [h] + (a + [q] + b), [h] + (a + b);
    var k := |a| + 1;
    assert r[k] == q && LinkedAt(l, r, k);
    forall i: nat | i < |u| ensures LinkedAt(m, u, i) {
      var o := if i < k then i else i + 1;
      assert u[i] == r[o] && LinkedAt(l, r, o) && r[o] != q;
      assert (o != k - 1 ==> r[o] != l.prev[q]) && (After(r, k) != r[o] ==> r[o] != l.next[q]);
    }
    forall i, j {:trigger u[i], u[j]} | 0 <= i < j < |u| ensures u[i] != u[j] {
      assert u[i] == r[if i < k then i else i + 1] && u[j] == r[if j < k then j else j + 1];
    }
    RingFold(m, u);
    assert l.prev[q] in r && l.next[q] in r;
    assert forall n :: n in [h] + a + [q] + b <==> n in r;
  }

  lemma SplitLinked<N(!new)>(l: Links<N>, m: Links<N>, h: N, q: N, n: N, a: seq<N>, b: seq<N>)
    requires IsQueue(l, h, a + b) && b != [] && b[0] == q && n != h && n !in a && n !in b && Has(l, h) && Has(l, q)
    requires m == Links(l.next[l.prev[h] := n][n := q][l.prev[q] := h], l.prev[n := l.prev[h]][h := l.prev[q]][q := n])
    ensures IsQueue(m, h, a) && IsQueue(m, n, b) && Only(l, m, [h, n] + a + b)
  {
    var r, u, v := [h] + (a + b), [h] + a, [n] + b;
    assert LinkedAt(l, r, 0) && LinkedAt(l, r, |a| + 1) && r[|a| + 1] == q;
    assert l.prev[h] == r[|a| + |b|] && l.prev[q] == r[|a|];
    forall i: nat | i < |u| ensures LinkedAt(m, u, i) { assert u[i] == r[i] && LinkedAt(l, r, i); }
    forall i: nat | i < |v| ensures LinkedAt(m, v, i) {
      if i > 0 { assert v[i] == b[i - 1] == r[|a| + i] && LinkedAt(l, r, |a| + i); }
    }
    forall i, j {:trigger u[i], u[j]} | 0 <= i < j < |u| ensures u[i] != u[j] { assert u[i] == r[i] && u[j] == r[j]; }
    forall i, j {:trigger v[i], v[j]} | 0 <= i < j < |v| ensures v[i] != v[j] {
      assert v[j] == b[j - 1] == r[|a| + j];
      if i > 0 { assert v[i] == b[i - 1] == r[|a| + i]; }
    }
    RingFold(m, u);
    RingFold(m, v);
    assert forall x :: x in [h, n] + a + b <==> x in r || x == n;
  }

  lemma AddLinked<N(!new)>(l: Links<N>, m: Links<N>, h: N, n: N, s: seq<N>, t: seq<N>)
    requires IsQueue(l, h, s) && IsQueue(l, n, t) && n != h && n !in s && h !in t && (forall x :: x in s ==> x !in t)
        && Has(l, h) && Has(l, n)
    requires var p := l.prev[l.next[n] := l.prev[h]];
        m == Links(l.next[l.prev[h] := l.next[n]][p[n] := h], p[h := p[n]])
    ensures IsQueue(m, h, s + t) && Only(l, m, [h, n] + s + t)
  {
    var r, u, v := [h] + s, [n] + t, [h] + (s + t);
    assert LinkedAt(l, r, 0) && LinkedAt(l, u, 0) && l.prev[h] == r[|s|] && l.prev[n] == u[|t|];
    forall i: nat | i < |v| ensures LinkedAt(m, v, i) {
      if i < |r| {
        assert v[i] == r[i] && LinkedAt(l, r, i) && (r[i] == h || r[i] in s);
      } else {
        assert v[i] == t[i - |r|] == u[i - |s|] && LinkedAt(l, u, i - |s|) && t[i - |r|] in t;
      }
    }
    forall i, j {:trigger v[i], v[j]} | 0 <= i < j < |v| ensures v[i] != v[j] {
      if j < |r| { assert v[i] == r[i] && v[j] == r[j]; }
      else {
        assert v[j] == t[j - |r|] == u[j - |s|] && v[j] in t;
        if i < |r| { assert v[i] == h || v[i] == s[i - 1]; } else { assert v[i] == u[i - |s|]; }
      }
    }
    RingFold(m, v);
    assert forall x :: x in [h, n] + s + t <==> x in r || x in u;
  }
}
