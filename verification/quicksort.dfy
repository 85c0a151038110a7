/**
 * table.sort (ltablib.c): quicksort with the median of three, a loop for the larger half and a call for the smaller
 * one.
 */
module Quicksort {
  import opened Powers

  type Less = (int, int) -> bool

  /** A valid order function. */
  ghost predicate Valid(less: Less) {
    && (forall a {:trigger less(a, a)} :: !less(a, a))
    && (forall a, b, c {:trigger less(a, b), less(b, c)} :: less(a, b) && less(b, c) ==> less(a, c))
    && (forall a, b, c {:trigger less(a, c), less(a, b)} {:trigger less(a, c), less(b, c)} ::
        less(a, c) ==> less(a, b) || less(b, c))
  }

  lemma ValidAt(less: Less, a: int, b: int, c: int)
    requires Valid(less)
    ensures !less(a, a) && (less(a, b) ==> !less(b, a)) && (!less(a, b) && !less(b, c) ==> !less(a, c))
  {
    assert !less(a, a);
  }

  // ---- Permutations of a part

  /** t is s with the elements from l to u permuted. */
  ghost predicate Perm(s: seq<int>, t: seq<int>, l: int, u: int) {
    && |t| == |s| && 0 <= l && u < |s|
    && (forall k {:trigger t[k]} :: 0 <= k < |s| && !(l <= k <= u) ==> t[k] == s[k])
    && (l <= u + 1 ==> multiset(t[l..u + 1]) == multiset(s[l..u + 1]))
  }

  lemma PermSame(s: seq<int>, l: int, u: int)
    requires 0 <= l && u < |s|
    ensures Perm(s, s, l, u)
  {
  }

  lemma PermTrans(s: seq<int>, t: seq<int>, v: seq<int>, l: int, u: int)
    requires Perm(s, t, l, u) && Perm(t, v, l, u)
    ensures Perm(s, v, l, u)
  {
    assert forall k :: 0 <= k < |s| && !(l <= k <= u) ==> v[k] == t[k];
  }

  /** A permutation of a smaller part. */
  lemma PermWider(s: seq<int>, t: seq<int>, j: int, i: int, l: int, u: int)
    requires Perm(s, t, j, i) && 0 <= l <= j <= i + 1 && i <= u < |s|
    ensures Perm(s, t, l, u)
  {
    assert t[l..j] == s[l..j] && t[i + 1..u + 1] == s[i + 1..u + 1];
    assert t[l..u + 1] == t[l..j] + t[j..i + 1] + t[i + 1..u + 1];
    assert s[l..u + 1] == s[l..j] + s[j..i + 1] + s[i + 1..u + 1];
  }

  lemma SwapPerm(s: seq<int>, i: int, j: int, l: int, u: int)
    requires 0 <= l <= i <= u < |s| && l <= j <= u
    ensures Perm(s, s[i := s[j]][j := s[i]], l, u)
  {
    var t := s[i := s[j]][j := s[i]];
    var a, b := s[l..u + 1], t[l..u + 1];
    assert b == a[i - l := a[j - l]][j - l := a[i - l]];
    assert multiset(b) == multiset(a);
  }

  /** Every element of the permuted part was in that part. */
  lemma PermFind(s: seq<int>, t: seq<int>, l: int, u: int, k: int) returns (o: int)
    requires Perm(s, t, l, u) && l <= k <= u
    ensures l <= o <= u && s[o] == t[k]
  {
    assert t[k] == t[l..u + 1][k - l];
    assert t[k] in multiset(t[l..u + 1]);
    assert t[k] in s[l..u + 1];
    var m :| 0 <= m < |s[l..u + 1]| && s[l..u + 1][m] == t[k];
    o := l + m;
  }

  // ---- Order

  /** The elements from l0 to u0 are in order, except for pairs between l and u. */
  ghost predicate Around(less: Less, s: seq<int>, l0: int, u0: int, l: int, u: int)
    requires 0 <= l0 && u0 < |s|
  {
    forall p, q {:trigger s[p], s[q]} :: l0 <= p < q <= u0 && !(l <= p && q <= u) ==> !less(s[q], s[p])
  }

  ghost predicate Sorted(less: Less, s: seq<int>, l: int, u: int)
    requires 0 <= l && u < |s|
  {
    forall p, q {:trigger s[p], s[q]} :: l <= p < q <= u ==> !less(s[q], s[p])
  }

  lemma PermAround(less: Less, s: seq<int>, t: seq<int>, l0: int, u0: int, l: int, u: int)
    requires 0 <= l0 <= l && u <= u0 < |s| && Around(less, s, l0, u0, l, u) && Perm(s, t, l, u)
    ensures Around(less, t, l0, u0, l, u)
  {
    forall p, q {:trigger t[p], t[q]} | l0 <= p < q <= u0 && !(l <= p && q <= u) ensures !less(t[q], t[p]) {
      var a, b := p, q;
      if l <= p <= u { a := PermFind(s, t, l, u, p); }
      if l <= q <= u { b := PermFind(s, t, l, u, q); }
      assert !less(s[b], s[a]);
    }
  }

  /** The pivot is in its place at i. */
  ghost predicate Split(less: Less, s: seq<int>, l: int, u: int, i: int)
    requires 0 <= l <= i <= u < |s|
  {
    && (forall k {:trigger s[k]} :: l <= k < i ==> !less(s[i], s[k]))
    && (forall k {:trigger s[k]} :: i < k <= u ==> !less(s[k], s[i]))
  }

  lemma SplitAround(less: Less, s: seq<int>, l0: int, u0: int, l: int, u: int, i: int, j: int, k: int)
    requires Valid(less) && 0 <= l0 <= l <= i <= u <= u0 < |s| && Around(less, s, l0, u0, l, u)
        && Split(less, s, l, u, i)
    requires (j == l && k == i - 1) || (j == i + 1 && k == u)
    ensures var t := if j == l then i + 1 else l; var v := if j == l then u else i - 1;
      forall p, q {:trigger s[p], s[q]} :: l0 <= p < q <= u0 && !(t <= p && q <= v) && !(j <= p && q <= k)
          ==> !less(s[q], s[p])
  {
    var t, v := if j == l then i + 1 else l, if j == l then u else i - 1;
    forall p, q {:trigger s[p], s[q]} | l0 <= p < q <= u0 && !(t <= p && q <= v) && !(j <= p && q <= k)
        ensures !less(s[q], s[p]) {
      if l <= p && q <= u { ValidAt(less, s[q], s[i], s[p]); }
    }
  }

  /** Sorting one side of the pivot leaves only the other side to be sorted. */
  lemma SideSorted(less: Less, s: seq<int>, r: seq<int>, l0: int, u0: int, l: int, u: int, i: int, j: int, k: int)
    requires Valid(less) && 0 <= l0 <= l <= i <= u <= u0 < |s| && Around(less, s, l0, u0, l, u)
        && Split(less, s, l, u, i)
    requires (j == l && k == i - 1) || (j == i + 1 && k == u)
    requires Perm(s, r, j, k) && Sorted(less, r, j, k)
    ensures var t, v := if j == l then i + 1 else l, if j == l then u else i - 1; Around(less, r, l0, u0, t, v)
  {
    SplitAround(less, s, l0, u0, l, u, i, j, k);
    var t, v := if j == l then i + 1 else l, if j == l then u else i - 1;
    forall p, q {:trigger r[p], r[q]} | l0 <= p < q <= u0 && !(t <= p && q <= v) ensures !less(r[q], r[p]) {
      if !(j <= p && q <= k) {
        var a, b := p, q;
        if j <= p <= k { a := PermFind(s, r, j, k, p); }
        if j <= q <= k { b := PermFind(s, r, j, k, q); }
        assert !less(s[b], s[a]);
      }
    }
  }

  // ---- auxsort

  /** set2: swaps two elements. */
  method Swap(a: array<int>, i: int, j: int, ghost l: int, ghost u: int)
    requires 0 <= l <= i <= u < a.Length && l <= j <= u
    modifies a
    ensures a[i] == old(a[j]) && a[j] == old(a[i]) && (forall k ::
        0 <= k < a.Length && k != i && k != j ==> a[k] == old(a[k])) && Perm(old(a[..]), a[..], l, u)
  {
    SwapPerm(a[..], i, j, l, u);
    a[i], a[j] := a[j], a[i];
    assert a[..] == old(a[..])[i := old(a[j])][j := old(a[i])];
  }

  lemma FewSorted(less: Less, s: seq<int>, l: int, u: int)
    requires 0 <= l < u < |s| && u <= l + 2 && !less(s[u], s[l]) && (u == l + 2 ==>
        !less(s[l + 1], s[l]) && !less(s[u], s[l + 1]))
    ensures Sorted(less, s, l, u)
  {
  }

  /** Sorts the elements at l, (l+u)/2 and u. */
  method MedianOfThree(a: array<int>, l: int, u: int, less: Less) returns (done: bool)
    requires 0 <= l < u < a.Length
    modifies a
    ensures Perm(old(a[..]), a[..], l, u) && (done <==> u - l <= 2)
    ensures Valid(less) ==>
        if done then Sorted(less, a[..], l, u) else !less(a[(l + u) / 2], a[l]) && !less(a[u], a[(l + u) / 2])
  {
    hide Perm, Valid, Sorted;
    ghost var s := a[..];
    if less(a[u], a[l]) { Swap(a, l, u, l, u); } else { PermSame(s, l, u); }
    if Valid(less) { ValidAt(less, s[u], s[l], s[l]); }
    if u - l == 1 {
      if Valid(less) { FewSorted(less, a[..], l, u); }
      return true;
    }
    var i := (l + u) / 2;
    ghost var t := a[..];
    PermSame(t, l, u);
    if less(a[i], a[l]) { Swap(a, i, l, l, u); } else if less(a[u], a[i]) { Swap(a, i, u, l, u); }
    PermTrans(s, t, a[..], l, u);
    if Valid(less) {
      ValidAt(less, t[i], t[l], t[l]);
      ValidAt(less, t[u], t[i], t[i]);
      ValidAt(less, a[u], a[i], a[l]);
      if u - l == 2 { FewSorted(less, a[..], l, u); }
    }
    return u - l == 2;
  }

  /** The next place with an element not less than the pivot; it fails beyond the end. */
  method ScanUp(a: array<int>, i0: int, u: int, pivot: int, less: Less) returns (ok: bool, i: int)
    requires 0 <= i0 < u < a.Length
    ensures i0 < i <= u && (ok <==> !less(a[i], pivot)) && (!ok ==> i == u) && forall k ::
        i0 < k < i ==> less(a[k], pivot)
  {
    i := i0 + 1;
    while less(a[i], pivot)
      invariant i0 < i <= u && forall k :: i0 < k < i ==> less(a[k], pivot)
      decreases u - i
    {
      if i >= u { return false, i; }
      i := i + 1;
    }
    return true, i;
  }

  /** The previous place with an element not greater than the pivot; it fails beyond the start. */
  method ScanDown(a: array<int>, j0: int, l: int, pivot: int, less: Less) returns (ok: bool, j: int)
    requires 0 <= l < j0 <= a.Length
    ensures l <= j < j0 && (ok <==> !less(pivot, a[j])) && (!ok ==> j == l) && forall k ::
        j < k < j0 ==> less(pivot, a[k])
  {
    j := j0 - 1;
    while less(pivot, a[j])
      invariant l <= j < j0 && forall k :: j < k < j0 ==> less(pivot, a[k])
      decreases j
    {
      if j <= l { return false, j; }
      j := j - 1;
    }
    return true, j;
  }

  /** Nothing up to i is greater than the pivot and nothing from j on is less; the pivot waits at u - 1. */
  ghost predicate Window(less: Less, s: seq<int>, l: int, u: int, i: int, j: int, pivot: int) {
    && 0 <= l <= i <= j < u < |s| && l < j && i <= u - 2 && s[u - 1] == pivot
    && (forall k {:trigger s[k]} :: l <= k <= i ==> !less(pivot, s[k]))
    && (forall k {:trigger s[k]} :: j <= k <= u ==> !less(s[k], pivot))
  }

  /** Where the two scans stop. */
  ghost predicate Scanned(less: Less, s: seq<int>, i0: int, j0: int, i: int, j: int, pivot: int) {
    && 0 <= i0 < i < |s| && 0 <= j < j0 < |s| && !less(s[i], pivot) && !less(pivot, s[j])
    && (forall k {:trigger s[k]} :: i0 < k < i ==> less(s[k], pivot))
    && (forall k {:trigger s[k]} :: j < k < j0 ==> less(pivot, s[k]))
  }

  lemma WindowStart(less: Less, s: seq<int>, l: int, u: int, pivot: int)
    requires Valid(less) && 0 <= l && l + 3 <= u < |s| && s[u - 1] == pivot && !less(pivot, s[l]) && !less(s[u], pivot)
    ensures Window(less, s, l, u, l, u - 1, pivot)
  {
    ValidAt(less, pivot, pivot, pivot);
  }

  /** Neither scan runs past the window. */
  lemma WindowStops(less: Less, s: seq<int>, l: int, u: int, i0: int, j0: int, pivot: int)
    requires Valid(less) && Window(less, s, l, u, i0, j0, pivot)
    ensures 0 <= i0 < u - 1 < u < |s| && 0 <= l < j0 < |s| && !less(s[u - 1], pivot) && !less(pivot, s[l])
  {
    ValidAt(less, pivot, pivot, pivot);
  }

  lemma WindowSwap(less: Less, s: seq<int>, t: seq<int>, l: int, u: int, i0: int, j0: int, i: int, j: int, pivot: int)
    requires Valid(less) && Window(less, s, l, u, i0, j0, pivot) && Scanned(less, s, i0, j0, i, j, pivot) && l <= j
        && i <= u - 1 && i <= j
    requires |t| == |s| && t[i] == s[j] && t[j] == s[i] && forall k :: 0 <= k < |s| && k != i && k != j ==> t[k] == s[k]
    ensures Window(less, t, l, u, i, j, pivot)
  {
    forall k | l <= k <= i ensures !less(pivot, t[k]) { if i0 < k < i { ValidAt(less, s[k], pivot, pivot); } }
    forall k | j <= k <= u ensures !less(t[k], pivot) { if j < k < j0 { ValidAt(less, pivot, s[k], s[k]); } }
  }

  lemma WindowSplit(less: Less, s: seq<int>, t: seq<int>, l: int, u: int, i0: int, j0: int, i: int, j: int, pivot: int)
    requires Valid(less) && Window(less, s, l, u, i0, j0, pivot) && Scanned(less, s, i0, j0, i, j, pivot) && l <= j
        && i <= u - 1 && j < i
    requires |t| == |s| && t[i] == s[u - 1] && t[u - 1] == s[i] && forall k ::
        0 <= k < |s| && k != i && k != u - 1 ==> t[k] == s[k]
    ensures Split(less, t, l, u, i)
  {
    forall k | l <= k < i ensures !less(t[i], t[k]) { if i0 < k { ValidAt(less, s[k], pivot, pivot); } }
    forall k | i < k <= u ensures !less(t[k], t[i]) { if k < j0 { ValidAt(less, pivot, s[k], s[k]); } }
  }

  /** Moves the pivot, the median of three, to its place; it fails only if the order function is not valid. */
  method Partition(a: array<int>, l: int, u: int, less: Less) returns (ok: bool, i: int)
    requires 0 <= l && l + 3 <= u < a.Length
    requires Valid(less) ==> !less(a[(l + u) / 2], a[l]) && !less(a[u], a[(l + u) / 2])
    modifies a
    ensures Perm(old(a[..]), a[..], l, u) && (ok ==> l < i <= u)
    ensures Valid(less) ==> ok && Split(less, a[..], l, u, i)
  {
    hide Perm, Valid, Split, Window;
    ghost var s := a[..];
    i := (l + u) / 2;
    var pivot := a[i];
    Swap(a, i, u - 1, l, u);
    i := l;
    var j := u - 1;
    if Valid(less) { WindowStart(less, a[..], l, u, pivot); }
    while true
      invariant l <= i < u && l < j <= u - 1 && Perm(s, a[..], l, u)
          && (Valid(less) ==> Window(less, a[..], l, u, i, j, pivot))
      decreases u - i
    {
      ghost var t, i0, j0 := a[..], i, j;
      if Valid(less) { WindowStops(less, t, l, u, i, j, pivot); }
      var up, down;
      up, i := ScanUp(a, i, u, pivot, less);
      if !up { return false, i; }
      down, j := ScanDown(a, j, l, pivot, less);
      if !down { return false, i; }
      assert Scanned(less, t, i0, j0, i, j, pivot);
      if j < i {
        Swap(a, u - 1, i, l, u);
        PermTrans(s, t, a[..], l, u);
        if Valid(less) { WindowSplit(less, t, a[..], l, u, i0, j0, i, j, pivot); }
        return true, i;
      }
      Swap(a, i, j, l, u);
      PermTrans(s, t, a[..], l, u);
      if Valid(less) { WindowSwap(less, t, a[..], l, u, i0, j0, i, j, pivot); }
    }
  }

  /**
   * auxsort: any order function leaves a permutation; a valid one sorts, with calls nested no deeper than the logarithm
   * of the size.
   */
  method AuxSort(a: array<int>, l0: int, u0: int, less: Less) returns (ok: bool, ghost depth: nat)
    requires 0 <= l0 <= u0 + 1 <= a.Length
    modifies a
    ensures Perm(old(a[..]), a[..], l0, u0)
    ensures Valid(less) ==> ok && Sorted(less, a[..], l0, u0) && Pow2(depth) <= if u0 - l0 + 1 < 1 then 1
        else u0 - l0 + 1
    decreases u0 - l0
  {
    hide *;
    ghost var s := a[..];
    SortStart(less, s, l0, u0);
    var l, u := l0, u0;
    ok, depth := true, 0;
    while l < u
      invariant l0 <= l && u <= u0 && l <= u + 1 && Perm(s, a[..], l0, u0)
      invariant Valid(less) ==> Around(less, a[..], l0, u0, l, u) && Pow2(depth) <= if u0 - l0 + 1 < 1 then 1
          else u0 - l0 + 1
      decreases u - l
    {
      ghost var t := a[..];
      var done := MedianOfThree(a, l, u, less);
      Keep(less, s, t, a[..], l0, u0, l, u);
      if done {
        if Valid(less) { AllDone(less, a[..], l0, u0, l, u); }
        return;
      }
      var i, good;
      t := a[..];
      good, i := Partition(a, l, u, less);
      Keep(less, s, t, a[..], l0, u0, l, u);
      if !good { return false, depth; }
      t := a[..];
      ghost var m, l1, u1 := i, l, u;
      var j;
      if i - l < u - i {
        j, i, l := l, i - 1, i + 1;
      } else {
        j, i, u := i + 1, u, i - 1;
      }
      ghost var d;
      ok, d := AuxSort(a, j, i, less);  // 2 * size < u - l + 1, which bounds the depth
      PermWider(t, a[..], j, i, l0, u0);
      PermTrans(s, t, a[..], l0, u0);
      if !ok { return; }
      if Valid(less) { SideSorted(less, t, a[..], l0, u0, l1, u1, m, j, i); }
      DepthStep(d, i - j + 1, u1 - l1 + 1, u0 - l0 + 1);
      depth := if 1 + d > depth then 1 + d else depth;
    }
    if Valid(less) { AroundEnd(less, a[..], l0, u0, l, u); }
  }

  lemma SortStart(less: Less, s: seq<int>, l: int, u: int)
    requires 0 <= l <= u + 1 <= |s|
    ensures Perm(s, s, l, u) && Around(less, s, l, u, l, u) && Pow2(0) == 1
  {
  }

  lemma AroundEnd(less: Less, s: seq<int>, l0: int, u0: int, l: int, u: int)
    requires 0 <= l0 && u0 < |s| && u <= l && Around(less, s, l0, u0, l, u)
    ensures Sorted(less, s, l0, u0)
  {
  }

  /** The smaller of the two parts has less than half of the elements. */
  lemma DepthStep(d: nat, small: int, m: int, n: int)
    requires 2 * small < m <= n && m >= 4
    ensures Pow2(d) <= (if small < 1 then 1 else small) ==> Pow2(1 + d) <= n
  {
  }

  /** After a permutation between l and u. */
  lemma Keep(less: Less, s: seq<int>, t: seq<int>, v: seq<int>, l0: int, u0: int, l: int, u: int)
    requires 0 <= l0 <= l <= u <= u0 < |s| && Perm(s, t, l0, u0) && Perm(t, v, l, u)
    ensures Perm(s, v, l0, u0)
    ensures Valid(less) && Around(less, t, l0, u0, l, u) ==> Around(less, v, l0, u0, l, u)
  {
    PermWider(t, v, l, u, l0, u0);
    PermTrans(s, t, v, l0, u0);
    if Around(less, t, l0, u0, l, u) { PermAround(less, t, v, l0, u0, l, u); }
  }

  lemma AllDone(less: Less, s: seq<int>, l0: int, u0: int, l: int, u: int)
    requires 0 <= l0 <= l <= u <= u0 < |s| && Around(less, s, l0, u0, l, u) && Sorted(less, s, l, u)
    ensures Sorted(less, s, l0, u0)
  {
  }

  /** table.sort, for the elements 1, ..., n of a; position 0 is not used. */
  method Sort(a: array<int>, less: Less) returns (ok: bool)
    requires a.Length > 0
    modifies a
    ensures multiset(a[1..]) == multiset(old(a[1..])) && a[0] == old(a[0])
    ensures Valid(less) ==> ok && forall p, q :: 1 <= p < q < a.Length ==> !less(a[q], a[p])
  {
    ghost var s := a[..];
    ghost var depth;
    ok, depth := AuxSort(a, 1, a.Length - 1, less);
    assert s[1..a.Length] == old(a[1..]) && a[..][1..a.Length] == a[1..];
  }
}
