/** The new size of the array part (ltable.c:196-267, lobject.c:55-70). */
module TableSizes {
  import opened Powers
  import opened TableChain

  const MAXBITS: nat := 30

  // ---- luaO_ceillog2

  /** The table log_2: the number of bits of x. */
  function Bits(x: nat): nat { if x == 0 then 0 else 1 + Bits(x / 2) }

  lemma {:induction false} BitsBound(x: nat)
    ensures x < Pow2(Bits(x)) && (x > 0 ==> Pow2(Bits(x)) <= 2 * x)
  {
    if x > 0 { BitsBound(x / 2); }
  }

  lemma {:induction false} BitsShift(x: nat)
    requires x >= 256
    ensures Bits(x) == 8 + Bits(x / 256)
  {
    assert x / 2 / 2 / 2 / 2 / 2 / 2 / 2 / 2 == x / 256;
    assert Bits(x) == 1 + Bits(x / 2) == 2 + Bits(x / 2 / 2) == 3 + Bits(x / 2 / 2 / 2);
    assert Bits(x / 2 / 2 / 2) == 1 + Bits(x / 2 / 2 / 2 / 2) == 2 + Bits(x / 2 / 2 / 2 / 2 / 2) == 3
        + Bits(x / 2 / 2 / 2 / 2 / 2 / 2);
    assert Bits(x / 2 / 2 / 2 / 2 / 2 / 2) == 1 + Bits(x / 2 / 2 / 2 / 2 / 2 / 2 / 2) == 2
        + Bits(x / 2 / 2 / 2 / 2 / 2 / 2 / 2 / 2);
  }

  /** luaO_ceillog2: the exponent of the smallest power of two that is not below x. */
  method CeilLog2(x: nat) returns (l: nat)
    requires x > 0
    ensures x <= Pow2(l) && (l > 0 ==> Pow2(l - 1) < x)
  {
    var y: nat := x - 1;
    l := 0;
    while y >= 256
      invariant l + Bits(y) == Bits(x - 1)
    {
      BitsShift(y);
      l := l + 8;
      y := y / 256;
    }
    l := l + Bits(y);
    BitsBound(x - 1);
  }

  // ---- Integer keys by slices

  /** The lower end of slice i. */
  function Lo(i: nat): nat { if i == 0 then 0 else Pow2(i - 1) }

  ghost predicate Candidates(u: set<int>) { forall k :: k in u ==> 1 <= k <= Pow2(MAXBITS) }

  ghost function Slice(u: set<int>, i: nat): set<int> { set k | k in u && Lo(i) < k <= Pow2(i) }

  ghost function UpTo(u: set<int>, n: int): set<int> { set k | k in u && k <= n }

  /** nums[i] is the number of keys of u in slice i. */
  ghost predicate Counts(nums: seq<nat>, u: set<int>) {
    |nums| == MAXBITS + 1 && Candidates(u) && forall i {:trigger nums[i]} ::
        0 <= i <= MAXBITS ==> nums[i] == |Slice(u, i)|
  }

  lemma {:induction false} UpToBound(u: set<int>, n: nat)
    requires Candidates(u)
    ensures |UpTo(u, n)| <= n
  {
    if n == 0 {
      assert UpTo(u, 0) == {};
    } else {
      UpToBound(u, n - 1);
      assert UpTo(u, n) <= UpTo(u, n - 1) + {n};
      SubsetCard(UpTo(u, n), UpTo(u, n - 1) + {n});
    }
  }

  lemma SubsetCard<A>(a: set<A>, b: set<A>)
    requires a <= b
    ensures |a| <= |b|
  {
    assert b == a + (b - a);
  }

  /** n is the largest power of two such that more than half of 1, ..., n is in use, or 0 if there is none. */
  ghost predicate Optimal(u: set<int>, n: nat) {
    && (n == 0 || exists i: nat {:trigger Pow2(i)} :: i <= MAXBITS && n == Pow2(i) && 2 * |UpTo(u, n)| > n)
    && forall i: nat {:trigger Pow2(i)} :: i <= MAXBITS && Pow2(i) > n ==> 2 * |UpTo(u, Pow2(i))| <= Pow2(i)
  }

  /**
   * The size that the comment at the head of ltable.c asks for: the largest n with at least half of 1, ..., n in use.
   */
  ghost predicate Largest(u: set<int>, n: nat) {
    (n == 0 || 2 * |UpTo(u, n)| >= n) && forall m: nat :: m > n ==> 2 * |UpTo(u, m)| < m
  }

  /** An array part that is more than half full is at least half full with one slot more. */
  lemma OneMore(u: set<int>, n: nat)
    requires Optimal(u, n) && n > 0
    ensures 2 * |UpTo(u, n + 1)| >= n + 1
  {
    SubsetCard(UpTo(u, n), UpTo(u, n + 1));
  }

  /** The size chosen is the one of the comment exactly if no size at all is half used; then there is no array part. */
  lemma LargestExact(u: set<int>, n: nat)
    requires Optimal(u, n)
    ensures Largest(u, n) <==> forall m: nat :: m > 0 ==> 2 * |UpTo(u, m)| < m
    ensures Largest(u, n) ==> n == 0
  {
    if n > 0 { OneMore(u, n); }
    hide UpTo, Pow2;
    if n > 0 { assert !Largest(u, n); }
  }

  /**
   * The keys 1, 2 and 3 get four slots, where half of six would be in use; the key 2 gets none, where half of two would
   * be.
   */
  lemma LargestFails()
    ensures Optimal({1, 2, 3}, 4) && 2 * |UpTo({1, 2, 3}, 6)| == 6 && !Largest({1, 2, 3}, 4)
    ensures Optimal({2}, 0) && 2 * |UpTo({2}, 2)| == 2 && !Largest({2}, 0)
  {
    assert Pow2(0) == 1 && Pow2(1) == 2 && Pow2(2) == 4;
    assert UpTo({2}, 1) == {} && UpTo({1, 2, 3}, 4) == {1, 2, 3} == UpTo({1, 2, 3}, 6) && UpTo({2}, 2) == {2};
    assert |{1, 2, 3}| == 3;
    forall i: nat | Pow2(i) > 4 ensures 2 * |UpTo({1, 2, 3}, Pow2(i))| <= Pow2(i) {
      if i <= 2 { Pow2Mono(i, 2); } else { Pow2Mono(3, i); }
      assert UpTo({1, 2, 3}, Pow2(i)) == {1, 2, 3};
    }
    forall i: nat | Pow2(i) > 0 ensures 2 * |UpTo({2}, Pow2(i))| <= Pow2(i) {
      if i > 0 {
        Pow2Mono(1, i);
        assert UpTo({2}, Pow2(i)) == {2};
      }
    }
  }

  /**
   * The same for powers of two only: n is the largest one with at least half of 1, ..., n in use, or 0 if there is
   * none.
   */
  ghost predicate HalfUsed(u: set<int>, n: nat) {
    && (n == 0 || exists i: nat {:trigger Pow2(i)} :: i <= MAXBITS && n == Pow2(i) && 2 * |UpTo(u, n)| >= n)
    && forall i: nat {:trigger Pow2(i)} :: i <= MAXBITS && Pow2(i) > n ==> 2 * |UpTo(u, Pow2(i))| < Pow2(i)
  }

  /** Among powers of two the sizes differ exactly if the one with at least half in use has no more than that. */
  lemma HalfExact(u: set<int>, n: nat, h: nat)
    requires Optimal(u, n) && HalfUsed(u, h)
    ensures n <= h && (n == h <==> h == 0 || 2 * |UpTo(u, h)| > h)
  {
    if n > 0 {
      var i: nat :| i <= MAXBITS && n == Pow2(i) && 2 * |UpTo(u, n)| > n;
      assert Pow2(i) == n;
    }
    if h > 0 {
      var i: nat :| i <= MAXBITS && h == Pow2(i) && 2 * |UpTo(u, h)| >= h;
      assert Pow2(i) == h;
    }
  }

  /** computesizes: na is the number of keys that go to an array part of the optimal size n. */
  method ComputeSizes(nums: seq<nat>, narray: nat, ghost u: set<int>) returns (na: nat, n: nat)
    requires Counts(nums, u) && narray == |u|
    ensures Optimal(u, n) && na == |UpTo(u, n)| && n <= Pow2(MAXBITS)
  {
    hide Counts, UpTo;
    var i: nat, twotoi: nat, a: nat := 0, 1, 0;
    na, n := 0, 0;
    SumStart(nums, u);
    while twotoi / 2 < narray
      invariant twotoi == Pow2(i) && i <= MAXBITS + 1 && Sums(nums, u, i, a) && Best(u, i, na, n)
      decreases MAXBITS + 1 - i
    {
      SliceInRange(nums, u, i);
      SumStep(nums, u, i, a);
      ghost var n0, a0 := n, a;
      if nums[i] > 0 {
        a := a + nums[i];
        if a > twotoi / 2 {  // n slots would be more than half full
          n := twotoi;
          na := a;
        }
      }
      BestStep(nums, u, i, a0, na, n, n0);
      if a == narray {
        AllCounted(nums, u, i, na, n);
        return;
      }
      i, twotoi := i + 1, 2 * twotoi;
    }
    Enough(nums, u, i, na, n);
  }

  /** a keys are in the slices before i. */
  ghost predicate Sums(nums: seq<nat>, u: set<int>, i: nat, a: nat) { a == |UpTo(u, Lo(i))| }

  /** n is the best size among the powers of two before 2^i. */
  ghost predicate Best(u: set<int>, i: nat, na: nat, n: nat) {
    && na == |UpTo(u, n)|
    && (n == 0 || exists j: nat {:trigger Pow2(j)} :: j < i && j <= MAXBITS && n == Pow2(j) && 2 * |UpTo(u, n)| > n)
    && forall j: nat {:trigger Pow2(j)} :: j < i && j <= MAXBITS && Pow2(j) > n ==> 2 * |UpTo(u, Pow2(j))| <= Pow2(j)
  }

  lemma SumStart(nums: seq<nat>, u: set<int>)
    requires Counts(nums, u)
    ensures Sums(nums, u, 0, 0) && Best(u, 0, 0, 0)
  {
    assert UpTo(u, 0) == {};
  }

  lemma SliceInRange(nums: seq<nat>, u: set<int>, i: nat)
    requires Counts(nums, u) && Pow2(i) / 2 < |u|
    ensures i <= MAXBITS && |nums| == MAXBITS + 1
  {
    if i > MAXBITS { BeyondRange(u, i); }
  }

  lemma BeyondRange(u: set<int>, i: nat)
    requires Candidates(u) && i > MAXBITS
    ensures Pow2(i) / 2 >= |u|
  {
    assert UpTo(u, Pow2(MAXBITS)) == u;
    UpToBound(u, Pow2(MAXBITS));
    Pow2Mono(MAXBITS, i - 1);
  }

  lemma SumStep(nums: seq<nat>, u: set<int>, i: nat, a: nat)
    requires Counts(nums, u) && i <= MAXBITS && Sums(nums, u, i, a)
    ensures |nums| == MAXBITS + 1 && Sums(nums, u, i + 1, a + nums[i]) && a <= Lo(i)
  {
    assert nums[i] == |Slice(u, i)|;
    UpToBound(u, Lo(i));
    assert UpTo(u, Pow2(i)) == UpTo(u, Lo(i)) + Slice(u, i);
    assert UpTo(u, Lo(i)) !! Slice(u, i);
  }

  lemma BestStep(nums: seq<nat>, u: set<int>, i: nat, a: nat, na: nat, n: nat, n0: nat)
    requires Counts(nums, u) && i <= MAXBITS && Sums(nums, u, i, a) && a <= Lo(i) && |nums| == MAXBITS + 1
        && Sums(nums, u, i + 1, a + nums[i])
    requires
        if nums[i] > 0 && a + nums[i] > Pow2(i) / 2 then n == Pow2(i) && na == a + nums[i]
        else n == n0 && Best(u, i, na, n)
    requires Best(u, i, |UpTo(u, n0)|, n0)
    ensures Best(u, i + 1, na, n)
  {
    hide UpTo, Counts;
    forall j: nat | j < i + 1 && j <= MAXBITS && Pow2(j) > n ensures 2 * |UpTo(u, Pow2(j))| <= Pow2(j) {
      if j < i { if n == Pow2(i) { Pow2Mono(j, i); } }
    }
  }

  lemma AllCounted(nums: seq<nat>, u: set<int>, i: nat, na: nat, n: nat)
    requires Counts(nums, u) && i <= MAXBITS && Best(u, i + 1, na, n) && |UpTo(u, Pow2(i))| == |u|
    ensures Optimal(u, n) && n <= Pow2(MAXBITS)
  {
    UpToBound(u, Pow2(i));
    forall j: nat | j <= MAXBITS && Pow2(j) > n ensures 2 * |UpTo(u, Pow2(j))| <= Pow2(j) {
      if j > i {
        Pow2Mono(i + 1, j);
        SubsetCard(UpTo(u, Pow2(j)), u);
      }
    }
    SizeBound(u, i + 1, na, n);
  }

  lemma SizeBound(u: set<int>, i: nat, na: nat, n: nat)
    requires Best(u, i, na, n)
    ensures n <= Pow2(MAXBITS)
  {
    if n != 0 {
      var j: nat :| j < i && j <= MAXBITS && n == Pow2(j);
      Pow2Mono(j, MAXBITS);
    }
  }

  lemma Enough(nums: seq<nat>, u: set<int>, i: nat, na: nat, n: nat)
    requires Counts(nums, u) && Best(u, i, na, n) && Pow2(i) / 2 >= |u|
    ensures Optimal(u, n) && n <= Pow2(MAXBITS)
  {
    forall j: nat | j <= MAXBITS && Pow2(j) > n ensures 2 * |UpTo(u, Pow2(j))| <= Pow2(j) {
      if j >= i {
        Pow2Mono(i, j);
        SubsetCard(UpTo(u, Pow2(j)), u);
      }
    }
    SizeBound(u, i, na, n);
  }

  /** countint: k is one more key, if it is a candidate. */
  function IsCandidate(key: Key): (b: bool) { key.KInt? && 1 <= key.i <= Pow2(MAXBITS) }

  method CountInt(key: Key, nums: seq<nat>, ghost u: set<int>) returns (c: nat, nums2: seq<nat>)
    requires Counts(nums, u) && (key.KInt? ==> key.i !in u)
    ensures c == (if IsCandidate(key) then 1 else 0) && Counts(nums2, if IsCandidate(key) then u + {key.i} else u)
  {
    nums2 := nums;
    if IsCandidate(key) {
      var l := CeilLog2(key.i);
      LogInRange(key.i, l);
      nums2 := nums[l := nums[l] + 1];
      CountMore(nums, u, key.i, l);
      return 1, nums2;
    }
    return 0, nums2;
  }

  lemma LogInRange(k: nat, l: nat)
    requires 1 <= k <= Pow2(MAXBITS) && k <= Pow2(l) && (l > 0 ==> Pow2(l - 1) < k)
    ensures l <= MAXBITS && Lo(l) < k <= Pow2(l)
  {
    if l > MAXBITS { Pow2Mono(MAXBITS, l - 1); }
  }

  lemma CountMore(nums: seq<nat>, u: set<int>, k: nat, l: nat)
    requires Counts(nums, u) && k !in u && l <= MAXBITS && Lo(l) < k <= Pow2(l) && k <= Pow2(MAXBITS)
    ensures Counts(nums[l := nums[l] + 1], u + {k})
  {
    hide Slice, Pow2, Lo;
    forall i | 0 <= i <= MAXBITS ensures nums[l := nums[l] + 1][i] == |Slice(u + {k}, i)| {
      assert nums[i] == |Slice(u, i)|;
      SliceMore(u, k, l, i);
    }
  }

  lemma SliceMore(u: set<int>, k: nat, l: nat, i: nat)
    requires k !in u && Lo(l) < k <= Pow2(l)
    ensures |Slice(u + {k}, i)| == |Slice(u, i)| + if i == l then 1 else 0
  {
    SliceOf(k, l, i);
    hide Pow2, Lo;
    if i == l {
      assert Slice(u + {k}, i) == Slice(u, i) + {k};
    } else {
      assert Slice(u + {k}, i) == Slice(u, i);
    }
  }

  lemma SliceOf(k: nat, l: nat, i: nat)
    requires Lo(l) < k <= Pow2(l)
    ensures Lo(i) < k <= Pow2(i) <==> i == l
  {
    if i < l { Pow2Mono(i, l - 1); } else if i > l { Pow2Mono(l, i - 1); }
  }
}
