/** The operations of a table, with the state that they change (ltable.c). */
module Tables {
  import opened Powers
  import opened TableChain
  import opened TableSizes
  import opened TableNext
  import opened TableOps

  /** n is the number of slots for a hash part of the size: the least power of two not below it, 1 for size 0. */
  ghost predicate SlotsFor(n: nat, size: nat) {
    size <= n && exists l: nat {:trigger Pow2(l)} :: n == Pow2(l) && (l > 0 ==> Pow2(l - 1) < size)
  }

  lemma SlotsFold(n: nat, l: nat, size: nat)
    requires n == Pow2(l) && size <= n && (l > 0 ==> Pow2(l - 1) < size)
    ensures SlotsFor(n, size)
  {
  }

  class LTable {
    var arr: seq<Value>
    var node: seq<Node>
    var lastfree: nat
    var dummy: bool
    const main: MainPosition
    ghost var c: Chains
    ghost var contents: map<Key, Value>

    ghost predicate Valid()
      reads this
    {
      TableOk(arr, node, lastfree, dummy, c, main) && Stands(arr, node, contents)
    }

    ghost function Room(): nat
      reads this`node, this`dummy
    {
      |Free(node, dummy)|
    }

    /** luaH_new */
    constructor (mp: MainPosition)
      requires GoodMain(mp)
      ensures Valid() && contents == map[] && main == mp
    {
      arr, node, lastfree, dummy, main := [], [Node(NoKey, Nil, NULL)], 0, true, mp;
      c, contents := Chains([0], [0.0]), map[];
      new;
      forall i: nat ensures LinkOk(node, c, i) && KeyOk(node, c, main, i) && SlotOk(node, c, i) {}
      forall k ensures Lookup(arr, node, k) == Nil {}
    }

    /** The search of luaH_get, luaH_getint and luaH_getstr. */
    method Find(key: Key) returns (s: Slot)
      requires TableOk(arr, node, lastfree, dummy, c, main)
      ensures Designates(arr, node, key, s)
    {
      if key.KInt? {
        if 1 <= key.i <= |arr| { return InArray(key.i - 1); }
      } else if key.KNil? {
        return Absent;
      }
      var j := FindSlot(node, c, main, key);
      if j == NULL { return Absent; }
      return InHash(j);
    }

    /** luaH_get */
    method Get(key: Key) returns (v: Value)
      requires Valid()
      ensures v == At(contents, key)
    {
      var s := Find(key);
      SlotValue(arr, node, key, s);
      match s {
        case InArray(i) => v := arr[i];
        case InHash(j) => v := node[j].val;
        case Absent => v := Nil;
      }
      assert Lookup(arr, node, key) == At(contents, key);
    }

    /** getfreepos */
    method GetFreePos() returns (n: int)
      requires TableOk(arr, node, lastfree, dummy, c, main)
      modifies this`lastfree
      ensures n == NULL ==> Free(node, dummy) == {} && lastfree == 0
      ensures n != NULL ==> 0 <= n < |node| && n in Free(node, dummy) && lastfree == n && forall j ::
          n < j < |node| ==> node[j].key != NoKey
    {
      while lastfree > 0
        invariant lastfree <= |node| && (dummy ==> lastfree == 0)
        invariant !dummy ==> forall j :: lastfree <= j < |node| ==> node[j].key != NoKey
      {
        lastfree := lastfree - 1;
        if node[lastfree].key == NoKey { return lastfree; }
      }
      return NULL;
    }

    /** setobj through the address that luaH_set returned. */
    method Store(key: Key, s: Slot, v: Value)
      requires Valid() && Designates(arr, node, key, s) && !s.Absent?
      modifies this`arr, this`node, this`contents
      ensures Valid() && contents == Put(old(contents), key, v)
      ensures |arr| == |old(arr)| && |node| == |old(node)| && Room() == old(Room())
      ensures key in old(contents) ==> Same(old(arr), old(node), arr, node)
    {
      hide *;
      ValidParts();
      SlotParts(arr, node, key, s);
      RoomIs();
      ghost var a, n, m := arr, node, contents;
      match s {
        case InArray(i) =>
          arr := arr[i := v];
          StoredArray(a, n, lastfree, dummy, c, main, m, key, i, v);
        case InHash(j) =>
          node := node[j := node[j].(val := v)];
          StoredHash(a, n, lastfree, dummy, c, main, m, key, j, v);
      }
      if key in m { StoredField(a, n, lastfree, dummy, c, main, m, key, s, v, arr, node); }
      contents := Put(m, key, v);
      ValidFold();
      RoomIs();
    }

    lemma RoomIs()
      ensures Room() == |Free(node, dummy)|
    {
    }

    lemma ValidParts()
      requires Valid()
      ensures TableOk(arr, node, lastfree, dummy, c, main) && Stands(arr, node, contents)
    {
    }

    lemma ValidFold()
      requires TableOk(arr, node, lastfree, dummy, c, main) && Stands(arr, node, contents)
      ensures Valid()
    {
    }

    // ---- New keys

    /** The loop of luaH_newkey that finds the slot before m in its chain. */
    method FindPrevious(start: nat, m: nat) returns (p: nat)
      requires HashOk(node, c, main) && m < |node| && node[m].key.Live? && start == main(node[m].key.k, |node|)
          && start != m
      ensures p < |node| && node[p].next == m
    {
      p := start;
      assert KeyOk(node, c, main, m);
      while node[p].next != m
        invariant p < |node| && After(c, p, m) && p != m
        decreases Rest(c, p)
      {
        PreviousStep(node, c, main, p, m);
        p := node[p].next;
      }
    }

    /**
     * luaH_newkey: the key gets a slot without a value; no entry changes. The table grows only if it has no free slot.
     */
    method NewKey(key: Key) returns (s: Slot)
      requires Valid() && Designates(arr, node, key, Absent) && Proper(key)
      modifies this
      ensures Valid() && contents == old(contents) && Designates(arr, node, key, s) && !s.Absent?
      ensures old(Room()) > 0 ==> |arr| == |old(arr)| && |node| == |old(node)| && Room() >= old(Room()) - 1
      decreases if Room() == 0 then 5 else 1
    {
      hide *;
      ValidParts();
      RoomIs();
      ghost var node0, c0, free0 := node, c, lastfree;
      MainOk(arr, node, lastfree, dummy, c, main, key);
      var m := main(key, |node|);  // main position
      var p := m;
      ghost var target;
      if node[m].val != Nil || dummy {  // the slot belongs to some key
        var n := GetFreePos();
        if n == NULL {
          FreeNone(arr, node, free0, dummy, c, main);
          ValidFold();
          Rehash(key);
          s := SetSlot(key);
          return;
        }
        TakenMain(arr, node, free0, dummy, c, main, m, n);
        var othern := main(node[m].key.k, |node|);
        if othern != m {
          othern := FindPrevious(othern, m);
          MoveOk(arr, node, c, main, key, m, n, othern);
          MovedIs(node, c, main, key, m, n, othern);
          node := node[othern := node[othern].(next := n)];
          node := node[n := node[m]];
          node := node[m := node[m].(next := NULL, val := Nil)];
          c := Swapped(c, m, n);
          target := Moved(node0, key, m, n, othern);
        } else {  // the other key stays, the new one goes to n
          AppendOk(arr, node, c, main, key, m, n);
          AppendedIs(node, c, main, key, m, n);
          c := Inserted(node, c, m, n);
          node := node[n := node[n].(next := node[m].next)];
          node := node[m := node[m].(next := n)];
          p := n;
          target := Appended(node0, key, m, n);
        }
      } else {
        ReuseOk(arr, node, lastfree, dummy, c, main, key, m);
        target := node[m := node[m].(key := Live(key))];
      }
      node := node[p := node[p].(key := Live(key))];
      assert node == target;
      AddedStands(arr, node0, dummy, node, key, p, contents, lastfree, c0, c, main);
      RoomIs();
      ValidFold();
      s := InHash(p);
    }

    /** luaH_set */
    method SetSlot(key: Key) returns (s: Slot)
      requires Valid() && Proper(key)
      modifies this
      ensures Valid() && contents == old(contents) && Designates(arr, node, key, s) && !s.Absent?
      ensures key in contents ==> arr == old(arr) && node == old(node) && c == old(c)
      ensures old(Room()) > 0 || InRange(key, |old(arr)|) ==>
                |arr| == |old(arr)| && |node| == |old(node)|
                && Room() >= old(Room()) - if InRange(key, |old(arr)|) then 0 else 1
      decreases if Room() == 0 && !InRange(key, |arr|) then 6 else 2
    {
      hide *;
      ValidParts();
      s := Find(key);
      SlotParts(arr, node, key, s);
      if s.Absent? {
        ExtraKey(arr, node, contents, key);
        s := NewKey(key);
      }
    }

    /** setnodevector: as many slots as the least power of two that is not below the size. */
    method SetNodeVector(size: nat)
      requires GoodMain(main)
      modifies this`node, this`lastfree, this`dummy, this`c
      ensures Blank(node, lastfree, dummy, c) && Room() >= size && (dummy <==> size == 0) && SlotsFor(|node|, size)
    {
      if size == 0 {
        node, dummy, lastfree := [Node(NoKey, Nil, NULL)], true, 0;
        SlotsFold(1, 0, 0);
      } else {
        var lsize := CeilLog2(size);
        var full := Pow2(lsize);
        node, dummy := [], false;
        for i := 0 to full
          invariant !dummy && |node| == i && forall j :: 0 <= j < i ==> node[j] == Node(NoKey, Nil, NULL)
        {
          node := node + [Node(NoKey, Nil, NULL)];
        }
        lastfree := full;
        AllFree(node);
        SlotsFold(full, lsize, size);
      }
      c := Chains(seq(|node|, i => i), seq(|node|, i => 0.0));
    }

    /**
     * luaH_resize.  A smaller array part asks for a hash part with room for the keys that leave it; a hash part that is
     * too small otherwise grows again while the entries are put back.
     */
    method Resize(nasize: nat, nhsize: nat)
      requires Valid() && nasize <= Pow2(MAXBITS) && (nasize >= |arr| || |Out(contents.Keys, nasize)| <= nhsize)
      modifies this
      ensures Valid() && contents == old(contents)
      ensures |Out(contents.Keys, nasize)| <= nhsize ==>
                |arr| == nasize && SlotsFor(|node|, nhsize) && Room() >= nhsize - |Out(contents.Keys, nasize)|
      decreases if |Out(contents.Keys, nasize)| <= nhsize then 3 else 7
    {
      hide *;
      ValidParts();
      ghost var m, fits := contents, |Out(contents.Keys, nasize)| <= nhsize;
      var oldarr, nold := arr, node;  // save old parts
      MainOk(arr, node, lastfree, dummy, c, main, KNil);
      TableShape(arr, node, lastfree, dummy, c, main);
      if nasize > |arr| {
        for i := |arr| to nasize
          invariant |arr| == i && oldarr <= arr && forall j :: |oldarr| <= j < i ==> arr[j] == Nil
        {
          arr := arr + [Nil];
        }
      }
      SetNodeVector(nhsize);
      RoomIs();
      if nasize < |oldarr| {
        arr := arr[..nasize];
      }
      ghost var lo := if nasize < |oldarr| then nasize else |oldarr|;
      contents := Part(m, nold, lo, |nold|);
      StartStands(oldarr, nold, m, arr, node, lastfree, dummy, c, main, lo);
      ValidFold();
      if nasize < |oldarr| {
        for i := nasize to |oldarr|
          invariant Valid() && |arr| == nasize && contents == Part(m, nold, i, |nold|)
          invariant SlotsFor(|node|, nhsize) && Room() >= nhsize - |Out(contents.Keys, nasize)|
        {
          SliceStep(oldarr, nold, m, i, nasize);
          NextParts(m, contents, Part(m, nold, i + 1, |nold|), KInt(i + 1), oldarr[i], nasize);
          if oldarr[i] != Nil {
            var s := SetSlot(KInt(i + 1));
            Store(KInt(i + 1), s, oldarr[i]);
          }
        }
      }
      var i: nat := |nold|;
      while i > 0
        invariant i <= |nold| && Valid() && contents == Part(m, nold, |oldarr|, i)
        invariant fits ==>
          |arr| == nasize && SlotsFor(|node|, nhsize) && Room() >= nhsize - |Out(contents.Keys, nasize)|
      {
        i := i - 1;
        NodeStep(oldarr, nold, m, i, nasize);
        NextParts(m, contents, Part(m, nold, |oldarr|, i), if nold[i].key.Live? then nold[i].key.k
            else KNil, nold[i].val, nasize);
        if nold[i].val != Nil {
          var s := SetSlot(nold[i].key.k);
          Store(nold[i].key.k, s, nold[i].val);
        }
      }
      AllParts(oldarr, nold, m);
    }

    /** luaH_resizearray: the hash part keeps its size, which is enough if the array part does not get smaller. */
    method ResizeArray(nasize: nat)
      requires Valid() && nasize <= Pow2(MAXBITS)
      requires nasize >= |arr| || |Out(contents.Keys, nasize)| <= if dummy then 0 else |node|
      modifies this
      ensures Valid() && contents == old(contents) && |arr| == nasize
      decreases 4
    {
      hide *;
      ValidParts();
      TableShape(arr, node, lastfree, dummy, c, main);
      var nsize := if dummy then 0 else |node|;
      if nasize >= |arr| { OutInNodes(arr, node, lastfree, dummy, c, main, contents, nasize); }
      Resize(nasize, nsize);
    }

    /** rehash, for an extra key: the array part gets its optimal size and there is room for the extra key. */
    method Rehash(key: Key)
      requires Valid() && Designates(arr, node, key, Absent) && Proper(key)
      modifies this
      ensures Valid() && contents == old(contents) && (InRange(key, |arr|) || Room() > 0)
      ensures Optimal(Ints(contents.Keys + {key}), |arr|)
      ensures SlotsFor(|node|, |Out(contents.Keys + {key}, |arr|)|)
      decreases 4
    {
      hide *;
      ValidParts();
      TableShape(arr, node, lastfree, dummy, c, main);
      var nums: seq<nat> := seq(MAXBITS + 1, i => 0);
      TallyStart(nums, arr);
      var nasize: nat, totaluse: nat, add: nat;
      nums, nasize := NumUseArray(arr, nums);
      totaluse := nasize;
      nums, nasize, totaluse := NumUseHash(arr, node, nums, nasize, totaluse);
      AllKeys(arr, node, contents);
      ghost var S := contents.Keys;
      ExtraKey(arr, node, contents, key);
      TallyKey(nums, nasize, totaluse, S, key);
      ghost var was := nums;
      add, nums := CountInt(key, nums, Ints(S));  // the key that found no slot counts too
      TallyFold(was, nasize, totaluse, S, key, nums, add);
      nasize := nasize + add;
      totaluse := totaluse + 1;
      TallyParts(nums, nasize, totaluse, S + {key});
      var na: nat;
      na, nasize := ComputeSizes(nums, nasize, Ints(S + {key}));
      RoomForExtra(S, key, nasize);
      Resize(nasize, totaluse - na);
    }

    // ---- Writes and the length

    /** t[key] = v: luaH_set and the assignment to the slot it returns. */
    method Set(key: Key, v: Value) returns (r: Outcome)
      requires Valid()
      modifies this
      ensures Valid() && contents == Write(old(contents), key, v)
      ensures key in old(contents) && Proper(key) ==> c == old(c) && Same(old(arr), old(node), arr, node)
      ensures r == if key.KNil? then NilIndex else if key.KNaN? then NanIndex else Stored
    {
      if key.KNil? { return NilIndex; }
      if key.KNaN? { return NanIndex; }
      var s := SetSlot(key);
      Store(key, s, v);
      return Stored;
    }

    // ---- Traversals

    /** findindex */
    method FindIndex(key: Key) returns (ok: bool, i: int)
      requires Valid()
      ensures ok <==> Known(arr, node, key)
      ensures ok ==> IsIndex(arr, node, c, key, i)
    {
      if key.KNil? { return true, -1; }
      if InRange(key, |arr|) { return true, key.i - 1; }
      var j := FindHolder(node, c, main, key);
      if j == NULL { return false, 0; }
      assert Holds(node, j, key);
      return true, j + |arr|;
    }

    /** luaH_next: the first entry behind place i of the key; n is its place. */
    method Next(key: Key) returns (r: Step, ghost i: int, ghost n: nat)
      requires Valid()
      ensures r.BadKey? <==> !Known(arr, node, key)
      ensures !r.BadKey? ==>
          IsIndex(arr, node, c, key, i) && i < n <= Places(arr, node) && Gap(arr, node, i, n)
          && (r.Ended? <==> n == Places(arr, node))
      ensures r.More? ==> r == More(KeyAt(arr, node, n), ValueAt(arr, node, n)) && r.val != Nil
    {
      hide *;
      var ok, p := FindIndex(key);
      i, n := p, 0;
      if !ok { return BadKey, i, n; }
      ValidParts();
      IndexKnown(arr, node, c, key, p);
      GapStart(arr, node, p);
      var k: nat := p + 1;
      while k < |arr|  // the array part
        invariant p < k <= Places(arr, node) && Gap(arr, node, p, k)
      {
        PlaceIs(arr, node, k);
        if arr[k] != Nil { return More(KInt(k + 1), arr[k]), i, k; }
        GapNext(arr, node, p, k);
        k := k + 1;
      }
      while k - |arr| < |node|  // the hash part
        invariant p < k <= Places(arr, node) && |arr| <= k && Gap(arr, node, p, k)
      {
        PlaceIs(arr, node, k);
        if node[k - |arr|].val != Nil {
          HasKey(arr, node, lastfree, dummy, c, main, k - |arr|);
          return More(node[k - |arr|].key.k, node[k - |arr|].val), i, k;
        }
        GapNext(arr, node, p, k);
        k := k + 1;
      }
      return Ended, i, k;
    }

    /** The collector takes doomed keys out of empty slots. */
    method RemoveEntries(doomed: set<Key>)
      requires Valid()
      modifies this`node
      ensures Valid() && Same(arr, old(node), arr, node)
    {
      hide *;
      ValidParts();
      SameRefl(arr, node);
      for i := 0 to |node|
        invariant |node| == |old(node)| && TableOk(arr, node, lastfree, dummy, c, main) && Stands(arr, node, contents)
            && Same(arr, old(node), arr, node)
      {
        if node[i].val == Nil && node[i].key.Live? && node[i].key.k in doomed {
          ghost var was := node;
          DiedOk(arr, node, lastfree, dummy, c, main, contents, i);
          DiedSame(arr, node, i);
          node := node[i := node[i].(key := Dead(node[i].key.k))];
          SameTrans(arr, old(node), arr, was, arr, node);
        }
      }
      ValidFold();
    }

    /** One round of a loop over the table. */
    method Perform(changes: seq<Change>)
      requires Valid()
      modifies this
      ensures Valid() && contents == Changed(old(contents), changes) && c == old(c)
          && Same(old(arr), old(node), arr, node)
    {
      hide *;
      SameRefl(arr, node);
      ChangedStart(contents, changes);
      for i := 0 to |changes|
        invariant Valid() && contents == Changed(old(contents), changes[..i]) && c == old(c)
            && Same(old(arr), old(node), arr, node)
      {
        ghost var a, n := arr, node;
        ChangedNext(old(contents), changes, i);
        match changes[i] {
        case Assign(key, v) =>
          var was := Get(key);
          ValidParts();
          InMap(arr, node, lastfree, dummy, c, main, contents, key);
          if was != Nil {
            WriteIs(contents, key, v);
            var _ := Set(key, v);
            SameTrans(old(arr), old(node), a, n, arr, node);
          }
        case Collect(doomed) =>
          RemoveEntries(doomed);
          SameTrans(old(arr), old(node), a, n, arr, node);
        }
      }
      ChangedEnd(changes);
    }

    /** luaH_getn: a boundary of the table. */
    method Getn() returns (n: nat)
      requires Valid()
      ensures Boundary(contents, n)
    {
      var j := |arr|;
      if j > 0 && arr[j - 1] == Nil {
        var i := 0;
        while j - i > 1
          invariant 0 <= i < j <= |arr| && arr[j - 1] == Nil && (i > 0 ==> arr[i - 1] != Nil)
        {
          var m := (i + j) / 2;
          if arr[m - 1] == Nil { j := m; } else { i := m; }
        }
        assert Lookup(arr, node, KInt(i)) == At(contents, KInt(i))
            && Lookup(arr, node, KInt(i + 1)) == At(contents, KInt(i + 1));
        return i;
      }
      assert Lookup(arr, node, KInt(j)) == At(contents, KInt(j));
      if dummy {
        assert Lookup(arr, node, KInt(j + 1)) == At(contents, KInt(j + 1));
        return j;
      }
      n := UnboundSearch(j);
    }

    /** unbound_search */
    method UnboundSearch(start: nat) returns (n: nat)
      requires Valid() && (start > 0 ==> At(contents, KInt(start)) != Nil)
      ensures Boundary(contents, n)
    {
      var i, j := start, start + 1;  // Boundary lies between i and j
      var v := Get(KInt(j));
      while v != Nil
        invariant 0 <= i < j && (i > 0 ==> At(contents, KInt(i)) != Nil) && v == At(contents, KInt(j))
        decreases MAXINT - j
      {
        i := j;
        j := j * 2;
        if j > MAXINT {  // doubling left the range of int
          n := LinearSearch();
          return;
        }
        v := Get(KInt(j));
      }
      while j - i > 1
        invariant 0 <= i < j && (i > 0 ==> At(contents, KInt(i)) != Nil) && At(contents, KInt(j)) == Nil
      {
        var m := (i + j) / 2;
        v := Get(KInt(m));
        if v == Nil { j := m; } else { i := m; }
      }
      return i;
    }

    /** The linear search in unbound_search; it ends because the table is finite. */
    method LinearSearch() returns (n: nat)
      requires Valid()
      ensures Boundary(contents, n)
    {
      var i: nat := 1;
      var v := Get(KInt(i));
      while v != Nil
        invariant i > 0 && v == At(contents, KInt(i)) && forall k :: 1 <= k < i ==> At(contents, KInt(k)) != Nil
        decreases |contents| + 1 - i, v != Nil
      {
        PresentRun(contents, i);
        i := i + 1;
        v := Get(KInt(i));
      }
      return i - 1;
    }
  }

  datatype Outcome = Stored | NilIndex | NanIndex

  // ---- A loop over a table

  /** The keys of the entries that were seen. */
  function KeysOf(seen: seq<(Key, Value)>): (r: set<Key>)
    ensures |r| <= |seen|
  {
    if seen == [] then {} else KeysOf(seen[..|seen| - 1]) + {seen[|seen| - 1].0}
  }

  /** The entries were there when they were seen, and none was seen twice. */
  ghost predicate SeenOnce(m: map<Key, Value>, body: seq<seq<Change>>, seen: seq<(Key, Value)>) {
    && |seen| <= |body| && |KeysOf(seen)| == |seen|
    && forall i {:trigger seen[i]} :: 0 <= i < |seen| ==> At(Rounds(m, body, i), seen[i].0) == seen[i].1 != Nil
  }

  /**
   * A loop over a table whose body assigns to existing fields, clears fields, or lets the collector run: it sees no key
   * twice, each with the value that it has at that moment; when it ends it has seen every key that is still there, and
   * it never stops with an error. It ends after as many rounds as there were entries at the most.
   */
  method Traverse(t: LTable, body: seq<seq<Change>>) returns (seen: seq<(Key, Value)>, done: bool)
    requires t.Valid()
    modifies t
    ensures t.Valid() && SeenOnce(old(t.contents), body, seen) && t.contents == Rounds(old(t.contents), body, |seen|)
    ensures done ==> t.contents.Keys <= KeysOf(seen)
    ensures !done ==> |seen| == |body| <= |old(t.contents)|
  {
    hide *;
    seen, done := [], false;
    var key := KNil;
    ghost var m := t.contents;
    ghost var pos: int := -1;
    SeenStart(t.arr, t.node);
    LoopStart(m, body, t.arr, t.node, t.c);
    while |seen| < |body|
      invariant t.Valid() && |seen| <= |body| && t.contents == Rounds(m, body, |seen|)
      invariant SeenOnce(m, body, seen) && KeysOf(seen) <= m.Keys
      invariant IsIndex(t.arr, t.node, t.c, key, pos) && Seen(t.arr, t.node, pos, KeysOf(seen))
    {
      t.ValidParts();
      TableShape(t.arr, t.node, t.lastfree, t.dummy, t.c, t.main);
      var r: Step;
      ghost var i, n;
      r, i, n := t.Next(key);
      IndexKnown(t.arr, t.node, t.c, key, pos);
      OneIndex(t.arr, t.node, t.c, key, pos, i);
      if r.Ended? {
        SeenAll(t.arr, t.node, t.contents, pos, KeysOf(seen));
        done := true;
        return;
      }
      SeenNext(t.arr, t.node, t.lastfree, t.dummy, t.c, t.main, t.contents, pos, n, KeysOf(seen));
      PlaceOf(t.arr, t.node, t.lastfree, t.dummy, t.c, t.main, t.contents, n);
      SeenMore(m, body, seen, r.key, r.val);
      ghost var a, nd := t.arr, t.node;
      seen := seen + [(r.key, r.val)];
      t.Perform(body[|seen| - 1]);
      key, pos := r.key, n;
      SameIndex(a, nd, t.arr, t.node, t.c, key, pos);
      SeenSame(a, nd, t.arr, t.node, pos, KeysOf(seen));
    }
    SeenBound(m, body, seen);
  }

  lemma LoopStart(m: map<Key, Value>, body: seq<seq<Change>>, arr: seq<Value>, node: seq<Node>, c: Chains)
    ensures Rounds(m, body, 0) == m && SeenOnce(m, body, []) && KeysOf([]) == {} && IsIndex(arr, node, c, KNil, -1)
  {
  }

  lemma SeenMore(m: map<Key, Value>, body: seq<seq<Change>>, seen: seq<(Key, Value)>, k: Key, v: Value)
    requires SeenOnce(m, body, seen) && |seen| < |body| && KeysOf(seen) <= m.Keys && k !in KeysOf(seen)
    requires var now := Rounds(m, body, |seen|); k in now && now[k] == v != Nil
    ensures var more := seen + [(k, v)];
            SeenOnce(m, body, more) && KeysOf(more) == KeysOf(seen) + {k} && KeysOf(more) <= m.Keys
            && Rounds(m, body, |more|) == Changed(Rounds(m, body, |seen|), body[|seen|])
  {
    hide Rounds, KeysOf, Changed;
    var more := seen + [(k, v)];
    KeysMore(seen, k, v);
    RoundsNext(m, body, |seen|);
    forall i {:trigger more[i]} | 0 <= i < |more| ensures At(Rounds(m, body, i), more[i].0) == more[i].1 != Nil {
      assert i < |seen| ==> more[i] == seen[i];
    }
  }

  lemma KeysMore(seen: seq<(Key, Value)>, k: Key, v: Value)
    ensures KeysOf(seen + [(k, v)]) == KeysOf(seen) + {k}
  {
    assert (seen + [(k, v)])[..|seen|] == seen;
  }

  lemma RoundsNext(m: map<Key, Value>, body: seq<seq<Change>>, n: nat)
    requires n < |body|
    ensures Rounds(m, body, n + 1) == Changed(Rounds(m, body, n), body[n])
  {
  }

  lemma SeenBound(m: map<Key, Value>, body: seq<seq<Change>>, seen: seq<(Key, Value)>)
    requires SeenOnce(m, body, seen) && KeysOf(seen) <= m.Keys
    ensures |seen| <= |m|
  {
    SubsetCard(KeysOf(seen), m.Keys);
    assert |m| == |m.Keys|;
  }


  /** What an assignment does to a finite map: nil removes, and some keys are refused. */
  function Write(m: map<Key, Value>, key: Key, v: Value): map<Key, Value> { if Proper(key) then Put(m, key, v) else m }

  lemma WriteIs(m: map<Key, Value>, key: Key, v: Value)
    requires Proper(key)
    ensures Write(m, key, v) == Put(m, key, v)
  {
  }

  const MAXINT: nat := 0x7FFF_FFFF

  /** Index n has a value, or is 0, and index n + 1 has none. */
  ghost predicate Boundary(m: map<Key, Value>, n: nat) {
    (n > 0 ==> At(m, KInt(n)) != Nil) && At(m, KInt(n + 1)) == Nil
  }

  lemma PresentRun(m: map<Key, Value>, n: nat)
    requires forall k :: 1 <= k <= n ==> At(m, KInt(k)) != Nil
    ensures n <= |m|
  {
    KeyRun(n);
    assert KeysTo(n) <= m.Keys;
    SubsetCard(KeysTo(n), m.Keys);
  }

  ghost function KeysTo(n: nat): set<Key> { set k | 1 <= k <= n :: KInt(k) }

  lemma {:induction false} KeyRun(n: nat)
    ensures |KeysTo(n)| == n
  {
    if n > 0 {
      KeyRun(n - 1);
      assert KeysTo(n) == KeysTo(n - 1) + {KInt(n)};
    } else {
      assert KeysTo(0) == {};
    }
  }

  /** The value that the last of the assignments to a key gave it. */
  function Latest(changes: seq<Change>, key: Key): Value {
    if changes == [] || !Proper(key) then Nil
    else
      var last := changes[|changes| - 1];
      if last.Assign? && last.key == key then last.v else Latest(changes[..|changes| - 1], key)
  }

  /**
   * After any sequence of assignments to a new table, and of visits of the collector, a read of any key gives what was
   * last assigned to it.
   */
  method Run(mp: MainPosition, changes: seq<Change>, read: Key) returns (t: LTable, v: Value)
    requires GoodMain(mp)
    ensures t.Valid() && (forall k :: At(t.contents, k) == Latest(changes, k)) && v == Latest(changes, read)
  {
    t := new LTable(mp);
    for i := 0 to |changes|
      invariant fresh(t) && t.Valid() && t.main == mp && forall k :: At(t.contents, k) == Latest(changes[..i], k)
    {
      ghost var m := t.contents;
      match changes[i] {
        case Assign(key, x) => var _ := t.Set(key, x);
        case Collect(doomed) => t.RemoveEntries(doomed);
      }
      assert changes[..i + 1][..i] == changes[..i];
      forall k ensures At(t.contents, k) == Latest(changes[..i + 1], k) {
        assert At(m, k) == Latest(changes[..i], k);
      }
    }
    assert changes[..|changes|] == changes;
    v := t.Get(read);
  }
}
