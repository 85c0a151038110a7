/** The thread pool (threadpool.c) in every interleaving of its workers, its loops and its callers. */
module Pool {
  import opened Queues
  import opened PoolState
  import opened PoolSteps

  class ThreadPool {
    const mem: Memory<Node>
    var items: map<int, Entry>
    var pcs: seq<Pc>
    var pending: seq<bool>
    var busy: seq<int>
    var posted: bool
    ghost var q: map<Node, seq<Node>>

    ghost function Snap(): State
      reads this, mem
    {
      State(Links(mem.next, mem.prev), items, pcs, pending, busy, posted, q)
    }

    /** init_once, with the loops that will use the pool. */
    constructor (nthreads: nat, nloops: nat)
      requires nthreads > 0
      ensures Inv(Snap()) && items == map[] && |pcs| == nthreads && |busy| == nloops && !posted && fresh(mem)
      ensures (forall w :: 0 <= w < nthreads ==> pcs[w] == Top) && (forall h :: h in q ==> q[h] == [])
      ensures forall l :: 0 <= l < nloops ==> busy[l] == NOBODY && l < |pending| && !pending[l]
    {
      mem := new Memory<Node>();
      items, posted := map[], false;
      pcs, pending, busy := seq(nthreads, i => Top), seq(nloops, i => false), seq(nloops, i => NOBODY);
      q := map[];
      new;
      mem.Init(Wq);
      q := map[Wq := []];
      for l := 0 to nloops
        invariant Started(Snap(), l) && |pcs| == nthreads && |busy| == nloops == |pending| && items == map[] && !posted
        invariant (forall w :: 0 <= w < nthreads ==> pcs[w] == Top) && forall i ::
            0 <= i < nloops ==> busy[i] == NOBODY && !pending[i]
      {
        ghost var s := Snap();
        mem.Init(LoopQ(l));
        ghost var m := Links(mem.next, mem.prev);
        mem.Init(LocalQ(l));
        q := q[LoopQ(l) := []][LocalQ(l) := []];
        StartedMore(s, m, Snap(), l);
      }
      StartedInv(Snap(), nloops);
    }

    /** uv__work_submit */
    method Submit(loop: nat, id: int, k: nat)
      requires Inv(Snap()) && loop < |busy| && id >= 0 && id !in items
      modifies this`items, this`pcs, this`q, mem
      ensures Inv(Snap()) && items == old(items)[id := Entry(loop, Fn, Queued, 0, 0, 0, 0, posted)]
      ensures old(Wq in q) && q == old(q[Wq := q[Wq] + [Item(id)]]) && pcs == Wake(old(pcs), k)
    {
      hide *;
      ghost var s := Snap();
      SnapIs();
      TailReady(s, id);
      items := items[id := Entry(loop, Fn, Queued, 0, 0, 0, 0, posted)];
      mem.InsertTail(Wq, Item(id), q[Wq]);
      q := q[Wq := q[Wq] + [Item(id)]];
      pcs := Wake(pcs, k);  // uv_cond_signal
      SnapIs();
      PostedFold(s, Snap(), Item(id), k);
      SubmitInv(s, Snap(), id, loop, k);
    }

    /** cleanup posts the exit message. */
    method PostExit(k: nat)
      requires Inv(Snap()) && !posted
      modifies this`posted, this`pcs, this`q, mem
      ensures Inv(Snap()) && posted && old(Wq in q) && q == old(q[Wq := q[Wq] + [Exit]]) && pcs == Wake(old(pcs), k)
    {
      hide *;
      ghost var s := Snap();
      SnapIs();
      ExitReady(s);
      posted := true;
      mem.InsertTail(Wq, Exit, q[Wq]);
      q := q[Wq := q[Wq] + [Exit]];
      pcs := Wake(pcs, k);
      SnapIs();
      PostedFold(s, Snap(), Exit, k);
      ExitInv(s, Snap(), k);
    }

    /** The first critical section of worker: it waits, takes the head of the queue, or leaves. */
    method Look(w: nat, k: nat)
      requires Inv(Snap()) && w < |pcs| && pcs[w] == Top
      modifies this`items, this`pcs, this`q, mem
      ensures Inv(Snap()) && Measure(Snap()) < old(Measure(Snap()))
      ensures old(Wq in q)
      ensures old(q[Wq]) == [] ==> items == old(items) && q == old(q) && pcs == old(pcs)[w := Waiting]
      ensures old(q[Wq]) != [] && old(q[Wq])[0] == Exit ==>
          items == old(items) && q == old(q) && pcs == Wake(old(pcs), k)[w := Exited]
      ensures old(q[Wq]) != [] && old(q[Wq])[0] != Exit ==>
        old(q[Wq])[0].Item? && var id := old(q[Wq])[0].id;
            id in old(items) && items == old(items)[id := old(items)[id].(phase := Held(w))]
            && q == old(q[Wq := q[Wq][1..]]) && pcs == old(pcs)[w := Taken(id)]
    {
      hide *;
      ghost var s := Snap();
      SnapIs();
      LookReady(s, w);
      if mem.next[Wq] == Wq {  // QUEUE_EMPTY
        pcs := pcs[w := Waiting];
        SnapIs();
        PcInv(s, Snap(), w, Waiting);
        LessWait(s, Snap(), w);
        return;
      }
      var head := mem.next[Wq];  // QUEUE_HEAD
      if head == Exit {
        pcs := Wake(pcs, k)[w := Exited];
        SnapIs();
        ExitWorkerInv(s, Snap(), w, k);
        LessExit(s, Snap(), w, k);
        return;
      }
      var id := head.id;
      ghost var rest := q[Wq][1..];
      TakeReady(s, id);
      mem.Remove(head, Wq, [], rest);
      ghost var m := Links(mem.next, mem.prev);
      mem.Init(head);  // a self-linked node means that the work has started
      q := q[Wq := rest];
      items := items[id := items[id].(phase := Held(w))];
      pcs := pcs[w := Taken(id)];
      SnapIs();
      TakeDone(s, m, Snap(), id);
      TakeInv(s, Snap(), w, id);
      LessTake(s, Snap(), w, id);
    }

    /** w->work(w) */
    method Call(w: nat)
      requires Inv(Snap()) && w < |pcs| && pcs[w].Taken?
      modifies this`items, this`pcs
      ensures Inv(Snap()) && Measure(Snap()) < old(Measure(Snap()))
      ensures var id := old(pcs)[w].id;
          id in old(items) && old(items)[id].work == Fn
          && items == old(items)[id := old(items)[id].(ran := old(items)[id].ran + 1)] && pcs == old(pcs)[w := Ran(id)]
    {
      hide *;
      ghost var s := Snap();
      SnapIs();
      var id := pcs[w].id;
      NeverAborts(s, w);
      items := items[id := items[id].(ran := items[id].ran + 1)];
      pcs := pcs[w := Ran(id)];
      SnapIs();
      CallInv(s, Snap(), w, id);
      LessCall(s, Snap(), w, id);
    }

    /** The second critical section of worker. */
    method Finish(w: nat)
      requires Inv(Snap()) && w < |pcs| && pcs[w].Ran?
      modifies this`items, this`pcs, this`pending, this`q, mem
      ensures Inv(Snap()) && Measure(Snap()) < old(Measure(Snap()))
      ensures old(pcs)[w].id in old(items) && pcs == old(pcs)[w := Top]
      ensures var id := old(pcs)[w].id; var l := old(items)[id].loop;
        && items == old(items)[id := old(items)[id].(phase := Ready, work := Null)]
        && l < |old(pending)| && pending == old(pending)[l := true] && LoopQ(l) in old(q)
          && q == old(q)[LoopQ(l) := old(q)[LoopQ(l)] + [Item(id)]]
    {
      hide *;
      ghost var s := Snap();
      SnapIs();
      var id := pcs[w].id;
      FinishReady(s, w, id);
      var l := items[id].loop;
      items := items[id := items[id].(phase := Ready, work := Null)];  // no work function means that it is over
      mem.InsertTail(LoopQ(l), Item(id), q[LoopQ(l)]);
      q := q[LoopQ(l) := q[LoopQ(l)] + [Item(id)]];
      pending := pending[l := true];  // uv_async_send
      pcs := pcs[w := Top];
      SnapIs();
      FinishInv(s, Snap(), w, id, l);
      LessFinish(s, Snap(), w, id, l);
    }

    /** A worker may wake up in uv_cond_wait without a signal. */
    method WakeUp(w: nat)
      requires Inv(Snap()) && w < |pcs| && pcs[w] == Waiting
      modifies this`pcs
      ensures Inv(Snap()) && pcs == old(pcs)[w := Top]
    {
      hide *;
      ghost var s := Snap();
      SnapIs();
      pcs := pcs[w := Top];
      SnapIs();
      PcInv(s, Snap(), w, Top);
    }

    /** The part of uv__work_cancel under both locks: it refuses items that were started. */
    method Cancel(l: nat, id: int) returns (cancelled: bool)
      requires Inv(Snap()) && l < |busy| && busy[l] == NOBODY && id in items && items[id].loop == l
          && !items[id].phase.Done?
      modifies this`items, this`busy, this`q, mem
      ensures Inv(Snap()) && cancelled == old(items[id].ran == 0 && !items[id].phase.Held?)
      ensures if cancelled then busy == old(busy)[l := id]
          && items == old(items)[id := old(items)[id].(phase := Cancelling)] else Snap() == old(Snap())
      ensures cancelled ==> exists h, a, b :: h in old(q) && old(q)[h] == a + [Item(id)] + b && q == old(q)[h := a + b]
    {
      hide *;
      ghost var s := Snap();
      SnapIs();
      CancelReady(s, l, id);
      cancelled := mem.next[Item(id)] != Item(id) && items[id].work != Null;
      if cancelled {
        ghost var h := Place(items[id]);
        ghost var a, b := CutAt(q[h], Item(id));
        mem.Remove(Item(id), h, a, b);
        q := q[h := a + b];
        items := items[id := items[id].(phase := Cancelling)];
        busy := busy[l := id];
        SnapIs();
        CancelDone(s, Snap(), h, a, id, b);
        CancelInv(s, Snap(), l, id, a, b);
        assert s.q[h] == a + [Item(id)] + b;
      }
    }

    /** The part of uv__work_cancel that makes the item ready for its loop. */
    method PutCancelled(l: nat)
      requires Inv(Snap()) && l < |busy| && busy[l] != NOBODY
      modifies this`items, this`busy, this`pending, this`q, mem
      ensures Inv(Snap()) && Measure(Snap()) < old(Measure(Snap()))
      ensures old(busy)[l] in old(items) && busy == old(busy)[l := NOBODY] && l < |old(pending)|
          && pending == old(pending)[l := true]
      ensures var id := old(busy)[l];
        && items == old(items)[id := old(items)[id].(phase := Ready, work := Cancelled,
          cancels := old(items)[id].cancels + 1)]
        && LoopQ(l) in old(q) && q == old(q)[LoopQ(l) := old(q)[LoopQ(l)] + [Item(id)]]
    {
      hide *;
      ghost var s := Snap();
      SnapIs();
      var id := busy[l];
      CancelledReady(s, l, id);
      items := items[id := items[id].(phase := Ready, work := Cancelled, cancels := items[id].cancels + 1)];
      mem.InsertTail(LoopQ(l), Item(id), q[LoopQ(l)]);
      q := q[LoopQ(l) := q[LoopQ(l)] + [Item(id)]];
      pending := pending[l := true];
      busy := busy[l := NOBODY];
      SnapIs();
      CancelledInv(s, Snap(), l, id);
      LessCancelled(s, Snap(), l, id);
    }

    /** uv__work_done, up to its loop. */
    method Drain(l: nat)
      requires Inv(Snap()) && l < |busy| && busy[l] == NOBODY && l < |pending| && pending[l] && LocalQ(l) in q
          && q[LocalQ(l)] == []
      modifies this`items, this`pending, this`q, mem
      ensures Inv(Snap()) && Measure(Snap()) < old(Measure(Snap()))
      ensures LoopQ(l) in old(q) && q == old(q)[LocalQ(l) := old(q)[LoopQ(l)]][LoopQ(l) := []]
          && pending == old(pending)[l := false]
      ensures items == map i | i in old(items) ::
          if old(items)[i].phase == Ready && old(items)[i].loop == l then old(items)[i].(phase := Draining)
          else old(items)[i]
    {
      hide *;
      ghost var s := Snap();
      SnapIs();
      DrainReady(s, l);
      pending := pending[l := false];
      mem.Init(LocalQ(l));
      ghost var m := Links(mem.next, mem.prev);
      ghost var all := q[LoopQ(l)];
      DrainInit(s, m, l);
      if mem.next[LoopQ(l)] != LoopQ(l) {  // QUEUE_EMPTY
        mem.Split(LoopQ(l), mem.next[LoopQ(l)], LocalQ(l), [], all);
      }
      items := map i | i in items :: if items[i].phase == Ready && items[i].loop == l then items[i].(phase := Draining)
          else items[i];
      q := q[LocalQ(l) := all][LoopQ(l) := []];
      SnapIs();
      DrainDone(s, m, Snap(), l);
      SplitInv(s, Snap(), l);
      LessDrain(s, Snap(), l);
    }

    /** One round of the loop in uv__work_done: done is called for the first item. */
    method CallDone(l: nat)
      requires Inv(Snap()) && l < |busy| && busy[l] == NOBODY && LocalQ(l) in q && q[LocalQ(l)] != []
      modifies this`items, this`q, mem
      ensures Inv(Snap()) && Measure(Snap()) < old(Measure(Snap()))
      ensures q == old(q[LocalQ(l) := q[LocalQ(l)][1..]]) && old(q[LocalQ(l)])[0].Item?
          && old(q[LocalQ(l)])[0].id in old(items)
      ensures var id := old(q[LocalQ(l)])[0].id;
        items == old(items)[id := old(items)[id].(phase := Done, done := old(items)[id].done + 1,
            status := if old(items)[id].work == Cancelled then ECANCELED else 0)]
    {
      hide *;
      ghost var s := Snap();
      SnapIs();
      DoneReady(s, l);
      var head := mem.next[LocalQ(l)];
      var id := head.id;
      ghost var rest := q[LocalQ(l)][1..];
      mem.Remove(head, LocalQ(l), [], rest);
      var err := if items[id].work == Cancelled then ECANCELED else 0;
      items := items[id := items[id].(phase := Done, done := items[id].done + 1, status := err)];
      q := q[LocalQ(l) := rest];
      SnapIs();
      DoneDone(s, Snap(), l, id);
      DoneInv(s, Snap(), l, id);
      LessDone(s, Snap(), l, id);
    }

    /** One step, if it can happen now. */
    method Perform(op: Op) returns (happened: bool)
      requires Inv(Snap())
      modifies this, mem
      ensures Inv(Snap()) && happened == old(Enabled(Snap(), op)) && (!happened ==> Snap() == old(Snap()))
      ensures happened && Internal(op) ==> Measure(Snap()) < old(Measure(Snap()))
      ensures happened ==> Did(old(Snap()), op, Snap())
    {
      hide Inv, Measure, Enabled, Internal, Wake;
      happened := false;
      SnapIs();
      Sizes(Snap());
      OpParts(Snap(), op);
      match op {
        case Submit(l, id, k) => if l < |busy| && id >= 0 && id !in items { Submit(l, id, k); happened := true; }
        case PostExit(k) => if !posted { PostExit(k); happened := true; }
        case Look(w, k) => if w < |pcs| && pcs[w] == Top { Look(w, k); happened := true; }
        case Call(w) => if w < |pcs| && pcs[w].Taken? { Call(w); happened := true; }
        case Finish(w) => if w < |pcs| && pcs[w].Ran? { Finish(w); happened := true; }
        case WakeUp(w) => if w < |pcs| && pcs[w] == Waiting { WakeUp(w); happened := true; }
        case Cancel(l, id) => if l < |busy| && busy[l] == NOBODY && id in items && items[id].loop == l
            && !items[id].phase.Done? { var _ := Cancel(l, id); happened := true; }
        case PutCancelled(l) => if l < |busy| && busy[l] != NOBODY { PutCancelled(l); happened := true; }
        case Drain(l) =>
          if l < |busy| && busy[l] == NOBODY && pending[l] {
            LocalEmpty(Snap(), l);
            if mem.next[LocalQ(l)] == LocalQ(l) { Drain(l); happened := true; }
          }
        case CallDone(l) =>
          if l < |busy| && busy[l] == NOBODY {
            LocalEmpty(Snap(), l);
            if mem.next[LocalQ(l)] != LocalQ(l) { CallDone(l); happened := true; }
          }
      }
    }

    lemma SnapIs()
      ensures Snap() == State(Links(mem.next, mem.prev), items, pcs, pending, busy, posted, q)
    {
    }
  }

  // ---- The start

  ghost predicate Started(s: State, n: nat) {
    && s.items == map[] && !s.posted && Wq in s.q
    && (forall h {:trigger h in s.q} :: h in s.q <==> h == Wq || ((h.LoopQ? || h.LocalQ?) && h.loop < n))
    && (forall h {:trigger s.q[h]} :: h in s.q ==> s.q[h] == [] && IsQueue(s.links, h, []))
  }

  lemma StartedMore(s: State, m: Links<Node>, t: State, n: nat)
    requires Started(s, n) && Only(s.links, m, [LoopQ(n)]) && IsQueue(m, LoopQ(n), []) && Only(m, t.links, [LocalQ(n)])
        && IsQueue(t.links, LocalQ(n), [])
    requires t.items == s.items && !t.posted && t.q == s.q[LoopQ(n) := []][LocalQ(n) := []]
    ensures Started(t, n + 1)
  {
    forall h | h in t.q ensures t.q[h] == [] && IsQueue(t.links, h, []) {
      if h != LoopQ(n) && h != LocalQ(n) {
        Elsewhere(s.links, m, [LoopQ(n)], h, []);
        Elsewhere(m, t.links, [LocalQ(n)], h, []);
      } else if h == LoopQ(n) {
        Elsewhere(m, t.links, [LocalQ(n)], h, []);
      }
    }
  }

  lemma StartedInv(s: State, n: nat)
    requires Started(s, n) && |s.pcs| > 0 && |s.busy| == n == |s.pending| && (forall w ::
        0 <= w < |s.pcs| ==> s.pcs[w] == Top) && forall i :: 0 <= i < n ==> s.busy[i] == NOBODY && !s.pending[i]
    ensures Inv(s)
  {
    hide IsQueue;
  }

  // ---- What the steps use

  lemma TailReady(s: State, id: int)
    requires Inv(s) && id !in s.items
    ensures Wq in s.q && IsQueue(s.links, Wq, s.q[Wq]) && Item(id) !in s.q[Wq]
  {
    InvAt(s, Wq, id, 0, 0);
    assert !Home(s, Item(id), Wq);
    hide IsQueue;
  }

  lemma PostedFold(s: State, t: State, n: Node, k: nat)
    requires Wq in s.q && t.q == s.q[Wq := s.q[Wq] + [n]] && t.pcs == Wake(s.pcs, k) && t.pending == s.pending
        && t.busy == s.busy
    requires IsQueue(t.links, Wq, s.q[Wq] + [n]) && Only(s.links, t.links, [Wq] + s.q[Wq] + [n])
    ensures Posted(s, t, n, k)
  {
  }

  lemma ExitReady(s: State)
    requires Inv(s) && !s.posted
    ensures Wq in s.q && IsQueue(s.links, Wq, s.q[Wq]) && Exit !in s.q[Wq]
  {
    InvAt(s, Wq, -1, 0, 0);
    assert !Home(s, Exit, Wq);
    hide IsQueue;
  }

  lemma LookReady(s: State, w: nat)
    requires Inv(s)
    ensures Wq in s.q && Has(s.links, Wq) && Wq in s.links.next && IsQueue(s.links, Wq, s.q[Wq])
    ensures
        if s.links.next[Wq] == Wq then s.q[Wq] == []
        else s.q[Wq] != [] && s.links.next[Wq] == s.q[Wq][0] && (s.q[Wq][0] == Exit || s.q[Wq][0].Item?)
  {
    InvAt(s, Wq, -1, 0, 0);
    EmptyQueue(s.links, Wq, s.q[Wq]);
    if s.q[Wq] != [] { assert Home(s, s.q[Wq][0], Wq); }
    hide IsQueue;
  }

  lemma TakeReady(s: State, id: int)
    requires Inv(s) && Wq in s.q && s.q[Wq] != [] && s.q[Wq][0] == Item(id)
    ensures id in s.items && IsQueue(s.links, Wq, [] + [Item(id)] + s.q[Wq][1..])
  {
    QueuedAt(s, id);
    InvAt(s, Wq, id, 0, 0);
    assert [] + [Item(id)] + s.q[Wq][1..] == s.q[Wq];
    hide IsQueue;
  }

  lemma TakeDone(s: State, m: Links<Node>, t: State, id: int)
    requires Wq in s.q && s.q[Wq] != [] && s.q[Wq][0] == Item(id) && Wq in t.q && t.q[Wq] == s.q[Wq][1..]
    requires IsQueue(s.links, Wq, s.q[Wq]) && IsQueue(m, Wq, [] + s.q[Wq][1..])
        && Only(s.links, m, [Wq] + [] + [Item(id)] + s.q[Wq][1..])
    requires Only(m, t.links, [Item(id)]) && IsQueue(t.links, Item(id), [])
    ensures IsQueue(t.links, Wq, t.q[Wq]) && Only(s.links, t.links, [Wq] + s.q[Wq]) && Has(t.links, Item(id))
        && t.links.next[Item(id)] == Item(id)
  {
    var rest := s.q[Wq][1..];
    assert [] + rest == rest;
    assert s.q[Wq] == [] + [Item(id)] + rest;
    LeaveMember(s.links, Wq, [], Item(id), rest, Item(id));
    EmptyQueue(t.links, Item(id), []);
    hide IsQueue, Only;
    Elsewhere(m, t.links, [Item(id)], Wq, rest);
    OnlyTwo(s.links, m, t.links, [Wq] + [] + [Item(id)] + rest, [Item(id)], [Wq] + s.q[Wq]);
  }

  lemma OnlyTwo(l: Links<Node>, m: Links<Node>, n: Links<Node>, a: seq<Node>, b: seq<Node>, c: seq<Node>)
    requires Only(l, m, a) && Only(m, n, b) && (forall x :: x in a ==> x in c) && forall x :: x in b ==> x in c
    ensures Only(l, n, c)
  {
  }

  lemma FinishReady(s: State, w: nat, id: int)
    requires Inv(s) && w < |s.pcs| && s.pcs[w] == Ran(id)
    ensures id in s.items && s.items[id].loop < |s.pending| && var h := LoopQ(s.items[id].loop);
        h in s.q && IsQueue(s.links, h, s.q[h]) && Item(id) != h && Item(id) !in s.q[h]
  {
    InvAt(s, Wq, id, w, 0);
    var l := s.items[id].loop;
    InvAt(s, LoopQ(l), id, w, l);
    HeldOutside(s, LoopQ(l), id);
    hide IsQueue;
  }

  lemma CancelReady(s: State, l: nat, id: int)
    requires Inv(s) && l < |s.busy| && s.busy[l] == NOBODY && id in s.items && s.items[id].loop == l
        && !s.items[id].phase.Done?
    ensures var e := s.items[id];
        Item(id) in s.links.next
        && ((s.links.next[Item(id)] != Item(id) && e.work != Null) <==> (e.ran == 0 && !e.phase.Held?))
    ensures var e := s.items[id];
        !e.phase.Held? ==>
          (e.phase.Queued? || e.phase.Ready? || e.phase.Draining?) && Place(e) in s.q && Item(id) in s.q[Place(e)]
          && IsQueue(s.links, Place(e), s.q[Place(e)])
  {
    InvAt(s, Wq, id, 0, l);
    CancelTest(s, id);
    if !s.items[id].phase.Held? { InvAt(s, Place(s.items[id]), id, 0, l); }
    hide IsQueue;
  }

  /** The parts of a queue before and after a node. */
  ghost method CutAt(s: seq<Node>, n: Node) returns (a: seq<Node>, b: seq<Node>)
    requires n in s
    ensures s == a + [n] + b
  {
    var i :| 0 <= i < |s| && s[i] == n;
    a, b := s[..i], s[i + 1..];
  }

  lemma CancelDone(s: State, t: State, h: Node, a: seq<Node>, id: int, b: seq<Node>)
    requires h in s.q && s.q[h] == a + [Item(id)] + b && Only(s.links, t.links, [h] + a + [Item(id)] + b)
    ensures Only(s.links, t.links, [h] + s.q[h])
  {
    assert [h] + a + [Item(id)] + b == [h] + s.q[h];
  }

  lemma CancelledReady(s: State, l: nat, id: int)
    requires Inv(s) && l < |s.busy| && s.busy[l] == id && id != NOBODY
    ensures l < |s.pending| && id in s.items && s.items[id].phase == Cancelling && s.items[id].loop == l
        && LoopQ(l) in s.q && IsQueue(s.links, LoopQ(l), s.q[LoopQ(l)]) && Item(id) !in s.q[LoopQ(l)]
  {
    InvAt(s, LoopQ(l), id, 0, l);
    HeldOutside(s, LoopQ(l), id);
    hide IsQueue;
  }

  lemma DrainReady(s: State, l: nat)
    requires Inv(s) && l < |s.busy| && LocalQ(l) in s.q && s.q[LocalQ(l)] == []
    ensures LoopQ(l) in s.q && IsQueue(s.links, LoopQ(l), s.q[LoopQ(l)]) && LocalQ(l) !in s.q[LoopQ(l)]
  {
    InvAt(s, LoopQ(l), -1, 0, l);
    assert !Home(s, LocalQ(l), LoopQ(l));
    hide IsQueue;
  }

  lemma DrainInit(s: State, m: Links<Node>, l: nat)
    requires LoopQ(l) in s.q && IsQueue(s.links, LoopQ(l), s.q[LoopQ(l)]) && LocalQ(l) !in s.q[LoopQ(l)]
        && Only(s.links, m, [LocalQ(l)]) && IsQueue(m, LocalQ(l), [])
    ensures LoopQ(l) in m.next && IsQueue(m, LoopQ(l), [] + s.q[LoopQ(l)])
    ensures
        if m.next[LoopQ(l)] == LoopQ(l) then s.q[LoopQ(l)] == []
        else s.q[LoopQ(l)] != [] && s.q[LoopQ(l)][0] == m.next[LoopQ(l)]
  {
    hide IsQueue, Only;
    Elsewhere(s.links, m, [LocalQ(l)], LoopQ(l), s.q[LoopQ(l)]);
    EmptyQueue(m, LoopQ(l), s.q[LoopQ(l)]);
    assert [] + s.q[LoopQ(l)] == s.q[LoopQ(l)];
  }

  lemma DrainDone(s: State, m: Links<Node>, t: State, l: nat)
    requires LoopQ(l) in s.q && Only(s.links, m, [LocalQ(l)]) && IsQueue(m, LocalQ(l), [])
    requires
        if m.next == t.links.next && m.prev == t.links.prev && s.q[LoopQ(l)] == [] then
          IsQueue(m, LoopQ(l), [] + s.q[LoopQ(l)])
        else
          IsQueue(t.links, LoopQ(l), []) && IsQueue(t.links, LocalQ(l), s.q[LoopQ(l)])
          && Only(m, t.links, [LoopQ(l), LocalQ(l)] + [] + s.q[LoopQ(l)])
    ensures IsQueue(t.links, LoopQ(l), []) && IsQueue(t.links, LocalQ(l), s.q[LoopQ(l)])
        && Only(s.links, t.links, [LoopQ(l), LocalQ(l)] + s.q[LoopQ(l)])
  {
    var all := s.q[LoopQ(l)];
    assert [] + all == all;
    hide IsQueue, Only;
    var wide := [LoopQ(l), LocalQ(l)] + all;
    if m.next == t.links.next && m.prev == t.links.prev && all == [] {
      assert m == t.links;
      OnlyMore(s.links, m, [LocalQ(l)], wide);
    } else {
      OnlyTwo(s.links, m, t.links, [LocalQ(l)], [LoopQ(l), LocalQ(l)] + [] + all, wide);
    }
  }

  lemma OnlyMore(l: Links<Node>, m: Links<Node>, a: seq<Node>, c: seq<Node>)
    requires Only(l, m, a) && forall x :: x in a ==> x in c
    ensures Only(l, m, c)
  {
  }

  lemma DoneReady(s: State, l: nat)
    requires Inv(s) && l < |s.busy| && LocalQ(l) in s.q && s.q[LocalQ(l)] != []
    ensures LocalQ(l) in s.links.next && var n := s.links.next[LocalQ(l)];
      n.Item? && n == s.q[LocalQ(l)][0] && n.id in s.items && s.items[n.id].phase == Draining && s.items[n.id].loop == l
          && IsQueue(s.links, LocalQ(l), [] + [n] + s.q[LocalQ(l)][1..])
  {
    InvAt(s, LocalQ(l), -1, 0, l);
    EmptyQueue(s.links, LocalQ(l), s.q[LocalQ(l)]);
    assert Home(s, s.q[LocalQ(l)][0], LocalQ(l));
    assert s.q[LocalQ(l)] == [] + [s.q[LocalQ(l)][0]] + s.q[LocalQ(l)][1..];
    hide IsQueue;
  }

  lemma DoneDone(s: State, t: State, l: nat, id: int)
    requires LocalQ(l) in s.q && s.q[LocalQ(l)] != [] && s.q[LocalQ(l)][0] == Item(id)
        && IsQueue(t.links, LocalQ(l), [] + s.q[LocalQ(l)][1..])
        && Only(s.links, t.links, [LocalQ(l)] + [] + [Item(id)] + s.q[LocalQ(l)][1..])
    ensures IsQueue(t.links, LocalQ(l), s.q[LocalQ(l)][1..]) && Only(s.links, t.links, [LocalQ(l)] + s.q[LocalQ(l)])
  {
    assert [] + s.q[LocalQ(l)][1..] == s.q[LocalQ(l)][1..];
    assert [LocalQ(l)] + [] + [Item(id)] + s.q[LocalQ(l)][1..] == [LocalQ(l)] + s.q[LocalQ(l)];
    hide IsQueue, Only;
  }

  // ---- A measure that every step of a worker or a loop makes smaller

  function PcWeight(p: Pc): nat {
    match p case Top => 3 case Waiting => 2 case Taken(_) => 10 case Ran(_) => 9 case Exited => 0
  }

  function PcSum(pcs: seq<Pc>): nat { if pcs == [] then 0 else PcSum(pcs[..|pcs| - 1]) + PcWeight(pcs[|pcs| - 1]) }

  ghost function Len(s: State, h: Node): nat { if h in s.q then |s.q[h]| else 0 }

  ghost function LoopWeight(s: State, l: nat): nat
    requires l < |s.busy| == |s.pending|
  {
    2 * Len(s, LoopQ(l)) + Len(s, LocalQ(l)) + (if s.pending[l] then 1 else 0) + (if s.busy[l] != NOBODY then 5 else 0)
  }

  ghost function LoopSum(s: State, n: nat): nat
    requires n <= |s.busy| == |s.pending|
  {
    if n == 0 then 0 else LoopSum(s, n - 1) + LoopWeight(s, n - 1)
  }

  ghost function Measure(s: State): nat {
    if |s.busy| == |s.pending| then 8 * Len(s, Wq) + PcSum(s.pcs) + LoopSum(s, |s.busy|) else 0
  }

  lemma {:induction false} PcSumUpdate(pcs: seq<Pc>, w: nat, p: Pc)
    requires w < |pcs|
    ensures PcSum(pcs[w := p]) == PcSum(pcs) - PcWeight(pcs[w]) + PcWeight(p)
  {
    var n := |pcs| - 1;
    if w == n {
      assert pcs[w := p][..n] == pcs[..n];
    } else {
      PcSumUpdate(pcs[..n], w, p);
      assert pcs[w := p][..n] == pcs[..n][w := p];
    }
  }

  lemma {:induction false} LoopSumSame(s: State, t: State, n: nat)
    requires n <= |s.busy| == |s.pending| == |t.busy| == |t.pending| && forall l ::
        0 <= l < n ==> LoopWeight(t, l) == LoopWeight(s, l)
    ensures LoopSum(t, n) == LoopSum(s, n)
  {
    if n > 0 { LoopSumSame(s, t, n - 1); }
  }

  lemma {:induction false} LoopSumUpdate(s: State, t: State, n: nat, l: nat)
    requires l < n <= |s.busy| == |s.pending| == |t.busy| == |t.pending| && forall j ::
        0 <= j < n && j != l ==> LoopWeight(t, j) == LoopWeight(s, j)
    ensures LoopSum(t, n) - LoopWeight(t, l) == LoopSum(s, n) - LoopWeight(s, l)
  {
    if l == n - 1 { LoopSumSame(s, t, n - 1); } else { LoopSumUpdate(s, t, n - 1, l); }
  }

  lemma {:induction false} WakeSum(pcs: seq<Pc>, r: seq<Pc>, w: nat, k: nat)
    requires r == Wake(pcs, k) && w < |pcs| && pcs[w] == Top
    ensures PcSum(r[w := Exited]) < PcSum(pcs)
  {
    WakeOne(pcs, k);
    if r != pcs {
      var v :| 0 <= v < |pcs| && pcs[v] == Waiting && r == pcs[v := Top];
      PcSumUpdate(pcs, v, Top);
    }
    PcSumUpdate(r, w, Exited);
  }

  lemma WakeOne(pcs: seq<Pc>, k: nat)
    ensures var r := Wake(pcs, k);
        r == pcs || exists v {:trigger pcs[v]} :: 0 <= v < |pcs| && pcs[v] == Waiting && r == pcs[v := Top]
  {
    if !(k < |pcs| && pcs[k] == Waiting) { WakeFirstOne(pcs, 0); }
  }

  lemma {:induction false} WakeFirstOne(pcs: seq<Pc>, i: nat)
    requires i <= |pcs| && forall w :: 0 <= w < i ==> pcs[w] != Waiting
    ensures var r := WakeFirst(pcs, i);
        r == pcs || exists v {:trigger pcs[v]} :: 0 <= v < |pcs| && pcs[v] == Waiting && r == pcs[v := Top]
    decreases |pcs| - i
  {
    if i < |pcs| && pcs[i] != Waiting { WakeFirstOne(pcs, i + 1); }
  }

  lemma LessWait(s: State, t: State, w: nat)
    requires Inv(s) && w < |s.pcs| && s.pcs[w] == Top && t == s.(pcs := s.pcs[w := Waiting])
    ensures Measure(t) < Measure(s)
  {
    InvGlobal(s);
    PcSumUpdate(s.pcs, w, Waiting);
    hide Inv;
    LoopSumSame(s, t, |s.busy|);
  }

  /** A step that changes at most the queues and flags of loop l. */
  lemma MeasureStep(s: State, t: State, l: nat)
    requires l < |s.busy| == |s.pending| == |t.busy| == |t.pending| && forall j ::
        0 <= j < |s.busy| && j != l ==> LoopWeight(t, j) == LoopWeight(s, j)
    ensures Measure(t) - Measure(s) == 8 * (Len(t, Wq) - Len(s, Wq)) + PcSum(t.pcs) - PcSum(s.pcs) + LoopWeight(t, l)
        - LoopWeight(s, l)
  {
    LoopSumUpdate(s, t, |s.busy|, l);
  }

  lemma MeasureStill(s: State, t: State)
    requires |s.busy| == |s.pending| == |t.busy| == |t.pending| && forall j ::
        0 <= j < |s.busy| ==> LoopWeight(t, j) == LoopWeight(s, j)
    ensures Measure(t) - Measure(s) == 8 * (Len(t, Wq) - Len(s, Wq)) + PcSum(t.pcs) - PcSum(s.pcs)
  {
    LoopSumSame(s, t, |s.busy|);
  }

  lemma LessExit(s: State, t: State, w: nat, k: nat)
    requires Inv(s) && w < |s.pcs| && s.pcs[w] == Top && t == s.(pcs := Wake(s.pcs, k)[w := Exited])
    ensures Measure(t) < Measure(s)
  {
    InvGlobal(s);
    WakeSum(s.pcs, Wake(s.pcs, k), w, k);
    MeasureStill(s, t);
  }

  lemma LessTake(s: State, t: State, w: nat, id: int)
    requires Inv(s) && w < |s.pcs| && s.pcs[w] == Top && t.pcs == s.pcs[w := Taken(id)] && t.busy == s.busy
        && t.pending == s.pending && Wq in s.q && s.q[Wq] != [] && t.q == s.q[Wq := s.q[Wq][1..]]
    ensures Measure(t) < Measure(s)
  {
    InvGlobal(s);
    PcSumUpdate(s.pcs, w, Taken(id));
    hide Inv;
    MeasureStill(s, t);
  }

  lemma LessCall(s: State, t: State, w: nat, id: int)
    requires Inv(s) && w < |s.pcs| && s.pcs[w] == Taken(id) && t.pcs == s.pcs[w := Ran(id)] && t.busy == s.busy
        && t.pending == s.pending && t.q == s.q
    ensures Measure(t) < Measure(s)
  {
    InvGlobal(s);
    PcSumUpdate(s.pcs, w, Ran(id));
    hide Inv;
    MeasureStill(s, t);
  }

  lemma LessFinish(s: State, t: State, w: nat, id: int, l: nat)
    requires Inv(s) && w < |s.pcs| && s.pcs[w] == Ran(id) && t.pcs == s.pcs[w := Top] && l < |s.pending|
        && t.busy == s.busy && t.pending == s.pending[l := true]
    requires LoopQ(l) in s.q && t.q == s.q[LoopQ(l) := s.q[LoopQ(l)] + [Item(id)]]
    ensures Measure(t) < Measure(s)
  {
    InvGlobal(s);
    PcSumUpdate(s.pcs, w, Top);
    hide Inv;
    MeasureStep(s, t, l);
  }

  lemma LessCancelled(s: State, t: State, l: nat, id: int)
    requires Inv(s) && t.pcs == s.pcs && l < |s.pending| && l < |s.busy| && s.busy[l] != NOBODY
        && t.busy == s.busy[l := NOBODY] && t.pending == s.pending[l := true]
    requires LoopQ(l) in s.q && t.q == s.q[LoopQ(l) := s.q[LoopQ(l)] + [Item(id)]]
    ensures Measure(t) < Measure(s)
  {
    InvGlobal(s);
    hide Inv;
    MeasureStep(s, t, l);
  }

  lemma LessDrain(s: State, t: State, l: nat)
    requires Inv(s) && t.pcs == s.pcs && l < |s.pending| && l < |s.busy| && s.pending[l] && t.busy == s.busy
        && t.pending == s.pending[l := false]
    requires LoopQ(l) in s.q && LocalQ(l) in s.q && s.q[LocalQ(l)] == []
        && t.q == s.q[LocalQ(l) := s.q[LoopQ(l)]][LoopQ(l) := []]
    ensures Measure(t) < Measure(s)
  {
    InvGlobal(s);
    hide Inv;
    MeasureStep(s, t, l);
  }

  lemma LessDone(s: State, t: State, l: nat, id: int)
    requires Inv(s) && t.pcs == s.pcs && l < |s.busy| && t.busy == s.busy && t.pending == s.pending && LocalQ(l) in s.q
        && s.q[LocalQ(l)] != [] && t.q == s.q[LocalQ(l) := s.q[LocalQ(l)][1..]]
    ensures Measure(t) < Measure(s)
  {
    InvGlobal(s);
    hide Inv;
    MeasureStep(s, t, l);
  }

  // ---- Runs

  /** A call from outside, or a step of a worker or of a loop. */
  datatype Op =
    | Submit(l: nat, id: int, k: nat) | PostExit(k: nat) | Cancel(l: nat, id: int) | WakeUp(w: nat)
    | Look(w: nat, k: nat) | Call(w: nat) | Finish(w: nat) | PutCancelled(l: nat) | Drain(l: nat) | CallDone(l: nat)

  /** The steps that happen without a new call. */
  predicate Internal(op: Op) { op.Look? || op.Call? || op.Finish? || op.PutCancelled? || op.Drain? || op.CallDone? }

  ghost predicate Enabled(s: State, op: Op) {
    match op
    case Submit(l, id, _) => l < |s.busy| && id >= 0 && id !in s.items
    case PostExit(_) => !s.posted
    case Look(w, _) => w < |s.pcs| && s.pcs[w] == Top
    case Call(w) => w < |s.pcs| && s.pcs[w].Taken?
    case Finish(w) => w < |s.pcs| && s.pcs[w].Ran?
    case WakeUp(w) => w < |s.pcs| && s.pcs[w] == Waiting
    case Cancel(l, id) => l < |s.busy| && s.busy[l] == NOBODY && id in s.items && s.items[id].loop == l
        && !s.items[id].phase.Done?
    case PutCancelled(l) => l < |s.busy| && s.busy[l] != NOBODY
    case Drain(l) => l < |s.busy| && l < |s.pending| && s.busy[l] == NOBODY && s.pending[l] && LocalQ(l) in s.q
        && s.q[LocalQ(l)] == []
    case CallDone(l) => l < |s.busy| && s.busy[l] == NOBODY && LocalQ(l) in s.q && s.q[LocalQ(l)] != []
  }

  /** What a step does. */
  ghost predicate Did(s: State, op: Op, t: State) {
    match op
    case Submit(l, id, k) =>
      && t == s.(links := t.links, items := t.items, q := t.q, pcs := Wake(s.pcs, k))
      && id !in s.items && t.items == s.items[id := Entry(l, Fn, Queued, 0, 0, 0, 0, s.posted)]
      && Wq in s.q && t.q == s.q[Wq := s.q[Wq] + [Item(id)]]
    case PostExit(k) =>
      && t == s.(links := t.links, q := t.q, pcs := Wake(s.pcs, k), posted := true)
      && Wq in s.q && t.q == s.q[Wq := s.q[Wq] + [Exit]]
    case Look(w, k) =>
      w < |s.pcs| && Wq in s.q &&
      if s.q[Wq] == [] then t == s.(links := t.links, pcs := s.pcs[w := Waiting])
      else if s.q[Wq][0] == Exit then t == s.(links := t.links, pcs := Wake(s.pcs, k)[w := Exited])
      else
        s.q[Wq][0].Item? &&
        var id := s.q[Wq][0].id;
        && t == s.(links := t.links, items := t.items, q := s.q[Wq := s.q[Wq][1..]], pcs := s.pcs[w := Taken(id)])
        && id in s.items && t.items == s.items[id := s.items[id].(phase := Held(w))]
    case Call(w) =>
      w < |s.pcs| && s.pcs[w].Taken? &&
      var id := s.pcs[w].id;
      && t == s.(links := t.links, items := t.items, pcs := s.pcs[w := Ran(id)])
      && id in s.items && s.items[id].work == Fn && t.items == s.items[id := s.items[id].(ran := s.items[id].ran + 1)]
    case Finish(w) =>
      w < |s.pcs| && s.pcs[w].Ran? && s.pcs[w].id in s.items &&
      var id := s.pcs[w].id; var l := s.items[id].loop;
      && t == s.(links := t.links, items := t.items, pcs := s.pcs[w := Top], q := t.q, pending := t.pending)
      && t.items == s.items[id := s.items[id].(phase := Ready, work := Null)]
      && l < |s.pending| && t.pending == s.pending[l := true]
      && LoopQ(l) in s.q && t.q == s.q[LoopQ(l) := s.q[LoopQ(l)] + [Item(id)]]
    case WakeUp(w) => w < |s.pcs| && t == s.(links := t.links, pcs := s.pcs[w := Top])
    case Cancel(l, id) =>
      l < |s.busy| && id in s.items &&
      if s.items[id].ran == 0 && !s.items[id].phase.Held? then
        && t == s.(links := t.links, items := t.items, q := t.q, busy := s.busy[l := id])
        && t.items == s.items[id := s.items[id].(phase := Cancelling)]
        && exists h, a, b :: h in s.q && s.q[h] == a + [Item(id)] + b && t.q == s.q[h := a + b]
      else t == s
    case PutCancelled(l) =>
      l < |s.busy| && l < |s.pending| && s.busy[l] in s.items && LoopQ(l) in s.q &&
      var id := s.busy[l];
      && t == s.(links := t.links, items := t.items, q := t.q, busy := s.busy[l := NOBODY], pending := t.pending)
      && t.items == s.items[id := s.items[id].(phase := Ready, work := Cancelled, cancels := s.items[id].cancels + 1)]
      && t.pending == s.pending[l := true] && t.q == s.q[LoopQ(l) := s.q[LoopQ(l)] + [Item(id)]]
    case Drain(l) =>
      && LoopQ(l) in s.q && l < |s.pending|
      && t == s.(links := t.links, items := t.items, q := t.q, pending := s.pending[l := false])
      && t.q == s.q[LocalQ(l) := s.q[LoopQ(l)]][LoopQ(l) := []]
      && t.items == map i | i in s.items ::
           if s.items[i].phase == Ready && s.items[i].loop == l then s.items[i].(phase := Draining) else s.items[i]
    case CallDone(l) =>
      LocalQ(l) in s.q && s.q[LocalQ(l)] != [] && s.q[LocalQ(l)][0].Item? &&
      var id := s.q[LocalQ(l)][0].id;
      && t == s.(links := t.links, items := t.items, q := s.q[LocalQ(l) := s.q[LocalQ(l)][1..]])
      && id in s.items
      && t.items == s.items[id := s.items[id].(phase := Done, done := s.items[id].done + 1,
          status := if s.items[id].work == Cancelled then ECANCELED else 0)]
  }

  lemma Sizes(s: State)
    requires Inv(s)
    ensures |s.pending| == |s.busy|
  {
  }

  /** Enabled and Internal, case by case. */
  lemma OpParts(s: State, op: Op)
    requires Inv(s)
    ensures Internal(op) <==> !(op.Submit? || op.PostExit? || op.Cancel? || op.WakeUp?)
    ensures op.Submit? ==> (Enabled(s, op) <==> op.l < |s.busy| && op.id >= 0 && op.id !in s.items)
    ensures op.PostExit? ==> (Enabled(s, op) <==> !s.posted)
    ensures op.Look? ==> (Enabled(s, op) <==> op.w < |s.pcs| && s.pcs[op.w] == Top)
    ensures op.Call? ==> (Enabled(s, op) <==> op.w < |s.pcs| && s.pcs[op.w].Taken?)
    ensures op.Finish? ==> (Enabled(s, op) <==> op.w < |s.pcs| && s.pcs[op.w].Ran?)
    ensures op.WakeUp? ==> (Enabled(s, op) <==> op.w < |s.pcs| && s.pcs[op.w] == Waiting)
    ensures op.Cancel? ==>
        (Enabled(s, op) <==>
          op.l < |s.busy| && s.busy[op.l] == NOBODY && op.id in s.items && s.items[op.id].loop == op.l
          && !s.items[op.id].phase.Done?)
    ensures op.PutCancelled? ==> (Enabled(s, op) <==> op.l < |s.busy| && s.busy[op.l] != NOBODY)
    ensures op.Drain? ==>
        (Enabled(s, op) <==>
          op.l < |s.busy| && op.l < |s.pending| && s.busy[op.l] == NOBODY && s.pending[op.l] && LocalQ(op.l) in s.q
          && s.q[LocalQ(op.l)] == [])
    ensures op.CallDone? ==>
        (Enabled(s, op) <==>
          op.l < |s.busy| && s.busy[op.l] == NOBODY && LocalQ(op.l) in s.q && s.q[LocalQ(op.l)] != [])
  {
    hide Inv;
  }

  lemma LocalEmpty(s: State, l: nat)
    requires Inv(s) && l < |s.busy|
    ensures |s.pending| == |s.busy| && LocalQ(l) in s.q && LocalQ(l) in s.links.next
        && (s.links.next[LocalQ(l)] == LocalQ(l) <==> s.q[LocalQ(l)] == [])
  {
    InvAt(s, LocalQ(l), -1, 0, l);
    EmptyQueue(s.links, LocalQ(l), s.q[LocalQ(l)]);
    hide IsQueue;
  }

  /** As long as not everything is at rest, some step can happen without a new call. */
  lemma Progress(s: State)
    requires Inv(s) && !Quiescent(s)
    ensures exists op :: Internal(op) && Enabled(s, op)
  {
    InvGlobal(s);
    if w :| 0 <= w < |s.pcs| && !Asleep(s.pcs[w]) {
      var op := if s.pcs[w].Taken? then Call(w) else if s.pcs[w].Ran? then Finish(w) else Look(w, 0);
      assert Internal(op) && Enabled(s, op);
    } else if l :| 0 <= l < |s.busy| && s.busy[l] != NOBODY {
      assert Internal(PutCancelled(l)) && Enabled(s, PutCancelled(l));
    } else if l :| 0 <= l < |s.busy| && !(LocalQ(l) in s.q && s.q[LocalQ(l)] == []) {
      InvAt(s, Wq, -1, 0, l);
      assert s.busy[l] == NOBODY;
      assert Internal(CallDone(l)) && Enabled(s, CallDone(l));
    } else {
      var l :| 0 <= l < |s.pending| && s.pending[l];
      InvAt(s, Wq, -1, 0, l);
      assert s.busy[l] == NOBODY;
      assert Internal(Drain(l)) && Enabled(s, Drain(l));
    }
  }

  /** What the history of one item can be at any moment of any run. */
  ghost predicate History(s: State, id: int) {
    id in s.items ==>
        var e := s.items[id];
          e.done <= 1 && e.ran <= 1
          && (e.done == 1 ==>
            (e.status == ECANCELED <==> e.ran == 0) && (e.status == ECANCELED <==> e.cancels > 0)
            && (e.status == 0 <==> e.ran == 1))
  }

  /** The items submitted in a run, each with its loop: an item is submitted once, to a loop that there is. */
  function Submissions(ops: seq<Op>, n: nat): map<int, nat> {
    if ops == [] then map[]
    else
      var m, op := Submissions(ops[..|ops| - 1], n), ops[|ops| - 1];
      if op.Submit? && op.l < n && op.id >= 0 && op.id !in m then m[op.id := op.l] else m
  }

  /** They are all those with a submission in the run. */
  lemma {:induction false} SubmissionsAre(ops: seq<Op>, n: nat, id: int)
    ensures id in Submissions(ops, n) <==>
      id >= 0 && exists i :: 0 <= i < |ops| && ops[i].Submit? && ops[i].id == id && ops[i].l < n
  {
    if ops != [] {
      var init, op := ops[..|ops| - 1], ops[|ops| - 1];
      SubmissionsAre(init, n, id);
      if i :| 0 <= i < |ops| && ops[i].Submit? && ops[i].id == id && ops[i].l < n {
        if i < |init| { assert init[i] == ops[i]; }
      }
      if i :| 0 <= i < |init| && init[i].Submit? && init[i].id == id && init[i].l < n { assert ops[i] == init[i]; }
    }
  }

  ghost function Loops(s: State): map<int, nat> { map id | id in s.items :: s.items[id].loop }

  /** Only a submission makes an item, and none changes its loop. */
  lemma DidLoops(s: State, op: Op, t: State)
    requires Enabled(s, op) && Did(s, op, t)
    ensures |t.busy| == |s.busy|
    ensures Loops(t) == if op.Submit? then Loops(s)[op.id := op.l] else Loops(s)
  {
    hide Wake;
  }

  lemma LoopsStep(s: State, ops: seq<Op>, i: nat, n: nat, t: State)
    requires i < |ops| && |s.busy| == n && Loops(s) == Submissions(ops[..i], n)
    requires if Enabled(s, ops[i]) then Did(s, ops[i], t) else t == s
    ensures |t.busy| == n && Loops(t) == Submissions(ops[..i + 1], n)
  {
    assert ops[..i + 1][..i] == ops[..i];
    assert ops[i].Submit? ==> (Enabled(s, ops[i]) <==>
      ops[i].l < n && ops[i].id >= 0 && ops[i].id !in Submissions(ops[..i], n));
    if Enabled(s, ops[i]) { DidLoops(s, ops[i], t); }
  }

  /** One step of a run. */
  ghost predicate Stepped(s: State, op: Op, t: State) {
    if Enabled(s, op) then Did(s, op, t) else t == s
  }

  /**
   * In every interleaving: each step that can happen does what it is to do, the items are those that were submitted,
   * and done is called at most once for each of them, with the right status; when everything is at rest and nobody
   * asked the workers to leave, it was called exactly once for each.
   */
  method Run(nthreads: nat, nloops: nat, ops: seq<Op>) returns (pool: ThreadPool, ghost trace: seq<State>)
    requires nthreads > 0
    ensures |trace| == |ops| + 1 && trace[|ops|] == pool.Snap()
    ensures trace[0].items == map[] && !trace[0].posted && forall h :: h in trace[0].q ==> trace[0].q[h] == []
    ensures forall i :: 0 <= i < |ops| ==> Stepped(trace[i], ops[i], trace[i + 1])
    ensures forall i, id :: 0 <= i <= |ops| ==> Inv(trace[i]) && History(trace[i], id)
    ensures Loops(pool.Snap()) == Submissions(ops, nloops)
    ensures Quiescent(pool.Snap()) && !pool.posted ==> forall id :: id in Submissions(ops, nloops) ==>
      id in pool.items && pool.items[id].loop == Submissions(ops, nloops)[id] && pool.items[id].done == 1
  {
    hide Inv, Did, Enabled, History, IsQueue;
    pool := new ThreadPool(nthreads, nloops);
    trace := [pool.Snap()];
    for i := 0 to |ops|
      invariant fresh(pool) && fresh(pool.mem) && |pool.busy| == nloops
      invariant |trace| == i + 1 && trace[i] == pool.Snap() && forall j :: 0 <= j <= i ==> Inv(trace[j])
      invariant trace[0].items == map[] && !trace[0].posted && forall h :: h in trace[0].q ==> trace[0].q[h] == []
      invariant forall j :: 0 <= j < i ==> Stepped(trace[j], ops[j], trace[j + 1])
      invariant Loops(pool.Snap()) == Submissions(ops[..i], nloops)
    {
      ghost var s := pool.Snap();
      var _ := pool.Perform(ops[i]);
      LoopsStep(s, ops, i, nloops, pool.Snap());
      trace := trace + [pool.Snap()];
    }
    assert ops[..|ops|] == ops;
    forall i, id | 0 <= i <= |ops| ensures Inv(trace[i]) && History(trace[i], id) { Once(trace[i], id); }
    ghost var s := pool.Snap();
    if Quiescent(s) && !s.posted {
      forall id | id in Submissions(ops, nloops)
        ensures id in s.items && s.items[id].loop == Submissions(ops, nloops)[id] && s.items[id].done == 1
      {
        assert id in Loops(s);
        AllDone(s, id);
      }
    }
  }

  lemma Once(s: State, id: int)
    requires Inv(s)
    ensures History(s, id)
  {
    if id in s.items { DoneOnce(s, id); }
    hide Inv;
  }

  /**
   * Without new calls, the pool comes to rest: no more steps can happen than the measure allows, whatever their order.
   */
  method Settle(pool: ThreadPool, ops: seq<Op>) returns (steps: nat)
    requires Inv(pool.Snap()) && forall i :: 0 <= i < |ops| ==> Internal(ops[i])
    modifies pool, pool.mem
    ensures Inv(pool.Snap()) && steps + Measure(pool.Snap()) <= old(Measure(pool.Snap()))
  {
    steps := 0;
    for i := 0 to |ops|
      invariant Inv(pool.Snap()) && steps + Measure(pool.Snap()) <= old(Measure(pool.Snap()))
    {
      var happened := pool.Perform(ops[i]);
      if happened { steps := steps + 1; }
    }
  }
}
