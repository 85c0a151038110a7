/** The states of the thread pool (threadpool.c), and what holds in all of them. */
module PoolState {
  import opened Queues

  /** The queue nodes: the headers, the exit message, and one node in each work item. */
  datatype Node = Wq | LoopQ(loop: nat) | LocalQ(loop: nat) | Exit | Item(id: int)

  predicate Header(n: Node) { n.Wq? || n.LoopQ? || n.LocalQ? }

  /** The field work of an item. */
  datatype Work = Fn | Null | Cancelled

  /**
   * Where a worker is: before it looks at the queue, in uv_cond_wait, about to call an item's function, after the call,
   * or gone.
   */
  datatype Pc = Top | Waiting | Taken(id: int) | Ran(id: int) | Exited

  /** Where an item is. */
  datatype Phase = Queued | Held(w: nat) | Ready | Draining | Cancelling | Done

  const ECANCELED: int := -125
  const NOBODY: int := -1

  /** An item: its fields, and its history. */
  datatype Entry = Entry(loop: nat, work: Work, phase: Phase, ran: nat, done: nat, status: int, cancels: nat,
      late: bool)

  datatype State = State(
    links: Links<Node>,
    items: map<int, Entry>,
    pcs: seq<Pc>,
    pending: seq<bool>,   // uv_async_send was called for the loop
    busy: seq<int>,       // the item that the loop thread is about to put into its queue in uv__work_cancel
    posted: bool,         // the exit message was posted
    q: map<Node, seq<Node>>)

  /** The queue where a node belongs. */
  ghost predicate Home(s: State, n: Node, h: Node) {
    match n
    case Exit => h == Wq && s.posted
    case Item(id) => id in s.items && (match s.items[id].phase
      case Queued => h == Wq
      case Ready => h == LoopQ(s.items[id].loop)
      case Draining => h == LocalQ(s.items[id].loop)
      case _ => false)
    case _ => false
  }

  /** A queue holds exactly the nodes that belong there. */
  ghost predicate QueueOk(s: State, h: Node) {
    h in s.q ==> Header(h) && IsQueue(s.links, h, s.q[h]) && forall n {:trigger n in s.q[h]} {:trigger Home(s, n, h)} ::
        n in s.q[h] <==> Home(s, n, h)
  }

  /** The work function was called, or a cancellation succeeded, but not both. */
  ghost predicate Settled(e: Entry) {
    if e.cancels > 0 then e.work == Cancelled && e.ran == 0 else e.work == Null && e.ran == 1
  }

  ghost predicate ItemOk(s: State, id: int) {
    id in s.items ==>
      var e := s.items[id];
      && id >= 0 && e.loop < |s.busy| && e.done == (if e.phase == Done then 1 else 0)
      && match e.phase
         case Queued => e.work == Fn && e.ran == 0 && e.cancels == 0
         case Held(w) => e.work == Fn && e.cancels == 0 && w < |s.pcs| && Has(s.links, Item(id))
             && s.links.next[Item(id)] == Item(id) && s.pcs[w] == (if e.ran == 0 then Taken(id) else Ran(id))
             && e.ran <= 1
         case Ready => Settled(e)
         case Draining => Settled(e)
         case Cancelling => s.busy[e.loop] == id && e.ran == 0 && e.work == (if e.cancels > 0 then Cancelled else Fn)
         case Done => Settled(e) && e.status == (if e.cancels > 0 then ECANCELED else 0)
  }

  ghost predicate Formed(s: State) { Wq in s.q && |s.pcs| > 0 && |s.pending| == |s.busy| }

  ghost predicate WorkerOk(s: State, w: nat)
    requires Formed(s)
  {
    w < |s.pcs| ==> match s.pcs[w]
      case Taken(id) => id in s.items && s.items[id].phase == Held(w)
      case Ran(id) => id in s.items && s.items[id].phase == Held(w)
      case Exited => s.posted && s.q[Wq] != [] && s.q[Wq][0] == Exit
      case _ => true
  }

  ghost predicate LoopOk(s: State, l: nat)
    requires Formed(s)
  {
    l < |s.busy| ==>
      && LoopQ(l) in s.q && LocalQ(l) in s.q && (s.q[LoopQ(l)] != [] ==> s.pending[l])
      && (s.busy[l] != NOBODY ==>
          s.busy[l] >= 0 && s.busy[l] in s.items && s.items[s.busy[l]].phase == Cancelling
          && s.items[s.busy[l]].loop == l)
  }

  predicate Asleep(p: Pc) { p == Waiting || p == Exited }

  /** Somebody will look at a queue that is not empty, unless all workers are gone. */
  ghost predicate Awake(s: State)
    requires Formed(s)
  {
    s.q[Wq] != [] ==>
        (exists w :: 0 <= w < |s.pcs| && !Asleep(s.pcs[w])) || forall w :: 0 <= w < |s.pcs| ==> s.pcs[w] == Exited
  }

  /** Behind the exit message are only items that were posted after it. */
  ghost predicate Order(s: State)
    requires Formed(s)
  {
    forall i, j {:trigger s.q[Wq][i], s.q[Wq][j]} :: 0 <= i < j < |s.q[Wq]| && s.q[Wq][i] == Exit && s.q[Wq][j].Item?
        ==> s.q[Wq][j].id in s.items && s.items[s.q[Wq][j].id].late
  }

  ghost predicate Inv(s: State) {
    && Formed(s)
    && (forall h {:trigger QueueOk(s, h)} :: QueueOk(s, h))
    && (forall h {:trigger h in s.q} :: h in s.q && !h.Wq? ==> (h.LoopQ? || h.LocalQ?) && h.loop < |s.busy|)
    && (forall id {:trigger ItemOk(s, id)} :: ItemOk(s, id))
    && (forall w {:trigger WorkerOk(s, w)} :: WorkerOk(s, w))
    && (forall l {:trigger LoopOk(s, l)} :: LoopOk(s, l))
    && Awake(s) && Order(s)
  }

  // ---- What Inv means

  /** No item is in two queues. */
  lemma OneQueue(s: State, h: Node, k: Node, n: Node)
    requires Inv(s) && h in s.q && k in s.q && n in s.q[h] && n in s.q[k]
    ensures h == k
  {
    assert QueueOk(s, h) && QueueOk(s, k);
  }

  /**
   * done is called at most once; the status says whether the function ran; and it is a cancellation exactly when
   * uv_cancel returned 0.
   */
  lemma DoneOnce(s: State, id: int)
    requires Inv(s) && id in s.items
    ensures var e := s.items[id];
        e.done <= 1 && e.ran <= 1
        && (e.done == 1 ==>
          (e.status == ECANCELED <==> e.ran == 0) && (e.status == ECANCELED <==> e.cancels > 0)
          && (e.status == 0 <==> e.ran == 1))
  {
    assert ItemOk(s, id);
  }

  /** A worker that is about to call an item's function finds that function, not uv__cancelled. */
  lemma NeverAborts(s: State, w: nat)
    requires Inv(s) && w < |s.pcs| && s.pcs[w].Taken?
    ensures s.pcs[w].id in s.items && s.items[s.pcs[w].id].work == Fn
  {
    assert WorkerOk(s, w) && ItemOk(s, s.pcs[w].id);
  }

  /** A worker is gone only when everything posted before the exit message has left the queue. */
  lemma OrderlyExit(s: State, w: nat, id: int)
    requires Inv(s) && w < |s.pcs| && s.pcs[w] == Exited && id in s.items && s.items[id].phase == Queued
    ensures s.items[id].late
  {
    assert WorkerOk(s, w) && QueueOk(s, Wq) && Home(s, Item(id), Wq);
    var j :| 0 <= j < |s.q[Wq]| && s.q[Wq][j] == Item(id);
    assert s.q[Wq][0] == Exit;
  }

  /** Nothing can happen without a new call from outside. */
  ghost predicate Quiescent(s: State) {
    && (forall w :: 0 <= w < |s.pcs| ==> Asleep(s.pcs[w]))
    && (forall l :: 0 <= l < |s.busy| ==> s.busy[l] == NOBODY && LocalQ(l) in s.q && s.q[LocalQ(l)] == [])
    && (forall l :: 0 <= l < |s.pending| ==> !s.pending[l])
  }

  /**
   * When nothing can happen any more, done was called for every item; but after an exit message, not for those posted
   * later.
   */
  lemma AllDone(s: State, id: int)
    requires Inv(s) && Quiescent(s) && id in s.items
    ensures s.items[id].done == 1 || (s.posted && s.items[id].late && s.items[id].phase == Queued)
  {
    var e := s.items[id];
    assert ItemOk(s, id) && LoopOk(s, e.loop);
    match e.phase {
      case Queued =>
        assert QueueOk(s, Wq) && Home(s, Item(id), Wq);
        assert s.pcs[0] == Exited;
        assert WorkerOk(s, 0);
        OrderlyExit(s, 0, id);
      case Held(w) =>
      case Ready => assert QueueOk(s, LoopQ(e.loop)) && Home(s, Item(id), LoopQ(e.loop));
      case Draining => assert QueueOk(s, LocalQ(e.loop)) && Home(s, Item(id), LocalQ(e.loop));
      case Cancelling =>
      case Done =>
    }
  }
}
