/** Every step of the thread pool keeps what holds of its states (threadpool.c). */
module PoolSteps {
  import opened Queues
  import opened PoolState

  /** uv_cond_signal: one waiting worker, if there is one, will look at the queue again. */
  function Wake(pcs: seq<Pc>, k: nat): (r: seq<Pc>)
    ensures |r| == |pcs|
    ensures forall w :: 0 <= w < |pcs| ==> r[w] == pcs[w] || (pcs[w] == Waiting && r[w] == Top)
    ensures (exists w :: 0 <= w < |pcs| && !Asleep(r[w])) || forall w :: 0 <= w < |pcs| ==> r[w] == Exited
    ensures (exists w :: 0 <= w < |pcs| && pcs[w] == Waiting) ==>
        exists w :: 0 <= w < |pcs| && pcs[w] == Waiting && r[w] == Top
  {
    if k < |pcs| && pcs[k] == Waiting then assert !Asleep(pcs[k := Top][k]); pcs[k := Top] else WakeFirst(pcs, 0)
  }

  function WakeFirst(pcs: seq<Pc>, i: nat): (r: seq<Pc>)
    requires i <= |pcs| && forall w :: 0 <= w < i ==> pcs[w] != Waiting
    ensures |r| == |pcs|
    ensures forall w :: 0 <= w < |pcs| ==> r[w] == pcs[w] || (pcs[w] == Waiting && r[w] == Top)
    ensures (exists w :: 0 <= w < |pcs| && !Asleep(r[w])) || forall w :: 0 <= w < |pcs| ==> r[w] == Exited
    ensures (exists w :: 0 <= w < |pcs| && pcs[w] == Waiting) ==>
        exists w :: 0 <= w < |pcs| && pcs[w] == Waiting && r[w] == Top
    decreases |pcs| - i
  {
    if i == |pcs| then pcs
    else if pcs[i] == Waiting then assert !Asleep(pcs[i := Top][i]); pcs[i := Top]
    else WakeFirst(pcs, i + 1)
  }

  // ---- Frames

  /**
   * t is s after a step of worker w0 or loop l0 that concerns the item id; other queue nodes changed only within
   * touched.
   */
  ghost predicate Near(s: State, t: State, touched: seq<Node>, id: int, w0: int, l0: int) {
    && Formed(s) && Formed(t) && t.q.Keys == s.q.Keys && |t.pcs| == |s.pcs| && |t.busy| == |s.busy|
      && Only(s.links, t.links, touched)
    && (forall i {:trigger i in t.items} {:trigger i in s.items} ::
        i != id ==> (i in t.items <==> i in s.items) && (i in s.items ==> t.items[i] == s.items[i]))
    && (forall w {:trigger t.pcs[w]} {:trigger s.pcs[w]} ::
        0 <= w < |s.pcs| && w != w0 ==> t.pcs[w] == s.pcs[w] || (s.pcs[w] == Waiting && t.pcs[w] == Top))
    && (forall l {:trigger t.busy[l]} {:trigger LoopQ(l)} ::
        0 <= l < |s.busy| && l != l0 ==>
          t.busy[l] == s.busy[l] && (s.pending[l] ==> t.pending[l])
          && (LoopQ(l) in s.q ==> t.q[LoopQ(l)] == s.q[LoopQ(l)]))
    && (s.posted ==> t.posted) && (s.q[Wq] != [] && s.q[Wq][0] == Exit ==> t.q[Wq] != [] && t.q[Wq][0] == Exit)
  }

  /** The step does not disturb what other workers and loops are doing. */
  ghost predicate Clean(s: State, t: State, touched: seq<Node>, id: int, w0: int, l0: int) {
    && (forall i {:trigger s.items[i]} ::
        i in s.items && i != id && s.items[i].phase.Held? ==> Item(i) !in touched && s.items[i].phase.w != w0)
    && |t.busy| == |s.busy|
    && (forall i {:trigger s.items[i]} ::
        i in s.items && i != id && s.items[i].phase.Cancelling? && s.items[i].loop < |s.busy| ==>
          t.busy[s.items[i].loop] == s.busy[s.items[i].loop])
    && (id in s.items && s.items[id].phase.Held? ==> s.items[id].phase.w == w0)
    && (id in s.items && s.items[id].phase.Cancelling? ==> s.items[id].loop == l0)
  }

  lemma StepInv(s: State, t: State, touched: seq<Node>, id: int, w0: int, l0: int)
    requires Inv(s) && Near(s, t, touched, id, w0, l0) && Clean(s, t, touched, id, w0, l0)
        && (forall h :: QueueOk(t, h))
    requires ItemOk(t, id) && (w0 >= 0 ==> WorkerOk(t, w0)) && (l0 >= 0 ==> LoopOk(t, l0)) && Awake(t) && Order(t)
    ensures Inv(t)
  {
    forall i ensures ItemOk(t, i) { if i != id { InvAt(s, Wq, i, 0, 0); hide Inv, Only; } }
    forall w: nat ensures WorkerOk(t, w) { if w != w0 { InvAt(s, Wq, id, w, 0); hide Inv, Only; } }
    forall l: nat ensures LoopOk(t, l) { if l != l0 { InvAt(s, Wq, id, 0, l); hide Inv, Only; } }
    forall h | h in t.q && !h.Wq? ensures (h.LoopQ? || h.LocalQ?) && h.loop < |t.busy| { InvAt(s, h, id, 0, 0); }
    hide Inv, Near, Clean;
    InvFold(t);
  }

  lemma InvFold(s: State)
    requires Formed(s) && (forall h {:trigger QueueOk(s, h)} :: QueueOk(s, h))
        && (forall h {:trigger h in s.q} :: h in s.q && !h.Wq? ==> (h.LoopQ? || h.LocalQ?) && h.loop < |s.busy|)
    requires (forall id {:trigger ItemOk(s, id)} :: ItemOk(s, id))
        && (forall w {:trigger WorkerOk(s, w)} :: WorkerOk(s, w)) && (forall l {:trigger LoopOk(s, l)} :: LoopOk(s, l))
        && Awake(s) && Order(s)
    ensures Inv(s)
  {
  }

  lemma InvAt(s: State, h: Node, id: int, w: nat, l: nat)
    requires Inv(s)
    ensures Formed(s) && QueueOk(s, h) && ItemOk(s, id) && WorkerOk(s, w) && LoopOk(s, l)
    ensures (h in s.q && !h.Wq? ==> (h.LoopQ? || h.LocalQ?) && h.loop < |s.busy|)
  {
  }

  lemma InvGlobal(s: State)
    requires Inv(s)
    ensures Formed(s) && Awake(s) && Order(s)
  {
  }

  /** Only the queue h0 changed, and only the node n0 may have entered or left it. */
  ghost predicate OneQueueChanged(s: State, t: State, h0: Node, n0: Node, touched: seq<Node>) {
    && h0 in s.q && t.q.Keys == s.q.Keys && Only(s.links, t.links, touched) && (forall h {:trigger t.q[h]} ::
        h in s.q && h != h0 ==> t.q[h] == s.q[h])
    && (forall n :: n in touched ==> n == h0 || n in s.q[h0] || n == n0) && !Header(n0)
    && (forall h, n {:trigger Home(t, n, h)} {:trigger Home(s, n, h)} ::
        h != h0 ==> (Home(t, n, h) <==> Home(s, n, h)) && (n == n0 ==> !Home(s, n, h)))
  }

  lemma QueuesStep(s: State, t: State, h0: Node, n0: Node, touched: seq<Node>)
    requires Inv(s) && OneQueueChanged(s, t, h0, n0, touched) && QueueOk(t, h0)
    ensures forall h :: QueueOk(t, h)
  {
    forall h ensures QueueOk(t, h) {
      if h != h0 {
        InvAt(s, h, 0, 0, 0);
        InvAt(s, h0, 0, 0, 0);
        hide Inv, IsQueue, Only, Home;
        if h in s.q { Elsewhere(s.links, t.links, touched, h, s.q[h]) by { Apart(s, t, h0, n0, h, touched); } }
      }
    }
  }

  lemma Apart(s: State, t: State, h0: Node, n0: Node, h: Node, touched: seq<Node>)
    requires QueueOk(s, h) && QueueOk(s, h0) && h in s.q && h != h0 && OneQueueChanged(s, t, h0, n0, touched)
    ensures h !in touched && forall n :: n in s.q[h] ==> n !in touched
  {
    hide IsQueue, Only;
    forall n | n in s.q[h] ensures n !in touched { assert Home(s, n, h); }
    assert !Home(s, h, h0);
  }

  /** An item that a worker holds, or that is being cancelled, is in no queue. */
  lemma HeldOutside(s: State, h: Node, id: int)
    requires Inv(s) && h in s.q && id in s.items && (s.items[id].phase.Held? || s.items[id].phase.Cancelling?
        || s.items[id].phase.Done?)
    ensures Item(id) !in s.q[h] && Item(id) != h
  {
    InvAt(s, h, id, 0, 0);
    assert !Home(s, Item(id), h);
  }

  // ---- Posting

  /** post, for an item or for the exit message. */
  ghost predicate Posted(s: State, t: State, n: Node, k: nat) {
    && Wq in s.q && t.q == s.q[Wq := s.q[Wq] + [n]] && t.pcs == Wake(s.pcs, k) && t.pending == s.pending
      && t.busy == s.busy
    && IsQueue(t.links, Wq, t.q[Wq]) && Only(s.links, t.links, [Wq] + s.q[Wq] + [n])
  }

  lemma SubmitInv(s: State, t: State, id: int, l: nat, k: nat)
    requires Inv(s) && id !in s.items && id >= 0 && l < |s.busy| && Posted(s, t, Item(id), k)
    requires t.items == s.items[id := Entry(l, Fn, Queued, 0, 0, 0, 0, s.posted)] && t.posted == s.posted
    ensures Inv(t)
  {
    hide *;
    InvGlobal(s);
    InvAt(s, Wq, id, 0, l);
    FormedAt(s);
    var touched := [Wq] + s.q[Wq] + [Item(id)];
    SubmitNear(s, t, id, l, k);
    QueuesStep(s, t, Wq, Item(id), touched);
    PostOrder(s, t, Item(id), k);
    CleanPost(s, t, Item(id), id, touched);
    StepInv(s, t, touched, id, -1, -1);
  }

  lemma SubmitNear(s: State, t: State, id: int, l: nat, k: nat)
    requires Formed(s) && QueueOk(s, Wq) && id !in s.items && id >= 0 && l < |s.busy| && Posted(s, t, Item(id), k)
    requires t.items == s.items[id := Entry(l, Fn, Queued, 0, 0, 0, 0, s.posted)] && t.posted == s.posted
    ensures t.busy == s.busy && Formed(t) && QueueOk(t, Wq)
        && OneQueueChanged(s, t, Wq, Item(id), [Wq] + s.q[Wq] + [Item(id)])
        && Near(s, t, [Wq] + s.q[Wq] + [Item(id)], id, -1, -1) && ItemOk(t, id)
    ensures id in t.items && t.items[id].late == s.posted && forall i ::
        i in s.items ==> i in t.items && t.items[i] == s.items[i]
  {
    hide IsQueue, Only;
    assert forall n :: Home(t, n, Wq) <==> Home(s, n, Wq) || n == Item(id);
  }

  lemma CleanPost(s: State, t: State, n: Node, id: int, touched: seq<Node>)
    requires Inv(s) && Wq in s.q && touched == [Wq] + s.q[Wq] + [n] && id !in s.items && (n == Item(id) || n == Exit)
    requires t.busy == s.busy
    ensures Clean(s, t, touched, id, -1, -1)
  {
    forall i | i in s.items && i != id && s.items[i].phase.Held? ensures Item(i) !in touched { HeldOutside(s, Wq, i); }
  }

  lemma PostOrder(s: State, t: State, n: Node, k: nat)
    requires Inv(s) && Posted(s, t, n, k) && Formed(t) && (n.Item? ==>
        n.id in t.items && n.id !in s.items && t.items[n.id].late == s.posted) && (n.Item? || (n == Exit && !s.posted))
    requires forall i :: i in s.items ==> i in t.items && t.items[i] == s.items[i]
    ensures Order(t) && Awake(t)
  {
    InvGlobal(s);
    InvAt(s, Wq, 0, 0, 0);
    hide Inv, IsQueue, Only;
    var a, b := s.q[Wq], t.q[Wq];
    forall i, j {:trigger b[i], b[j]} | 0 <= i < j < |b| && b[i] == Exit && b[j].Item? ensures b[j].id in t.items
        && t.items[b[j].id].late {
      assert b[i] == a[i] && a[i] in a && Home(s, Exit, Wq);
      if j < |a| { assert b[j] == a[j]; }
    }
  }

  lemma ExitInv(s: State, t: State, k: nat)
    requires Inv(s) && !s.posted && Posted(s, t, Exit, k) && t.items == s.items && t.posted
    ensures Inv(t)
  {
    hide *;
    InvGlobal(s);
    InvAt(s, Wq, -1, 0, 0);
    FormedAt(s);
    var touched := [Wq] + s.q[Wq] + [Exit];
    ExitNear(s, t, k);
    QueuesStep(s, t, Wq, Exit, touched);
    PostOrder(s, t, Exit, k);
    CleanPost(s, t, Exit, -1, touched);
    StepInv(s, t, touched, -1, -1, -1);
  }

  lemma ExitNear(s: State, t: State, k: nat)
    requires Formed(s) && QueueOk(s, Wq) && !s.posted && Posted(s, t, Exit, k) && t.items == s.items && t.posted
        && ItemOk(s, -1)
    ensures t.busy == s.busy && Formed(t) && QueueOk(t, Wq) && OneQueueChanged(s, t, Wq, Exit, [Wq] + s.q[Wq] + [Exit])
        && Near(s, t, [Wq] + s.q[Wq] + [Exit], -1, -1, -1) && ItemOk(t, -1) && -1 !in s.items
  {
    hide IsQueue, Only;
    assert forall n :: Home(t, n, Wq) <==> Home(s, n, Wq) || n == Exit;
  }

  // ---- Workers

  /** A worker that only changes its own place. */
  lemma PcInv(s: State, t: State, w: nat, pc: Pc)
    requires Inv(s) && w < |s.pcs| && t == s.(pcs := s.pcs[w := pc]) && (s.pcs[w] == Top || s.pcs[w] == Waiting)
    requires if pc == Waiting then s.q[Wq] == [] else pc == Top
    ensures Inv(t)
  {
    InvGlobal(s);
    InvAt(s, Wq, -1, w, 0);
    assert Only(s.links, t.links, []);
    forall h ensures QueueOk(t, h) {
      InvAt(s, h, -1, w, 0);
      forall n ensures Home(t, n, h) <==> Home(s, n, h) {} hide IsQueue, Home;
    }
    CleanWorker(s, t, [], -1, w, -1);
    if pc == Top { assert !Asleep(t.pcs[w]); }
    hide Inv, IsQueue, Only, QueueOk;
    assert Order(t);
    StepInv(s, t, [], -1, w, -1);
  }

  lemma CleanWorker(s: State, t: State, touched: seq<Node>, id: int, w: nat, l0: int)
    requires Inv(s) && w < |s.pcs| && (if id in s.items then s.items[id].phase == Held(w)
        || !(s.items[id].phase.Held? || s.items[id].phase.Cancelling?) else s.pcs[w] == Top || s.pcs[w] == Waiting)
    requires id in s.items && s.items[id].phase != Held(w) ==> s.pcs[w] == Top
    requires forall i :: i in s.items && i != id && s.items[i].phase.Held? ==> Item(i) !in touched
    requires t.busy == s.busy
    ensures Clean(s, t, touched, id, w, l0)
  {
    forall i | i in s.items && i != id && s.items[i].phase.Held? ensures s.items[i].phase.w != w {
      InvAt(s, Wq, i, w, 0);
      InvAt(s, Wq, id, w, 0);
    }
  }

  lemma ExitWorkerInv(s: State, t: State, w: nat, k: nat)
    requires Inv(s) && w < |s.pcs| && s.pcs[w] == Top && s.q[Wq] != [] && s.q[Wq][0] == Exit
        && t == s.(pcs := Wake(s.pcs, k)[w := Exited])
    ensures Inv(t)
  {
    InvGlobal(s);
    InvAt(s, Wq, -1, w, 0);
    assert Exit in s.q[Wq] && Home(s, Exit, Wq);
    assert Only(s.links, t.links, []);
    forall h ensures QueueOk(t, h) {
      InvAt(s, h, -1, w, 0);
      forall n ensures Home(t, n, h) <==> Home(s, n, h) {} hide IsQueue, Home;
    }
    CleanWorker(s, t, [], -1, w, -1);
    ExitAwake(s.pcs, Wake(s.pcs, k), w, t.pcs);
    hide Inv, IsQueue, Only, QueueOk;
    assert Order(t);
    StepInv(s, t, [], -1, w, -1);
  }

  lemma ExitAwake(p: seq<Pc>, r: seq<Pc>, w: nat, u: seq<Pc>)
    requires |r| == |p| && w < |p| && p[w] == Top && r[w] == Top && u == r[w := Exited]
    requires forall v :: 0 <= v < |p| ==> r[v] == p[v] || (p[v] == Waiting && r[v] == Top)
    requires (exists v :: 0 <= v < |p| && p[v] == Waiting) ==>
        exists v :: 0 <= v < |p| && p[v] == Waiting && r[v] == Top
    ensures (exists v :: 0 <= v < |p| && !Asleep(u[v])) || forall v :: 0 <= v < |p| ==> u[v] == Exited
  {
    if v :| 0 <= v < |p| && p[v] == Waiting {
      var x :| 0 <= x < |p| && p[x] == Waiting && r[x] == Top;
      assert !Asleep(u[x]);
    } else if v :| 0 <= v < |p| && v != w && p[v] != Exited {
      assert !Asleep(u[v]);
    }
  }

  /** A worker takes the head of the queue; the node is linked to itself from then on. */
  lemma TakeInv(s: State, t: State, w: nat, id: int)
    requires Inv(s) && w < |s.pcs| && s.pcs[w] == Top && s.q[Wq] != [] && s.q[Wq][0] == Item(id) && id in s.items
    requires t.items == s.items[id := s.items[id].(phase := Held(w))] && t.pcs == s.pcs[w := Taken(id)]
        && t.pending == s.pending && t.busy == s.busy && t.posted == s.posted && t.q == s.q[Wq := s.q[Wq][1..]]
    requires IsQueue(t.links, Wq, t.q[Wq]) && Only(s.links, t.links, [Wq] + s.q[Wq]) && Has(t.links, Item(id))
        && t.links.next[Item(id)] == Item(id)
    ensures Inv(t)
  {
    hide *;
    InvGlobal(s);
    InvAt(s, Wq, id, w, 0);
    FormedAt(s);
    QueuedAt(s, id);
    var touched, rest := [Wq] + s.q[Wq], s.q[Wq][1..];
    assert s.q[Wq] == [] + [Item(id)] + rest && [] + rest == rest;
    LeaveQueue(s, t, Wq, [], id, rest, touched);
    forall i | i in s.items && i != id && s.items[i].phase.Held? ensures Item(i) !in touched { HeldOutside(s, Wq, i); }
    CleanWorker(s, t, touched, id, w, -1);
    TakeNear(s, t, w, id);
    OrderTail(s, t);
    StepInv(s, t, touched, id, w, -1);
  }

  lemma FormedAt(s: State)
    requires Formed(s)
    ensures Wq in s.q && |s.pcs| > 0 && |s.pending| == |s.busy|
  {
  }

  /** The item of a node of the global queue waits. */
  lemma QueuedAt(s: State, id: int)
    requires Inv(s) && Wq in s.q && Item(id) in s.q[Wq]
    ensures id in s.items && s.items[id].phase == Queued && s.items[id].work == Fn && s.items[id].ran == 0
        && s.items[id].cancels == 0
  {
    InvAt(s, Wq, id, 0, 0);
    assert Home(s, Item(id), Wq);
  }

  lemma TakeNear(s: State, t: State, w: nat, id: int)
    requires Formed(s) && w < |s.pcs| && s.pcs[w] == Top && s.q[Wq] != [] && s.q[Wq][0] == Item(id) && id in s.items
        && s.items[id].phase == Queued && ItemOk(s, id)
    requires t.items == s.items[id := s.items[id].(phase := Held(w))] && t.pcs == s.pcs[w := Taken(id)]
        && t.pending == s.pending && t.busy == s.busy && t.posted == s.posted && t.q == s.q[Wq := s.q[Wq][1..]]
    requires IsQueue(t.links, Wq, t.q[Wq]) && Only(s.links, t.links, [Wq] + s.q[Wq]) && Has(t.links, Item(id))
        && t.links.next[Item(id)] == Item(id)
    ensures Near(s, t, [Wq] + s.q[Wq], id, w, -1) && Formed(t) && ItemOk(t, id) && WorkerOk(t, w) && Awake(t)
  {
    hide IsQueue, Only;
    assert !Asleep(t.pcs[w]);
  }

  lemma OrderTail(s: State, t: State)
    requires Formed(s) && Formed(t) && Order(s) && s.q[Wq] != [] && t.q[Wq] == s.q[Wq][1..] && forall i ::
        i in s.items ==> i in t.items && t.items[i].late == s.items[i].late
    ensures Order(t)
  {
    var a, b := s.q[Wq], t.q[Wq];
    forall i, j {:trigger b[i], b[j]} | 0 <= i < j < |b| && b[i] == Exit && b[j].Item? ensures b[j].id in t.items
        && t.items[b[j].id].late {
      assert b[i] == a[i + 1] && b[j] == a[j + 1];
    }
  }

  /** An item leaves a queue. */
  lemma LeaveQueue(s: State, t: State, h: Node, a: seq<Node>, id: int, b: seq<Node>, touched: seq<Node>)
    requires Inv(s) && h in s.q && s.q[h] == a + [Item(id)] + b && t.q == s.q[h := a + b] && IsQueue(t.links, h, a + b)
        && Only(s.links, t.links, touched) && id in s.items && t.posted == s.posted
    requires (forall n :: n in touched ==> n == h || n in s.q[h]) && t.items.Keys == s.items.Keys
        && (forall i :: i in s.items && i != id ==> t.items[i] == s.items[i])
    requires t.items[id].phase.Held? || t.items[id].phase.Cancelling? || t.items[id].phase.Done?
    ensures forall k :: QueueOk(t, k)
  {
    InvAt(s, h, id, 0, 0);
    assert Item(id) in s.q[h] && Home(s, Item(id), h);
    forall n ensures n in t.q[h] <==> Home(t, n, h) {
      LeaveMember(s.links, h, a, Item(id), b, n);
      hide IsQueue;
      assert n != Item(id) ==> (Home(t, n, h) <==> Home(s, n, h));
    }
    assert OneQueueChanged(s, t, h, Item(id), touched) by { hide IsQueue, Only; }
    hide Inv, IsQueue, Only, OneQueueChanged, Home;
    QueuesStep(s, t, h, Item(id), touched);
  }

  lemma LeaveMember(l: Links<Node>, h: Node, a: seq<Node>, x: Node, b: seq<Node>, n: Node)
    requires IsQueue(l, h, a + [x] + b)
    ensures n in a + b <==> n in a + [x] + b && n != x
  {
    var r := [h] + (a + [x] + b);
    assert Distinct(r) && r[|a| + 1] == x;
    forall i | 0 <= i < |a| ensures a[i] != x { assert r[i + 1] == a[i]; }
    forall i | 0 <= i < |b| ensures b[i] != x { assert r[|a| + 2 + i] == b[i]; }
  }

  /** w->work(w) */
  lemma CallInv(s: State, t: State, w: nat, id: int)
    requires Inv(s) && w < |s.pcs| && s.pcs[w] == Taken(id) && id in s.items
        && t == s.(items := s.items[id := s.items[id].(ran := s.items[id].ran + 1)], pcs := s.pcs[w := Ran(id)])
    ensures Inv(t)
  {
    InvGlobal(s);
    InvAt(s, Wq, id, w, 0);
    assert Only(s.links, t.links, []);
    forall h ensures QueueOk(t, h) {
      InvAt(s, h, id, w, 0);
      forall n ensures Home(t, n, h) <==> Home(s, n, h) {} hide IsQueue, Home;
    }
    CleanWorker(s, t, [], id, w, -1);
    assert !Asleep(t.pcs[w]);
    hide Inv, IsQueue, Only, QueueOk;
    assert Order(t);
    StepInv(s, t, [], id, w, -1);
  }

  /** An item that is in no queue enters the queue of its loop. */
  lemma EnterQueue(s: State, t: State, l: nat, id: int, touched: seq<Node>)
    requires Inv(s) && LoopQ(l) in s.q && id in s.items && (s.items[id].phase.Held? || s.items[id].phase.Cancelling?)
        && s.items[id].loop == l && t.posted == s.posted
    requires t.q == s.q[LoopQ(l) := s.q[LoopQ(l)] + [Item(id)]] && touched == [LoopQ(l)] + s.q[LoopQ(l)] + [Item(id)]
        && IsQueue(t.links, LoopQ(l), t.q[LoopQ(l)]) && Only(s.links, t.links, touched)
    requires t.items.Keys == s.items.Keys && (forall i :: i in s.items && i != id ==> t.items[i] == s.items[i])
        && t.items[id].phase == Ready && t.items[id].loop == l
    ensures forall k :: QueueOk(t, k)
  {
    InvAt(s, LoopQ(l), id, 0, 0);
    assert forall n :: Home(t, n, LoopQ(l)) <==> Home(s, n, LoopQ(l)) || n == Item(id);
    assert OneQueueChanged(s, t, LoopQ(l), Item(id), touched) by { hide IsQueue, Only; }
    assert QueueOk(t, LoopQ(l)) by { hide IsQueue; }
    hide Inv, IsQueue, Only, OneQueueChanged, Home;
    QueuesStep(s, t, LoopQ(l), Item(id), touched);
  }

  lemma HeldApart(s: State, h: Node, id: int, touched: seq<Node>)
    requires Inv(s) && h in s.q && Header(h) && forall n :: n in touched ==> n == h || n in s.q[h] || n == Item(id)
    ensures forall i ::
        i in s.items && i != id && (s.items[i].phase.Held? || s.items[i].phase.Cancelling?) ==> Item(i) !in touched
  {
    forall i | i in s.items && i != id && (s.items[i].phase.Held? || s.items[i].phase.Cancelling?)
        ensures Item(i) !in touched {
      HeldOutside(s, h, i);
    }
  }

  /** After the call: the field is cleared and the item goes to the queue of its loop. */
  lemma FinishInv(s: State, t: State, w: nat, id: int, l: nat)
    requires Inv(s) && w < |s.pcs| && s.pcs[w] == Ran(id) && id in s.items && s.items[id].loop == l && l < |s.pending|
    requires t.items == s.items[id := s.items[id].(phase := Ready, work := Null)] && t.pcs == s.pcs[w := Top]
        && t.pending == s.pending[l := true] && t.busy == s.busy && t.posted == s.posted
    requires LoopQ(l) in s.q && t.q == s.q[LoopQ(l) := s.q[LoopQ(l)] + [Item(id)]]
    requires IsQueue(t.links, LoopQ(l), t.q[LoopQ(l)])
        && Only(s.links, t.links, [LoopQ(l)] + s.q[LoopQ(l)] + [Item(id)])
    ensures Inv(t)
  {
    hide *;
    InvGlobal(s);
    InvAt(s, Wq, id, w, l);
    FormedAt(s);
    var touched := [LoopQ(l)] + s.q[LoopQ(l)] + [Item(id)];
    HolderAt(s, w, id);
    EnterQueue(s, t, l, id, touched);
    IsHeader(LoopQ(l));
    HeldApart(s, LoopQ(l), id, touched);
    CleanWorker(s, t, touched, id, w, l);
    FinishNear(s, t, w, id, l);
    StepInv(s, t, touched, id, w, l);
  }

  lemma IsHeader(h: Node)
    ensures Header(h) <==> h.Wq? || h.LoopQ? || h.LocalQ?
  {
  }

  lemma HolderAt(s: State, w: nat, id: int)
    requires Formed(s) && WorkerOk(s, w) && ItemOk(s, id) && w < |s.pcs|
        && (s.pcs[w] == Ran(id) || s.pcs[w] == Taken(id))
    ensures id in s.items && s.items[id].phase == Held(w) && s.items[id].ran == (if s.pcs[w].Ran? then 1 else 0)
        && s.items[id].cancels == 0
  {
  }

  lemma FinishNear(s: State, t: State, w: nat, id: int, l: nat)
    requires Formed(s) && w < |s.pcs| && s.pcs[w] == Ran(id) && id in s.items && s.items[id].loop == l
        && l < |s.pending| && ItemOk(s, id) && LoopOk(s, l) && Order(s) && s.items[id].phase == Held(w)
    requires t.items == s.items[id := s.items[id].(phase := Ready, work := Null)] && t.pcs == s.pcs[w := Top]
        && t.pending == s.pending[l := true] && t.busy == s.busy && t.posted == s.posted
    requires LoopQ(l) in s.q && t.q == s.q[LoopQ(l) := s.q[LoopQ(l)] + [Item(id)]]
        && Only(s.links, t.links, [LoopQ(l)] + s.q[LoopQ(l)] + [Item(id)])
    ensures Formed(t) && Near(s, t, [LoopQ(l)] + s.q[LoopQ(l)] + [Item(id)], id, w, l) && LoopOk(t, l) && ItemOk(t, id)
        && WorkerOk(t, w) && Awake(t) && Order(t)
  {
    hide Only;
    assert !Asleep(t.pcs[w]);
  }

  // ---- Cancelling

  /** The queue that an item is in. */
  ghost function Place(e: Entry): Node
    requires e.phase.Queued? || e.phase.Ready? || e.phase.Draining?
  {
    match e.phase case Queued => Wq case Ready => LoopQ(e.loop) case _ => LocalQ(e.loop)
  }

  /**
   * uv__work_cancel, under both locks: the test succeeds exactly for items that were not started, or were cancelled
   * before.
   */
  lemma CancelTest(s: State, id: int)
    requires Inv(s) && id in s.items && !s.items[id].phase.Done? && !s.items[id].phase.Cancelling?
    ensures var e := s.items[id];
        Has(s.links, Item(id))
        && ((s.links.next[Item(id)] != Item(id) && e.work != Null) <==> (e.ran == 0 && !e.phase.Held?))
    ensures var e := s.items[id]; !e.phase.Held? ==> Place(e) in s.q && Item(id) in s.q[Place(e)]
  {
    var e := s.items[id];
    InvAt(s, Wq, id, 0, e.loop);
    if !e.phase.Held? {
      var h := Place(e);
      InvAt(s, h, id, 0, e.loop);
      assert Home(s, Item(id), h);
      NotSelf(s.links, h, s.q[h], Item(id));
    }
  }

  /** The first half of a cancellation takes the item out of its queue. */
  lemma CancelInv(s: State, t: State, l: nat, id: int, a: seq<Node>, b: seq<Node>)
    requires Inv(s) && l < |s.busy| && s.busy[l] == NOBODY && id in s.items && s.items[id].loop == l
        && s.items[id].ran == 0 && (s.items[id].phase.Queued? || s.items[id].phase.Ready?
        || s.items[id].phase.Draining?)
    requires var h := Place(s.items[id]);
        h in s.q && s.q[h] == a + [Item(id)] + b && t.q == s.q[h := a + b] && IsQueue(t.links, h, a + b)
        && Only(s.links, t.links, [h] + s.q[h])
    requires t.items == s.items[id := s.items[id].(phase := Cancelling)] && t.busy == s.busy[l := id] && t.pcs == s.pcs
        && t.pending == s.pending && t.posted == s.posted
    ensures Inv(t)
  {
    hide *;
    InvGlobal(s);
    var h := Place(s.items[id]);
    InvAt(s, h, id, 0, l);
    FormedAt(s);
    PlaceHeader(s.items[id]);
    IsHeader(h);
    var touched := [h] + s.q[h];
    LeaveQueue(s, t, h, a, id, b, touched);
    HeldApart(s, h, id, touched);
    CancelClean(s, t, touched, id, l);
    CancelNear(s, t, l, id, a, b);
    CancelOrder(s, t, l, id, a, b);
    StepInv(s, t, touched, id, -1, l);
  }

  lemma PlaceHeader(e: Entry)
    requires e.phase.Queued? || e.phase.Ready? || e.phase.Draining?
    ensures Place(e) == Wq || Place(e) == LoopQ(e.loop) || Place(e) == LocalQ(e.loop)
  {
  }

  lemma CancelClean(s: State, t: State, touched: seq<Node>, id: int, l: nat)
    requires Inv(s) && l < |s.busy| && s.busy[l] == NOBODY && id in s.items && !s.items[id].phase.Held?
        && !s.items[id].phase.Cancelling? && t.busy == s.busy[l := id]
    requires forall i ::
        i in s.items && i != id && (s.items[i].phase.Held? || s.items[i].phase.Cancelling?) ==> Item(i) !in touched
    ensures Clean(s, t, touched, id, -1, l)
  {
    forall i | i in s.items && i != id && s.items[i].phase.Cancelling? ensures s.items[i].loop != l {
      InvAt(s, Wq, i, 0, l);
    }
  }

  lemma CancelNear(s: State, t: State, l: nat, id: int, a: seq<Node>, b: seq<Node>)
    requires Formed(s) && ItemOk(s, id) && LoopOk(s, l) && Awake(s) && l < |s.busy| && s.busy[l] == NOBODY
        && id in s.items && s.items[id].loop == l && s.items[id].ran == 0
        && (s.items[id].phase.Queued? || s.items[id].phase.Ready? || s.items[id].phase.Draining?)
    requires var h := Place(s.items[id]);
        h in s.q && s.q[h] == a + [Item(id)] + b && t.q == s.q[h := a + b] && Only(s.links, t.links, [h] + s.q[h])
    requires t.items == s.items[id := s.items[id].(phase := Cancelling)] && t.busy == s.busy[l := id] && t.pcs == s.pcs
        && t.pending == s.pending && t.posted == s.posted
    ensures Formed(t) && Near(s, t, [Place(s.items[id])] + s.q[Place(s.items[id])], id, -1, l) && ItemOk(t, id)
        && LoopOk(t, l) && Awake(t)
  {
    hide Only;
    var h := Place(s.items[id]);
    if h == Wq {
      if a == [] { assert s.q[Wq][0] == Item(id); } else { assert s.q[Wq][0] == a[0] == t.q[Wq][0]; }
    }
  }

  lemma CancelOrder(s: State, t: State, l: nat, id: int, a: seq<Node>, b: seq<Node>)
    requires Formed(s) && Formed(t) && Order(s) && id in s.items
        && (s.items[id].phase.Queued? || s.items[id].phase.Ready? || s.items[id].phase.Draining?)
    requires var h := Place(s.items[id]); h in s.q && s.q[h] == a + [Item(id)] + b && t.q == s.q[h := a + b]
    requires t.items == s.items[id := s.items[id].(phase := Cancelling)]
    ensures Order(t)
  {
    var c, d := s.q[Wq], t.q[Wq];
    if c != d {
      forall i, j {:trigger d[i], d[j]} | 0 <= i < j < |d| && d[i] == Exit && d[j].Item? ensures d[j].id in t.items
          && t.items[d[j].id].late {
        assert d[i] == c[if i < |a| then i else i + 1] && d[j] == c[if j < |a| then j else j + 1];
      }
    }
  }

  /** The second half puts it into the queue of its loop, marked as cancelled. */
  lemma CancelledInv(s: State, t: State, l: nat, id: int)
    requires Inv(s) && l < |s.busy| && l < |s.pending| && s.busy[l] == id && id in s.items
        && s.items[id].phase == Cancelling && s.items[id].loop == l
    requires t.items == s.items[id := s.items[id].(phase := Ready, work := Cancelled, cancels := s.items[id].cancels
        + 1)] && t.pcs == s.pcs && t.pending == s.pending[l := true] && t.busy == s.busy[l := NOBODY]
        && t.posted == s.posted
    requires LoopQ(l) in s.q && t.q == s.q[LoopQ(l) := s.q[LoopQ(l)] + [Item(id)]]
    requires IsQueue(t.links, LoopQ(l), t.q[LoopQ(l)])
        && Only(s.links, t.links, [LoopQ(l)] + s.q[LoopQ(l)] + [Item(id)])
    ensures Inv(t)
  {
    hide *;
    InvGlobal(s);
    InvAt(s, Wq, id, 0, l);
    FormedAt(s);
    var touched := [LoopQ(l)] + s.q[LoopQ(l)] + [Item(id)];
    EnterQueue(s, t, l, id, touched);
    IsHeader(LoopQ(l));
    HeldApart(s, LoopQ(l), id, touched);
    CancelledNear(s, t, l, id);
    CancelledClean(s, t, touched, l, id);
    StepInv(s, t, touched, id, -1, l);
  }

  lemma CancelledClean(s: State, t: State, touched: seq<Node>, l: nat, id: int)
    requires Inv(s) && l < |s.busy| && s.busy[l] == id && id in s.items && s.items[id].phase == Cancelling
        && s.items[id].loop == l && t.busy == s.busy[l := NOBODY]
    requires forall i ::
        i in s.items && i != id && (s.items[i].phase.Held? || s.items[i].phase.Cancelling?) ==> Item(i) !in touched
    ensures Clean(s, t, touched, id, -1, l)
  {
    forall i | i in s.items && i != id && s.items[i].phase.Cancelling? ensures s.items[i].loop != l {
      InvAt(s, Wq, i, 0, l);
    }
  }

  lemma CancelledNear(s: State, t: State, l: nat, id: int)
    requires Formed(s) && ItemOk(s, id) && LoopOk(s, l) && Awake(s) && Order(s) && l < |s.busy| && l < |s.pending|
        && s.busy[l] == id && id in s.items && s.items[id].phase == Cancelling && s.items[id].loop == l
    requires t.items == s.items[id := s.items[id].(phase := Ready, work := Cancelled, cancels := s.items[id].cancels
        + 1)] && t.pcs == s.pcs && t.pending == s.pending[l := true] && t.busy == s.busy[l := NOBODY]
        && t.posted == s.posted
    requires LoopQ(l) in s.q && t.q == s.q[LoopQ(l) := s.q[LoopQ(l)] + [Item(id)]]
        && Only(s.links, t.links, [LoopQ(l)] + s.q[LoopQ(l)] + [Item(id)])
    ensures Formed(t) && Near(s, t, [LoopQ(l)] + s.q[LoopQ(l)] + [Item(id)], id, -1, l) && ItemOk(t, id) && LoopOk(t, l)
        && Awake(t) && Order(t)
  {
    hide Only;
  }

  // ---- Draining

  /** done(w, err) for the first item of the local queue. */
  lemma DoneInv(s: State, t: State, l: nat, id: int)
    requires Inv(s) && l < |s.busy| && LocalQ(l) in s.q && s.q[LocalQ(l)] != [] && s.q[LocalQ(l)][0] == Item(id)
        && id in s.items && s.items[id].phase == Draining && s.items[id].loop == l
    requires var e := s.items[id];
        t.items == s.items[id := e.(phase := Done, done := e.done + 1, status := if e.work == Cancelled then ECANCELED
        else 0)]
    requires t.pcs == s.pcs && t.pending == s.pending && t.busy == s.busy && t.posted == s.posted
        && t.q == s.q[LocalQ(l) := s.q[LocalQ(l)][1..]]
    requires IsQueue(t.links, LocalQ(l), t.q[LocalQ(l)]) && Only(s.links, t.links, [LocalQ(l)] + s.q[LocalQ(l)])
    ensures Inv(t)
  {
    hide *;
    InvGlobal(s);
    InvAt(s, LocalQ(l), id, 0, l);
    FormedAt(s);
    var touched, rest := [LocalQ(l)] + s.q[LocalQ(l)], s.q[LocalQ(l)][1..];
    assert s.q[LocalQ(l)] == [] + [Item(id)] + rest && [] + rest == rest;
    LeaveQueue(s, t, LocalQ(l), [], id, rest, touched);
    IsHeader(LocalQ(l));
    HeldApart(s, LocalQ(l), id, touched);
    DoneNear(s, t, l, id);
    DoneClean(s, t, touched, id);
    StepInv(s, t, touched, id, -1, -1);
  }

  lemma DoneClean(s: State, t: State, touched: seq<Node>, id: int)
    requires id in s.items && !s.items[id].phase.Held? && !s.items[id].phase.Cancelling? && t.busy == s.busy
    requires forall i ::
        i in s.items && i != id && (s.items[i].phase.Held? || s.items[i].phase.Cancelling?) ==> Item(i) !in touched
    ensures Clean(s, t, touched, id, -1, -1)
  {
  }

  lemma DoneNear(s: State, t: State, l: nat, id: int)
    requires Formed(s) && ItemOk(s, id) && Awake(s) && Order(s) && l < |s.busy| && LocalQ(l) in s.q && id in s.items
        && s.items[id].phase == Draining && s.items[id].loop == l
    requires var e := s.items[id];
        t.items == s.items[id := e.(phase := Done, done := e.done + 1, status := if e.work == Cancelled then ECANCELED
        else 0)]
    requires t.pcs == s.pcs && t.pending == s.pending && t.busy == s.busy && t.posted == s.posted
        && s.q[LocalQ(l)] != [] && t.q == s.q[LocalQ(l) := s.q[LocalQ(l)][1..]]
        && Only(s.links, t.links, [LocalQ(l)] + s.q[LocalQ(l)])
    ensures Formed(t) && Near(s, t, [LocalQ(l)] + s.q[LocalQ(l)], id, -1, -1) && ItemOk(t, id) && Awake(t) && Order(t)
  {
    hide Only;
  }

  /** uv__work_done takes all that is in the queue of the loop. */
  lemma SplitInv(s: State, t: State, l: nat)
    requires Inv(s) && l < |s.busy| && l < |s.pending| && LoopQ(l) in s.q && LocalQ(l) in s.q && s.q[LocalQ(l)] == []
    requires t.items == (map i | i in s.items :: if s.items[i].phase == Ready && s.items[i].loop == l then
        s.items[i].(phase := Draining) else s.items[i])
    requires t.pcs == s.pcs && t.pending == s.pending[l := false] && t.busy == s.busy && t.posted == s.posted
        && t.q == s.q[LocalQ(l) := s.q[LoopQ(l)]][LoopQ(l) := []]
    requires IsQueue(t.links, LoopQ(l), []) && IsQueue(t.links, LocalQ(l), s.q[LoopQ(l)])
        && Only(s.links, t.links, [LoopQ(l), LocalQ(l)] + s.q[LoopQ(l)])
    ensures Inv(t)
  {
    assert Splits(s, t, l) by { hide IsQueue, Only, Inv; }
    hide *;
    InvGlobal(s);
    FormedAt(s);
    forall h ensures QueueOk(t, h) {
      InvAt(s, h, -1, 0, l);
      InvAt(s, LoopQ(l), -1, 0, l);
      InvAt(s, LocalQ(l), -1, 0, l);
      SplitQueue(s, t, l, h);
    }
    forall i ensures ItemOk(t, i) {
      InvAt(s, LoopQ(l), i, 0, l);
      if i in s.items && s.items[i].phase.Held? { HeldOutside(s, LoopQ(l), i); }
      SplitItem(s, t, l, i);
    }
    forall w: nat ensures WorkerOk(t, w) { InvAt(s, Wq, -1, w, l); SplitWorker(s, t, l, w); }
    forall j: nat ensures LoopOk(t, j) { InvAt(s, Wq, -1, 0, j); SplitLoop(s, t, l, j); }
    forall h | h in t.q && !h.Wq? ensures (h.LoopQ? || h.LocalQ?) && h.loop < |t.busy| { InvAt(s, h, -1, 0, 0); }
    SplitGlobal(s, t, l);
    InvFold(t);
  }

  /** What SplitInv is about. */
  ghost predicate Splits(s: State, t: State, l: nat) {
    && t.items == (map i | i in s.items :: if s.items[i].phase == Ready && s.items[i].loop == l then
      s.items[i].(phase := Draining) else s.items[i])
    && l < |s.pending| && t.pcs == s.pcs && t.pending == s.pending[l := false] && t.busy == s.busy
      && t.posted == s.posted
    && LoopQ(l) in s.q && LocalQ(l) in s.q && s.q[LocalQ(l)] == []
      && t.q == s.q[LocalQ(l) := s.q[LoopQ(l)]][LoopQ(l) := []]
    && IsQueue(t.links, LoopQ(l), []) && IsQueue(t.links, LocalQ(l), s.q[LoopQ(l)])
      && Only(s.links, t.links, [LoopQ(l), LocalQ(l)] + s.q[LoopQ(l)])
  }

  lemma SplitQueue(s: State, t: State, l: nat, h: Node)
    requires Splits(s, t, l) && QueueOk(s, h) && QueueOk(s, LoopQ(l)) && QueueOk(s, LocalQ(l))
    ensures QueueOk(t, h)
  {
    hide IsQueue, Only;
    if h == LoopQ(l) {
      forall n ensures !Home(t, n, h) {}
    } else if h == LocalQ(l) {
      forall n ensures Home(t, n, h) <==> Home(s, n, LoopQ(l)) {
        assert Home(s, n, LocalQ(l)) <==> n in s.q[LocalQ(l)];
      }
    } else if h in s.q {
      forall n ensures Home(t, n, h) <==> Home(s, n, h) {}
      forall n | n in s.q[h] ensures n !in [LoopQ(l), LocalQ(l)] + s.q[LoopQ(l)] {
        assert Home(s, n, h);
        assert !Home(s, n, LoopQ(l));
      }
      assert !Home(s, h, LoopQ(l));
      Elsewhere(s.links, t.links, [LoopQ(l), LocalQ(l)] + s.q[LoopQ(l)], h, s.q[h]);
    }
  }

  lemma SplitItem(s: State, t: State, l: nat, i: int)
    requires Splits(s, t, l) && ItemOk(s, i) && (i in s.items && s.items[i].phase.Held? ==> Item(i) !in s.q[LoopQ(l)])
    ensures ItemOk(t, i)
  {
    hide IsQueue;
  }

  lemma SplitWorker(s: State, t: State, l: nat, w: nat)
    requires Splits(s, t, l) && Formed(s) && WorkerOk(s, w)
    ensures Formed(t) && WorkerOk(t, w)
  {
    hide IsQueue, Only;
  }

  lemma SplitLoop(s: State, t: State, l: nat, j: nat)
    requires Splits(s, t, l) && Formed(s) && LoopOk(s, j)
    ensures Formed(t) && LoopOk(t, j)
  {
    hide IsQueue, Only;
  }

  lemma SplitGlobal(s: State, t: State, l: nat)
    requires Splits(s, t, l) && Formed(s) && Awake(s) && Order(s)
    ensures Formed(t) && Awake(t) && Order(t)
  {
    hide IsQueue, Only;
  }
}
