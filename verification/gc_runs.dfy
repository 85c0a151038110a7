/** Whole runs: any sequence of steps of the program and of the collector, from the state that lua_newstate makes. */
module GcRuns {
  import opened GcState
  import opened GcPhases
  import opened GcCollector
  import opened GcMutator
  import opened GcProgram
  import opened GcFields

  /** A step.  The numbers are registers, except for positions in an object; r is the address of a new object. */
  datatype Op =
    | SetPrim(dst: nat, n: int)
    | SetNil(dst: nat)
    | LoadRootOp(dst: nat, name: RootName)
    | FollowOp(dst: nat, src: nat, r: Ref)
    | SetFieldOp(o: nat, f: Field, v: nat)
    | SetArrayOp(t: nat, i: nat, v: nat)
    | SetNodeOp(t: nat, i: nat, k: nat, v: nat)
    | RearrangeOp(t: nat, arr: seq<Value>, node: seq<Node>)
    | SetMetaOp(t: nat, v: nat, mode: Mode)
    | SetModeOp(t: nat, mode: Mode)
    | SetCacheOp(p: nat, v: nat)
    | SetSlotOp(th: nat, i: nat, v: nat)
    | SetTopOp(top: nat)
    | SetRegistryOp(v: nat)
    | SetBasicMetaOp(i: nat, v: nat)
    | ResumeOp(v: nat)
    | NewOp(dst: nat, r: Ref, x: Obj)
    | InternOp(dst: nat, o: Ref)
    | FindUpvalOp(dst: nat, i: nat, r: Ref)
    | CloseOp(level: nat)
    | PopFinalizerOp(dst: nat)
    | CollectOp(count: nat, separated: seq<Ref>)

  /** Everything reachable from the roots, through any pointers, is allocated and not dead. */
  ghost predicate Safe(s: Snapshot) {
    forall r {:trigger Reachable(s.obj, s.rs, r)} ::
        Reachable(s.obj, s.rs, r) ==> r in s.obj && Alive(s.mark, s.cw, s.fixed, r)
  }

  /** Nothing that was reachable was freed. */
  ghost predicate NothingLost(s: Snapshot, s2: Snapshot) {
    forall r {:trigger Reachable(s.obj, s.rs, r)} :: Reachable(s.obj, s.rs, r) ==> r in s2.obj
  }

  /** The one step that may drop references: the atomic step, which clears weak tables. */
  predicate AtomicMoment(s: Snapshot, op: Op) {
    op.CollectOp? && s.phase.Propagate? && s.gray == [] && forall i | 0 <= i < |op.separated| ::
        op.separated[i] in s.obj
  }

  /**
   * What the atomic step keeps whatever the program did: what the roots reach through references that always count is
   * there and not dead, no object changes but for cleared references (and open upvalues of freed threads, which are
   * closed), and a table loses an entry only for a key or a value that is not so reached.
   */
  ghost predicate KeptFirmly(s: Snapshot, s2: Snapshot) {
    && (forall r {:trigger FirmAlive(s.obj, s.lists.allweak, StrongOf(s.rs, s.mark), r)} ::
      FirmAlive(s.obj, s.lists.allweak, StrongOf(s.rs, s.mark), r) ==>
          r in s2.obj && Alive(s2.mark, s2.cw, s2.fixed, r))
    && (forall o {:trigger s2.obj[o]} :: o in s.obj && o in s2.obj ==>
          (ObjShrinks(s.obj[o], s2.obj[o]) || (s.obj[o].OpenUp? && s2.obj[o].ClosedUp?))
          && EntriesFirm(s.obj, s.lists.allweak, StrongOf(s.rs, s.mark), s.obj[o], s2.obj[o]))
  }

  /** The same with all references that keep objects alive, those of the tables on the allweak list included. */
  ghost predicate KeptFully(s: Snapshot, s2: Snapshot) {
    && (forall r {:trigger KeptAlive(s.obj, StrongOf(s.rs, s.mark), r)} ::
      KeptAlive(s.obj, StrongOf(s.rs, s.mark), r) ==>
          r in s2.obj && Alive(s2.mark, s2.cw, s2.fixed, r))
    && (forall o {:trigger s2.obj[o]} ::
        o in s.obj && o in s2.obj ==> EntriesKept(s.obj, StrongOf(s.rs, s.mark), s.obj[o], s2.obj[o]))
  }

  ghost predicate AtomicKept(s: Snapshot, s2: Snapshot) {
    KeptFirmly(s, s2) && (AllweakValues(s.obj, s.mark, s.lists.allweak) && UpsBelowTop(s.obj) ==> KeptFully(s, s2))
  }

  /** A step frees nothing that was reachable, unless it is the atomic one, which keeps what is kept alive. */
  ghost predicate StepKept(s: Snapshot, s2: Snapshot, op: Op) {
    if AtomicMoment(s, op) then AtomicKept(s, s2) else NothingLost(s, s2)
  }

  // ---- What each step of the program does

  function RegsOf(s: Snapshot): seq<Value> {
    if s.rs.running in s.obj && s.obj[s.rs.running].Thread? then s.obj[s.rs.running].stack else []
  }

  /** The heap after register dst got the value v; nothing changes if there is no such register. */
  function WithReg(s: Snapshot, dst: nat, v: Value): Heap {
    if dst < |RegsOf(s)| then s.obj[s.rs.running := Thread(RegsOf(s)[dst := v], s.obj[s.rs.running].top)] else s.obj
  }

  /** The object that register i refers to, if it refers to one. */
  predicate ObjReg(s: Snapshot, i: nat) {
    i < |RegsOf(s)| && RegsOf(s)[i].Coll? && RegsOf(s)[i].ref in s.obj
  }

  function RootNamed(rs: Roots, name: RootName): Value {
    match name
    case Registry => rs.registry
    case BasicMeta(i) => if i < |rs.mt| then rs.mt[i] else Nil
    case ThisThread => Coll(rs.running)
  }

  /** The heap after a step of the program that writes to one object at most. */
  ghost predicate Wrote(s: Snapshot, op: Op, h2: Heap) {
    var R := RegsOf(s);
    match op
    case SetPrim(dst, n) => h2 == WithReg(s, dst, Prim(n))
    case SetNil(dst) => h2 == WithReg(s, dst, Nil)
    case LoadRootOp(dst, name) =>
      h2 == WithReg(s, dst, RootNamed(s.rs, name))
    case FollowOp(dst, src, r) =>
      h2 == if ObjReg(s, src) && Holds(s.obj, R[src].ref, r) then WithReg(s, dst, Coll(r)) else s.obj
    case SetFieldOp(o, f, v) =>
      if ObjReg(s, o) && v < |R| && HasField(s.obj[R[o].ref], f) then
        h2 == s.obj[R[o].ref := WithField(s.obj[R[o].ref], f, R[v])] && (R[v].Coll? ==> Holds(h2, R[o].ref, R[v].ref))
      else h2 == s.obj
    case SetArrayOp(t, i, v) =>
      if ObjReg(s, t) && v < |R| && s.obj[R[t].ref].Table? && i < |s.obj[R[t].ref].arr| then
        var x := s.obj[R[t].ref];
        h2 == s.obj[R[t].ref := x.(arr := x.arr[i := R[v]])] && (R[v].Coll? ==> Holds(h2, R[t].ref, R[v].ref))
      else h2 == s.obj
    case SetNodeOp(t, i, k, v) =>
      if ObjReg(s, t) && k < |R| && v < |R| && NodeFits(s.obj[R[t].ref], i, R[k]) then
        var x := s.obj[R[t].ref];
        && h2 == s.obj[R[t].ref := x.(node := x.node[i := Node(Live(R[k]), R[v])])]
        && (R[k].Coll? && R[v] != Nil ==> Holds(h2, R[t].ref, R[k].ref))
        && (R[v].Coll? ==> Holds(h2, R[t].ref, R[v].ref))
      else h2 == s.obj
    case RearrangeOp(t, arr, node) =>
      h2 == if ObjReg(s, t) && s.obj[R[t].ref].Table? && Rearranged(s.obj, R[t].ref, arr, node) then
        s.obj[R[t].ref := s.obj[R[t].ref].(arr := arr, node := node)]
      else s.obj
    case SetMetaOp(t, v, mode) =>
      if ObjReg(s, t) && v < |R| && s.obj[R[t].ref].Table? && MayGet(s, R[t].ref, R[v]) then
        && h2 == s.obj[R[t].ref := s.obj[R[t].ref].(meta := R[v], mode := mode)]
        && (R[v].Coll? ==> Holds(h2, R[t].ref, R[v].ref))
      else h2 == s.obj
    case SetModeOp(t, mode) =>
      h2 == if ObjReg(s, t) && s.obj[R[t].ref].Table? then s.obj[R[t].ref := s.obj[R[t].ref].(mode := mode)] else s.obj
    case SetCacheOp(p, v) =>
      if ObjReg(s, p) && v < |R| && s.obj[R[p].ref].Proto? then
        && h2 == s.obj[R[p].ref := Proto(R[v], s.obj[R[p].ref].consts)]
        && (R[v].Coll? ==> Holds(h2, R[p].ref, R[v].ref))
      else h2 == s.obj
    case SetSlotOp(th, i, v) =>
      if th < |R| && v < |R| && R[th].Coll? && StackSlot(s.obj, R[th].ref, i).0 then
        var o, j := StackSlot(s.obj, R[th].ref, i).1, StackSlot(s.obj, R[th].ref, i).2;
        && o in s.obj && s.obj[o].Thread? && j < |s.obj[o].stack|
        && h2 == s.obj[o := Thread(s.obj[o].stack[j := R[v]], s.obj[o].top)]
        && (R[v].Coll? ==> R[th].ref in h2 && Holds(h2, R[th].ref, R[v].ref))
      else h2 == s.obj
    case SetTopOp(top) =>
      h2 == if s.rs.running in s.obj && top <= |R| then s.obj[s.rs.running := Thread(R, top)] else s.obj
    case _ => h2 == s.obj
  }

  /** lua_setmetatable takes place: not on a table of the allweak list while the metatable is not marked. */
  predicate MayGet(s: Snapshot, o: Ref, v: Value) {
    s.phase.Propagate? && o in s.lists.allweak ==> !(v.Coll? && v.ref in s.mark && s.mark[v.ref].White?)
  }

  /** The roots after a step of the program. */
  ghost function RootsAfter(s: Snapshot, op: Op): Roots {
    var R := RegsOf(s);
    match op
    case SetRegistryOp(v) => if v < |R| then s.rs.(registry := R[v]) else s.rs
    case SetBasicMetaOp(i, v) => if v < |R| && i < |s.rs.mt| then s.rs.(mt := s.rs.mt[i := R[v]]) else s.rs
    case ResumeOp(v) => if ObjReg(s, v) && s.obj[R[v].ref].Thread? then s.rs.(running := R[v].ref) else s.rs
    case PopFinalizerOp(dst) => if dst < |R| && s.rs.fnz != [] then s.rs.(fnz := s.rs.fnz[1..]) else s.rs
    case _ => s.rs
  }

  /** The heap after a step that makes an object, or hands one out. */
  ghost predicate Made(s: Snapshot, op: Op, s2: Snapshot) {
    var R := RegsOf(s);
    match op
    case NewOp(dst, r, x) =>
      if dst < |R| && r !in s.obj && r !in s.fixed && Blank(x) then
        && s2.obj == s.obj[r := x][s.rs.running := Thread(R[dst := Coll(r)], s.obj[s.rs.running].top)]
        && s2.mark == s.mark[r := White(s.cw)]
      else s2.obj == s.obj && s2.mark == s.mark
    case InternOp(dst, o) =>
      if dst < |R| && o in s.strt then
        && s2.obj == WithReg(s, dst, Coll(o))
        && s2.mark == if IsDead(s.mark, s.cw, s.fixed, o) then s.mark[o := White(s.cw)] else s.mark
      else s2.obj == s.obj && s2.mark == s.mark
    case FindUpvalOp(dst, i, r) =>
      if dst >= |R| || i >= |R| then s2.obj == s.obj
      else if HasUpval(s.obj, s.rs.running, i) then
        exists u :: u in s.obj && s.obj[u] == OpenUp(s.rs.running, i) && s2.obj == WithReg(s, dst, Coll(u))
      else if r !in s.obj && r !in s.fixed then
        s2.obj == s.obj[r := OpenUp(s.rs.running, i)][s.rs.running := Thread(R[dst := Coll(r)],
            s.obj[s.rs.running].top)]
      else s2.obj == s.obj
    case PopFinalizerOp(dst) =>
      s2.obj == if dst < |R| && s.rs.fnz != [] then WithReg(s, dst, Coll(s.rs.fnz[0])) else s.obj
    case _ => true
  }

  /** The state after luaF_close: the upvalues at the level and above are freed if dead, and closed otherwise. */
  ghost predicate Closes(s: Snapshot, level: nat, s2: Snapshot) {
    && (forall u :: u in s2.obj ==> u in s.obj && s2.obj[u] == ClosedAt(s.obj, s.rs.running, level, u))
    && (forall u :: u in s.obj && u !in s2.obj ==>
          AtLevel(s.obj, s.rs.running, level, u) && IsDead(s.mark, s.cw, s.fixed, u))
  }

  /** A step of the collector: the phases follow each other, each gets on, and objects change by clearing only. */
  ghost predicate Collects(s: Snapshot, count: nat, separated: seq<Ref>, s2: Snapshot) {
    && Remains(s.obj, s2.obj) && s2.rs == s.rs.(fnz := s2.rs.fnz)
    && s2.cw == (if s.phase.Propagate? && s.gray == [] then !s.cw else s.cw)
    && s2.rs.fnz == s.rs.fnz + (if s.phase.Propagate? && s.gray == [] then separated else [])
    && match s.phase
       case Pause => s2.phase == Propagate && s2.obj == s.obj
       case Propagate =>
         if s.gray == [] then s2.phase == SweepString
         else
           && s2.phase == Propagate && Trims(s.obj, s2.obj)
           && (Whites(s2.mark) < Whites(s.mark) || (Whites(s2.mark) == Whites(s.mark) && |s2.gray| < |s.gray|))
       case Atomic => true
       case SweepString => (s2.phase == SweepString && (count > 0 ==> s2.sweepstr < s.sweepstr)) || s2.phase == Sweep
       case Sweep => (s2.phase == Sweep && (count > 0 ==> s2.sweepgc < s.sweepgc)) || s2.phase == Pause
  }

  /** What a step does to the state. */
  ghost predicate Does(s: Snapshot, op: Op, s2: Snapshot) {
    match op
    case CollectOp(count, separated) =>
      if forall i :: 0 <= i < |separated| ==> separated[i] in s.obj then Collects(s, count, separated, s2) else s2 == s
    case CloseOp(level) => s2.phase == s.phase && s2.cw == s.cw && s2.rs == s.rs && Closes(s, level, s2)
    case _ =>
      && s2.phase == s.phase && s2.cw == s.cw && s2.rs == RootsAfter(s, op)
      && (if op.NewOp? || op.InternOp? || op.FindUpvalOp? || op.PopFinalizerOp? then Made(s, op, s2)
          else Wrote(s, op, s2.obj))
  }

  lemma SnapRegs(g: Collector)
    ensures Regs(g) == RegsOf(Snap(g))
  {
  }

  predicate TableAt(s: Snapshot, t: nat) { ObjReg(s, t) && s.obj[RegsOf(s)[t].ref].Table? }

  lemma SnapTable(g: Collector, t: nat)
    ensures TableReg(g, t) <==> TableAt(Snap(g), t)
  {
  }

  lemma SnapMeta(g: Collector, t: nat, v: nat)
    ensures TableReg(g, t) && v < |Regs(g)| ==>
      (MetaAllowed(g, Regs(g)[t].ref, Regs(g)[v]) <==> MayGet(Snap(g), Regs(g)[t].ref, Regs(g)[v]))
  {
  }

  lemma SnapRoot(g: Collector, name: RootName)
    ensures RootValue(g, name) == RootNamed(g.Rs(), name)
  {
  }

  lemma WroteDoes(s: Snapshot, op: Op, s2: Snapshot)
    requires Wrote(s, op, s2.obj) && s2.phase == s.phase && s2.cw == s.cw && s2.rs == s.rs
    requires !op.CollectOp? && !op.CloseOp? && !op.NewOp? && !op.InternOp? && !op.FindUpvalOp? && !op.PopFinalizerOp?
    requires !op.SetRegistryOp? && !op.SetBasicMetaOp? && !op.ResumeOp?
    ensures Does(s, op, s2)
  {
    hide Wrote;
  }

  lemma RegisterWrote(s: Snapshot, op: Op, dst: nat, v: Value, h2: Heap)
    requires var R := RegsOf(s);
      h2 == if dst < |R| then s.obj[s.rs.running := Thread(R[dst := v], s.obj[s.rs.running].top)] else s.obj
    requires s.rs.running in s.obj
    requires (op.SetPrim? && op == SetPrim(dst, op.n) && v == Prim(op.n)) || (op == SetNil(dst) && v == Nil)
      || (op.LoadRootOp? && op == LoadRootOp(dst, op.name) && v == RootNamed(s.rs, op.name))
    ensures Wrote(s, op, h2)
  {
    hide Holds, HasField, WithField, Rearranged, StackSlot;
  }

  lemma FollowWrote(s: Snapshot, dst: nat, src: nat, r: Ref, h2: Heap)
    requires var R := RegsOf(s);
      if dst < |R| && src < |R| && R[src].Coll? && R[src].ref in s.obj && Holds(s.obj, R[src].ref, r)
      then h2 == s.obj[s.rs.running := Thread(R[dst := Coll(r)], s.obj[s.rs.running].top)]
      else h2 == s.obj
    requires s.rs.running in s.obj
    ensures Wrote(s, FollowOp(dst, src, r), h2)
  {
    hide Holds, HasField, WithField, Rearranged, StackSlot;
  }

  lemma TopWrote(s: Snapshot, top: nat, h2: Heap)
    requires var R := RegsOf(s);
      h2 == if top <= |R| then s.obj[s.rs.running := Thread(R, top)] else s.obj
    requires s.rs.running in s.obj
    ensures Wrote(s, SetTopOp(top), h2)
  {
    hide Holds, HasField, WithField, Rearranged, StackSlot;
  }

  lemma FieldWrote(s: Snapshot, o: nat, f: Field, v: nat, h2: Heap)
    requires var R := RegsOf(s);
      if o < |R| && v < |R| && R[o].Coll? && R[o].ref in s.obj && HasField(s.obj[R[o].ref], f)
      then
        && h2 == s.obj[R[o].ref := WithField(s.obj[R[o].ref], f, R[v])]
        && (R[v].Coll? ==> Holds(h2, R[o].ref, R[v].ref))
      else h2 == s.obj
    ensures Wrote(s, SetFieldOp(o, f, v), h2)
  {
    hide Holds, HasField, WithField, Rearranged, StackSlot;
  }

  lemma CacheWrote(s: Snapshot, p: nat, v: nat, h2: Heap)
    requires var R := RegsOf(s);
      if p < |R| && v < |R| && R[p].Coll? && R[p].ref in s.obj && s.obj[R[p].ref].Proto?
      then
        && h2 == s.obj[R[p].ref := Proto(R[v], s.obj[R[p].ref].consts)]
        && (R[v].Coll? ==> Holds(h2, R[p].ref, R[v].ref))
      else h2 == s.obj
    ensures Wrote(s, SetCacheOp(p, v), h2)
  {
    hide Holds, HasField, WithField, Rearranged, StackSlot;
  }

  lemma SlotWrote(s: Snapshot, t: nat, i: nat, v: nat, h2: Heap)
    requires var R := RegsOf(s);
      if t < |R| && v < |R| && R[t].Coll? && StackSlot(s.obj, R[t].ref, i).0
      then
        var p := StackSlot(s.obj, R[t].ref, i);
        && p.1 in s.obj && s.obj[p.1].Thread? && p.2 < |s.obj[p.1].stack|
        && h2 == s.obj[p.1 := Thread(s.obj[p.1].stack[p.2 := R[v]], s.obj[p.1].top)]
        && (R[v].Coll? ==> R[t].ref in h2 && Holds(h2, R[t].ref, R[v].ref))
      else h2 == s.obj
    ensures Wrote(s, SetSlotOp(t, i, v), h2)
  {
    hide Holds, HasField, WithField, Rearranged, StackSlot;
  }

  lemma ArrayWrote(s: Snapshot, t: nat, i: nat, v: nat, h2: Heap)
    requires var R := RegsOf(s);
      if TableAt(s, t) && v < |R| && i < |s.obj[R[t].ref].arr|
      then
        var x := s.obj[R[t].ref];
        h2 == s.obj[R[t].ref := x.(arr := x.arr[i := R[v]])] && (R[v].Coll? ==> Holds(h2, R[t].ref, R[v].ref))
      else h2 == s.obj
    ensures Wrote(s, SetArrayOp(t, i, v), h2)
  {
    hide Holds, HasField, WithField, Rearranged, StackSlot;
  }

  lemma NodeWrote(s: Snapshot, t: nat, i: nat, k: nat, v: nat, h2: Heap)
    requires var R := RegsOf(s);
      if TableAt(s, t) && k < |R| && v < |R| && NodeFits(s.obj[R[t].ref], i, R[k])
      then
        var x := s.obj[R[t].ref];
        && h2 == s.obj[R[t].ref := x.(node := x.node[i := Node(Live(R[k]), R[v])])]
        && (R[k].Coll? && R[v] != Nil ==> Holds(h2, R[t].ref, R[k].ref))
        && (R[v].Coll? ==> Holds(h2, R[t].ref, R[v].ref))
      else h2 == s.obj
    ensures Wrote(s, SetNodeOp(t, i, k, v), h2)
  {
    hide Holds, HasField, WithField, Rearranged, StackSlot;
  }

  lemma RearrangeWrote(s: Snapshot, t: nat, arr: seq<Value>, node: seq<Node>, h2: Heap)
    requires var R := RegsOf(s);
      h2 == if TableAt(s, t) && Rearranged(s.obj, R[t].ref, arr, node)
            then s.obj[R[t].ref := s.obj[R[t].ref].(arr := arr, node := node)]
            else s.obj
    ensures Wrote(s, RearrangeOp(t, arr, node), h2)
  {
    hide Holds, HasField, WithField, Rearranged, StackSlot;
  }

  lemma MetaWrote(s: Snapshot, t: nat, v: nat, mode: Mode, h2: Heap)
    requires var R := RegsOf(s);
      if TableAt(s, t) && v < |R| && MayGet(s, R[t].ref, R[v])
      then
        && h2 == s.obj[R[t].ref := s.obj[R[t].ref].(meta := R[v], mode := mode)]
        && (R[v].Coll? ==> Holds(h2, R[t].ref, R[v].ref))
      else h2 == s.obj
    ensures Wrote(s, SetMetaOp(t, v, mode), h2)
  {
    hide Holds, HasField, WithField, Rearranged, StackSlot;
  }

  lemma ModeWrote(s: Snapshot, t: nat, mode: Mode, h2: Heap)
    requires var R := RegsOf(s);
      h2 == if TableAt(s, t) then s.obj[R[t].ref := s.obj[R[t].ref].(mode := mode)] else s.obj
    ensures Wrote(s, SetModeOp(t, mode), h2)
  {
    hide Holds, HasField, WithField, Rearranged, StackSlot;
  }

  method ExecConst(g: Collector, op: Op)
    requires g.Inv() && (op.SetPrim? || op.SetNil?)
    modifies g
    ensures g.Inv() && old(g.obj).Keys <= g.obj.Keys
    ensures Does(old(Snap(g)), op, Snap(g))
  {
    hide *;
    ghost var s := Snap(g);
    SnapInv(g);
    RunningThread(g);
    SnapRegs(g);
    match op {
      case SetPrim(dst, n) =>
        SetConst(g, dst, Prim(n));
        RegisterWrote(s, op, dst, Prim(n), g.obj);
      case SetNil(dst) =>
        SetConst(g, dst, Nil);
        RegisterWrote(s, op, dst, Nil, g.obj);
    }
    SnapInv(g);
    WroteDoes(s, op, Snap(g));
  }

  method ExecRegister(g: Collector, op: Op)
    requires g.Inv() && (op.LoadRootOp? || op.FollowOp? || op.SetTopOp?)
    modifies g
    ensures g.Inv() && old(g.obj).Keys <= g.obj.Keys
    ensures Does(old(Snap(g)), op, Snap(g))
  {
    hide *;
    ghost var s := Snap(g);
    SnapInv(g);
    RunningThread(g);
    SnapRegs(g);
    match op {
      case LoadRootOp(dst, name) =>
        SnapRoot(g, name);
        LoadRoot(g, dst, name);
        RegisterWrote(s, op, dst, RootNamed(s.rs, name), g.obj);
      case FollowOp(dst, src, r) =>
        Follow(g, dst, src, r);
        FollowWrote(s, dst, src, r, g.obj);
      case SetTopOp(top) =>
        SetTop(g, top);
        TopWrote(s, top, g.obj);
    }
    SnapInv(g);
    WroteDoes(s, op, Snap(g));
  }

  method ExecField(g: Collector, op: Op)
    requires g.Inv() && (op.SetFieldOp? || op.SetCacheOp? || op.SetSlotOp?)
    modifies g
    ensures g.Inv() && old(g.obj).Keys <= g.obj.Keys
    ensures Does(old(Snap(g)), op, Snap(g))
  {
    hide *;
    ghost var s := Snap(g);
    SnapInv(g);
    RunningThread(g);
    SnapRegs(g);
    match op {
      case SetFieldOp(o, f, v) =>
        SetField(g, o, f, v);
        FieldWrote(s, o, f, v, g.obj);
      case SetCacheOp(p, v) =>
        SetCache(g, p, v);
        CacheWrote(s, p, v, g.obj);
      case SetSlotOp(t, i, v) =>
        SetSlot(g, t, i, v);
        SlotWrote(s, t, i, v, g.obj);
    }
    SnapInv(g);
    WroteDoes(s, op, Snap(g));
  }

  method ExecEntry(g: Collector, op: Op)
    requires g.Inv() && (op.SetArrayOp? || op.SetNodeOp? || op.RearrangeOp?)
    modifies g
    ensures g.Inv() && old(g.obj).Keys <= g.obj.Keys
    ensures Does(old(Snap(g)), op, Snap(g))
  {
    hide *;
    ghost var s := Snap(g);
    SnapInv(g);
    RunningThread(g);
    SnapRegs(g);
    match op {
      case SetArrayOp(t, i, v) =>
        SnapTable(g, t);
        SetArray(g, t, i, v);
        ArrayWrote(s, t, i, v, g.obj);
      case SetNodeOp(t, i, k, v) =>
        SnapTable(g, t);
        SetNode(g, t, i, k, v);
        NodeWrote(s, t, i, k, v, g.obj);
      case RearrangeOp(t, arr, node) =>
        SnapTable(g, t);
        Rearrange(g, t, arr, node);
        RearrangeWrote(s, t, arr, node, g.obj);
    }
    SnapInv(g);
    WroteDoes(s, op, Snap(g));
  }

  method ExecMeta(g: Collector, op: Op)
    requires g.Inv() && (op.SetMetaOp? || op.SetModeOp?)
    modifies g
    ensures g.Inv() && old(g.obj).Keys <= g.obj.Keys
    ensures Does(old(Snap(g)), op, Snap(g))
  {
    hide *;
    ghost var s := Snap(g);
    SnapInv(g);
    RunningThread(g);
    SnapRegs(g);
    match op {
      case SetMetaOp(t, v, mode) =>
        SnapTable(g, t);
        SnapMeta(g, t, v);
        SetMeta(g, t, v, mode);
        MetaWrote(s, t, v, mode, g.obj);
      case SetModeOp(t, mode) =>
        SnapTable(g, t);
        SetMode(g, t, mode);
        ModeWrote(s, t, mode, g.obj);
    }
    SnapInv(g);
    WroteDoes(s, op, Snap(g));
  }

  method ExecRoot(g: Collector, op: Op)
    requires g.Inv() && (op.SetRegistryOp? || op.SetBasicMetaOp? || op.ResumeOp?)
    modifies g
    ensures g.Inv() && old(g.obj).Keys <= g.obj.Keys
    ensures Does(old(Snap(g)), op, Snap(g))
  {
    hide *;
    ghost var s := Snap(g);
    SnapInv(g);
    SnapRegs(g);
    RootsAre(s);
    match op {
      case SetRegistryOp(v) => SetRegistry(g, v);
      case SetBasicMetaOp(i, v) => SetBasicMeta(g, i, v);
      case ResumeOp(v) => Resume(g, v);
    }
    SnapInv(g);
    RootDoes(s, op, Snap(g));
  }

  lemma RootDoes(s: Snapshot, op: Op, s2: Snapshot)
    requires op.SetRegistryOp? || op.SetBasicMetaOp? || op.ResumeOp?
    requires s2.phase == s.phase && s2.cw == s.cw && s2.obj == s.obj && s2.rs == RootsAfter(s, op)
    ensures Does(s, op, s2)
  {
    hide RootsAfter;
  }

  lemma RootsAre(s: Snapshot)
    ensures var R := RegsOf(s);
      && (forall v: nat {:trigger RootsAfter(s, SetRegistryOp(v))} ::
            RootsAfter(s, SetRegistryOp(v)) == s.rs.(registry := if v < |R| then R[v] else s.rs.registry))
      && (forall i: nat, v: nat {:trigger RootsAfter(s, SetBasicMetaOp(i, v))} :: RootsAfter(s, SetBasicMetaOp(i, v)) ==
            s.rs.(mt := if v < |R| && i < |s.rs.mt| then s.rs.mt[i := R[v]] else s.rs.mt))
      && (forall v: nat {:trigger RootsAfter(s, ResumeOp(v))} :: RootsAfter(s, ResumeOp(v)) ==
            s.rs.(running := if v < |R| && R[v].Coll? && R[v].ref in s.obj && s.obj[R[v].ref].Thread? then R[v].ref
                else s.rs.running))
  {
  }

  method SetConst(g: Collector, dst: nat, v: Value)
    requires g.Inv() && !v.Coll?
    modifies g`obj
    ensures g.Inv()
    ensures g.obj == if dst < old(|Regs(g)|) then
        old(g.obj)[g.running := Thread(old(Regs(g))[dst := v], old(g.obj)[g.running].top)] else old(g.obj)
  {
    hide *;
    RunningThread(g);
    if dst < |Regs(g)| {
      PrimAlive(Snap(g), v);
      SetReg(g, dst, v);
    }
  }

  method ExecObject(g: Collector, op: Op)
    requires g.Inv() && (op.NewOp? || op.FindUpvalOp? || op.InternOp? || op.PopFinalizerOp?)
    modifies g
    ensures g.Inv() && old(g.obj).Keys <= g.obj.Keys
    ensures Does(old(Snap(g)), op, Snap(g))
  {
    hide *;
    ghost var s := Snap(g);
    SnapInv(g);
    RunningThread(g);
    SnapRegs(g);
    match op {
      case NewOp(dst, r, x) =>
        New(g, dst, r, x);
        SnapInv(g);
        NewMade(s, dst, r, x, Snap(g));
      case InternOp(dst, o) =>
        Intern(g, dst, o);
        SnapInv(g);
        InternMade(s, dst, o, Snap(g));
      case FindUpvalOp(dst, i, r) =>
        FindUpval(g, dst, i, r);
        SnapInv(g);
        UpvalMade(s, dst, i, r, Snap(g));
      case PopFinalizerOp(dst) =>
        PopFinalizer(g, dst);
        SnapInv(g);
        FinalizerMade(s, dst, Snap(g));
    }
  }

  lemma NewMade(s: Snapshot, dst: nat, r: Ref, x: Obj, s2: Snapshot)
    requires s2.phase == s.phase && s2.cw == s.cw && s2.rs == s.rs && s.rs.running in s.obj
    requires var R := RegsOf(s);
      if dst < |R| && r !in s.obj && r !in s.fixed && Blank(x)
      then
        && s2.obj == s.obj[r := x][s.rs.running := Thread(R[dst := Coll(r)], s.obj[s.rs.running].top)]
        && s2.mark == s.mark[r := White(s.cw)]
      else s2.obj == s.obj && s2.mark == s.mark
    ensures Does(s, NewOp(dst, r, x), s2)
  {
    hide Blank;
  }

  lemma InternMade(s: Snapshot, dst: nat, o: Ref, s2: Snapshot)
    requires s2.phase == s.phase && s2.cw == s.cw && s2.rs == s.rs && s.rs.running in s.obj
    requires var R := RegsOf(s);
      if dst < |R| && o in s.strt
      then
        && s2.obj == s.obj[s.rs.running := Thread(R[dst := Coll(o)], s.obj[s.rs.running].top)]
        && s2.mark == if IsDead(s.mark, s.cw, s.fixed, o) then s.mark[o := White(s.cw)] else s.mark
      else s2.obj == s.obj && s2.mark == s.mark
    ensures Does(s, InternOp(dst, o), s2)
  {
    hide IsDead;
  }

  lemma UpvalMade(s: Snapshot, dst: nat, i: nat, r: Ref, s2: Snapshot)
    requires s2.phase == s.phase && s2.cw == s.cw && s2.rs == s.rs && s.rs.running in s.obj
    requires s.obj[s.rs.running].Thread?
    requires var R, th := RegsOf(s), s.rs.running;
      && (dst < |R| && i < |R| && HasUpval(s.obj, th, i) ==>
            exists u :: u in s.obj && s.obj[u] == OpenUp(th, i) && s2.obj == Referred(s.obj, th, dst, u))
      && (dst < |R| && i < |R| && !HasUpval(s.obj, th, i) && r !in s.obj && r !in s.fixed ==>
            s2.obj == Referred(s.obj[r := OpenUp(th, i)], th, dst, r))
      && (dst >= |R| || i >= |R| || (!HasUpval(s.obj, th, i) && (r in s.obj || r in s.fixed)) ==> s2.obj == s.obj)
    ensures Does(s, FindUpvalOp(dst, i, r), s2)
  {
    hide HasUpval;
    var R, th := RegsOf(s), s.rs.running;
    if dst < |R| && i < |R| && HasUpval(s.obj, th, i) {
      var u :| u in s.obj && s.obj[u] == OpenUp(th, i) && s2.obj == Referred(s.obj, th, dst, u);
      assert s2.obj == WithReg(s, dst, Coll(u));
    }
  }

  lemma FinalizerMade(s: Snapshot, dst: nat, s2: Snapshot)
    requires s2.phase == s.phase && s2.cw == s.cw && s.rs.running in s.obj
    requires var R := RegsOf(s);
      if dst < |R| && s.rs.fnz != []
      then
        && s2.rs == s.rs.(fnz := s.rs.fnz[1..])
        && s2.obj == s.obj[s.rs.running := Thread(R[dst := Coll(s.rs.fnz[0])], s.obj[s.rs.running].top)]
      else s2.rs == s.rs && s2.obj == s.obj
    ensures Does(s, PopFinalizerOp(dst), s2)
  {
  }

  /** One step of a run: what can be reached after it is allocated and not dead. */
  method Exec(g: Collector, op: Op)
    requires g.Inv()
    modifies g
    ensures g.Inv() && Safe(Snap(g)) && Sound(Snap(g))
    ensures StepKept(old(Snap(g)), Snap(g), op) && Does(old(Snap(g)), op, Snap(g))
  {
    hide *;
    ghost var s := Snap(g);
    SnapInv(g);
    if op.CollectOp? {
      Collect(g, op);
      SnapInv(g);
    } else if op.CloseOp? {
      g.DeadUnreachable();
      Close(g, op.level);
      SnapInv(g);
      InvKeys(s);
      InvKeys(Snap(g));
      CloseDoes(g, s, Snap(g), op.level);
      ClosedLost(g, s, Snap(g));
      NotAtomicKept(s, Snap(g), op);
    } else {
      InvSafe(s);
      if op.NewOp? || op.FindUpvalOp? || op.InternOp? || op.PopFinalizerOp? {
        ExecObject(g, op);
      } else if op.SetFieldOp? || op.SetCacheOp? || op.SetSlotOp? {
        ExecField(g, op);
      } else if op.SetRegistryOp? || op.SetBasicMetaOp? || op.ResumeOp? {
        ExecRoot(g, op);
      } else if op.SetArrayOp? || op.SetNodeOp? || op.RearrangeOp? {
        ExecEntry(g, op);
      } else if op.SetMetaOp? || op.SetModeOp? {
        ExecMeta(g, op);
      } else if op.SetPrim? || op.SetNil? {
        ExecConst(g, op);
      } else {
        ExecRegister(g, op);
      }
      SnapInv(g);
      KeysLost(s, Snap(g));
      NotAtomicKept(s, Snap(g), op);
    }
    InvSafe(Snap(g));
    InvSound(Snap(g));
  }

  lemma CloseDoes(g: Collector, s: Snapshot, s2: Snapshot, level: nat)
    requires s.obj.Keys == s.mark.Keys && s2.obj.Keys == s2.mark.Keys && g.OnlyDeadFreed(s.mark, s2.mark)
    requires s2.phase == s.phase && s2.cw == s.cw == g.currentwhite && s2.rs == s.rs && s2.fixed == s.fixed == g.fixed
    requires forall u :: u in s.obj ==> (u in s2.obj || AtLevel(s.obj, s.rs.running, level, u))
    requires s2.obj.Keys <= s.obj.Keys
    requires forall u :: u in s2.obj ==> s2.obj[u] == ClosedAt(s.obj, s.rs.running, level, u)
    ensures Does(s, CloseOp(level), s2)
  {
    hide AtLevel, ClosedAt, IsDead;
  }

  lemma InvSafe(s: Snapshot)
    requires InvS(s)
    ensures Safe(s)
  {
    ReachableAlive(s.obj, s.mark, s.cw, s.fixed, s.rs);
  }

  lemma KeysLost(s: Snapshot, s2: Snapshot)
    requires Safe(s) && s.obj.Keys <= s2.obj.Keys
    ensures NothingLost(s, s2)
  {
  }

  lemma ClosedLost(g: Collector, s: Snapshot, s2: Snapshot)
    requires InvS(s) && InvS(s2) && g.OnlyDeadFreed(s.mark, s2.mark) && s.cw == g.currentwhite && s.fixed == g.fixed
    ensures NothingLost(s, s2)
  {
    InvSafe(s);
    InvKeys(s2);
  }

  lemma NotAtomicKept(s: Snapshot, s2: Snapshot, op: Op)
    requires !op.CollectOp? && NothingLost(s, s2)
    ensures StepKept(s, s2, op)
  {
  }

  /** A single step of the collector with all objects as the bound of the marking. */
  method Collect(g: Collector, op: Op)
    requires g.Inv() && op.CollectOp?
    modifies g
    ensures g.Inv() && StepKept(old(Snap(g)), Snap(g), op) && Does(old(Snap(g)), op, Snap(g))
  {
    hide *;
    ghost var s := Snap(g);
    SnapInv(g);
    MomentIs(s, op);
    g.InvUnfold();
    StrongIs(g);
    g.DeadUnreachable();
    if forall i | 0 <= i < |op.separated| :: op.separated[i] in g.obj {
      g.AnyBound();
      AllIn(g, op.separated);
      g.SingleStep(op.count, op.separated, g.obj.Keys);
      SnapInv(g);
      StepRemains(g, s);
      StepDoes(s, op, Snap(g));
    } else {
      NothingDone(s, op);
    }
    SnapInv(g);
    Collected(g, s, op);
  }

  lemma NothingDone(s: Snapshot, op: Op)
    requires op.CollectOp? && !forall i | 0 <= i < |op.separated| :: op.separated[i] in s.obj
    ensures Does(s, op, s)
  {
  }

  /** The contract of the single step, on snapshots. */
  lemma StepDoes(s: Snapshot, op: Op, s2: Snapshot)
    requires op.CollectOp? && forall i | 0 <= i < |op.separated| :: op.separated[i] in s.obj
    requires Remains(s.obj, s2.obj) && s2.rs == s.rs.(fnz := s2.rs.fnz) && !s.phase.Atomic?
    requires s2.rs.fnz == s.rs.fnz + (if s.phase.Propagate? && s.gray == [] then op.separated else [])
    requires s2.cw == if s.phase.Propagate? && s.gray == [] then !s.cw else s.cw
    requires s.phase.Pause? ==> s2.phase == Propagate && s2.obj == s.obj
    requires s.phase.Propagate? && s.gray == [] ==> s2.phase == SweepString
    requires s.phase.Propagate? && s.gray != [] ==> s2.phase == Propagate && Trims(s.obj, s2.obj)
    requires s.phase.Propagate? && s.gray != [] ==> Whites(s2.mark) <= Whites(s.mark)
    requires s.phase.Propagate? && s.gray != [] && Whites(s2.mark) == Whites(s.mark) ==> |s2.gray| < |s.gray|
    requires s.phase.SweepString? ==> (s2.phase == SweepString || s2.phase == Sweep)
    requires s.phase.SweepString? && op.count > 0 ==> s2.phase == Sweep || s2.sweepstr < s.sweepstr
    requires s.phase.Sweep? ==> (s2.phase == Sweep || s2.phase == Pause)
    requires s.phase.Sweep? && op.count > 0 ==> s2.phase == Pause || s2.sweepgc < s.sweepgc
    ensures Does(s, op, s2)
  {
    hide Remains, Trims, Whites;
  }

  /** What is left of the heap in each phase. */
  lemma StepRemains(g: Collector, s: Snapshot)
    requires s.phase.Pause? ==> g.obj == s.obj
    requires s.phase.Propagate? && s.gray != [] ==> Trims(s.obj, g.obj)
    requires s.phase.Propagate? && s.gray == [] ==>
      g.obj.Keys <= s.obj.Keys && g.SurviveFirm(s.obj, s.lists.allweak, StrongOf(s.rs, s.mark), g.obj, g.mark)
    requires s.phase.SweepString? || s.phase.Sweep? ==> g.SameObjects(s.obj, g.obj)
    requires !s.phase.Atomic?
    ensures Remains(s.obj, g.obj)
  {
    hide FirmAlive, EntriesFirm, StackAt;
    if s.phase.Pause? { TrimsRefl(s.obj); }
    if s.phase.Propagate? && s.gray != [] { TrimShrinks(s.obj, g.obj); }
    if s.phase.SweepString? || s.phase.Sweep? {
      TrimsRefl(s.obj);
      assert forall o :: o in s.obj ==> ObjShrinks(s.obj[o], s.obj[o]);
    }
  }

  lemma MomentIs(s: Snapshot, op: Op)
    ensures AtomicMoment(s, op) <==>
        op.CollectOp? && s.phase.Propagate? && s.gray == [] && forall i | 0 <= i < |op.separated| ::
          op.separated[i] in s.obj
  {
  }

  lemma StrongIs(g: Collector)
    ensures g.StrongRs() == StrongOf(g.Rs(), g.mark)
    ensures g.Rs().main == g.mainthread && g.Rs().running == g.running && g.Rs().registry == g.registry
        && g.Rs().mt == g.mt
  {
  }

  lemma Collected(g: Collector, s: Snapshot, op: Op)
    requires op.CollectOp? && s.rs.main == g.mainthread && s.rs.running == g.running && s.rs.registry == g.registry
        && s.rs.mt == g.mt
    requires AtomicMoment(s, op) ==> g.SurviveFirm(s.obj, s.lists.allweak, StrongOf(s.rs, s.mark), g.obj, g.mark)
    requires AtomicMoment(s, op) && AllweakValues(s.obj, s.mark, s.lists.allweak) && UpsBelowTop(s.obj)
        ==> g.Survive(s.obj, StrongOf(s.rs, s.mark), g.obj, g.mark)
    requires !AtomicMoment(s, op) ==> forall r :: Reachable(s.obj, s.rs, r) ==> r in g.obj
    ensures StepKept(s, Snap(g), op)
  {
    hide FirmAlive, EntriesFirm, KeptAlive, EntriesKept, AllweakValues, UpsBelowTop, ObjShrinks, IsDead;
  }

  lemma AllIn(g: Collector, l: seq<Ref>)
    requires forall i | 0 <= i < |l| :: l[i] in g.obj
    ensures RefsIn(g.obj, l, g.obj.Keys)
  {
  }

  /**
   * Every run: the invariant holds and everything reachable is allocated and not dead after each step; each step but
   * the atomic one frees nothing that was reachable before it, and the atomic one keeps what is kept alive, with all of
   * its entries.
   */
  method Run(g: Collector, ops: seq<Op>) returns (ghost trace: seq<Snapshot>)
    requires g.Inv()
    modifies g
    ensures g.Inv() && |trace| == |ops| + 1 && trace[0] == old(Snap(g)) && trace[|ops|] == Snap(g)
    ensures forall i :: 0 <= i <= |ops| ==> InvS(trace[i]) && Safe(trace[i]) && Sound(trace[i])
    ensures forall i :: 0 <= i < |ops| ==>
      StepKept(trace[i], trace[i + 1], ops[i]) && Does(trace[i], ops[i], trace[i + 1])
  {
    hide *;
    SnapInv(g);
    InvSafe(Snap(g));
    InvSound(Snap(g));
    trace := [Snap(g)];
    for i := 0 to |ops|
      invariant g.Inv() && |trace| == i + 1 && trace[0] == old(Snap(g)) && trace[i] == Snap(g)
      invariant forall j :: 0 <= j <= i ==> InvS(trace[j]) && Safe(trace[j]) && Sound(trace[j])
      invariant forall j :: 0 <= j < i ==>
        StepKept(trace[j], trace[j + 1], ops[j]) && Does(trace[j], ops[j], trace[j + 1])
    {
      ghost var s := Snap(g);
      SnapInv(g);
      Exec(g, ops[i]);
      SnapInv(g);
      ghost var s2 := Snap(g);
      trace := trace + [s2];
    }
  }
}
