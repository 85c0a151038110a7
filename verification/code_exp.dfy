/**
 * Expressions under construction (lcode.c:368-560): where the value of an expression is, and how it gets into a
 * register.
 */
module CodeExp {
  import opened CodeVm
  import opened CodeLists
  import opened CodeGen

  datatype Kind = VNil | VTrue | VFalse | VK(info: nat) | VKNum(n: int) | VLocal(info: nat) | VNonReloc(info: nat)
    | VReloc(info: nat) | VJmp(info: nat)

  /** expdesc: t and f are the lists of jumps that leave the expression when it is true or false. */
  datatype ExpDesc = ExpDesc(k: Kind, t: int, f: int)

  /** The jumps of the two lists. */
  datatype Jumps = Jumps(t: seq<nat>, f: seq<nat>)

  ghost function All(w: Jumps): set<nat> { Elems(w.t) + Elems(w.f) }

  /**
   * The lists of e, and where its value is: a local variable, the register base that was the first free one before e,
   * or the last instruction.
   */
  ghost predicate Shape(fs: FuncState, e: ExpDesc, w: Jumps, base: nat)
    reads fs`code, fs`pend, fs`js, fs`jpc, fs`lasttarget, fs`k, fs`nactvar
  {
    && fs.Valid() && fs.nactvar <= base
    && IsList(fs.code, e.t, w.t) && IsList(fs.code, e.f, w.f) && All(w) <= fs.pend && Elems(w.t) !! Elems(w.f)
    && match e.k
       case VLocal(i) => i < fs.nactvar
       case VNonReloc(i) => i < fs.nactvar || i == base
       case VReloc(p) => p + 1 == |fs.code| && fs.code[p].Not? && fs.js == [] && fs.lasttarget <= p
       case VJmp(p) => JumpLast(fs, p) && p !in All(w)
       case VK(i) => i < |fs.k|
       case _ => true
  }

  /** The code ends with a comparison and its jump p, which is a list of its own. */
  ghost predicate JumpLast(fs: FuncState, p: nat)
    reads fs`code, fs`pend, fs`js, fs`lasttarget
  {
    p > 0 && p + 1 == |fs.code| && fs.code[p - 1].Compare? && IsList(fs.code, p, [p]) && p in fs.pend && fs.js == []
        && fs.lasttarget < p
  }

  /** The code without the instructions that make the value of e itself. */
  ghost function Core(fs: FuncState, e: ExpDesc): Code
    reads fs`code, fs`pend, fs`js
  {
    match e.k
    case VReloc(p) => if p < |fs.code| then Code(fs.code[..p], fs.pend, {}) else fs.C()
    case VJmp(p) => if 0 < p <= |fs.code| then Code(fs.code[..p - 1], fs.pend - {p}, {}) else fs.C()
    case _ => fs.C()
  }

  /** The value of e in a run that reaches the end of its core. */
  ghost function FallValue(env: Env, code: seq<Instr>, e: ExpDesc, r: Regs): Value {
    match e.k
    case VNil => Nil
    case VTrue => Bool(true)
    case VFalse => Bool(false)
    case VK(i) => RK(env, r, Const(i))
    case VKNum(n) => Num(n)
    case VLocal(i) => Get(r, i)
    case VNonReloc(i) => Get(r, i)
    case VReloc(p) => if p < |code| && code[p].Not? then Bool(!Truthy(Get(r, code[p].b))) else Nil
    case VJmp(p) => if 0 < p <= |code| && IsTest(code[p - 1]) then Bool(Taken(env, code[p - 1], r)) else Nil
  }

  ghost predicate SameExcept(reg: nat, r: Regs, s: Regs) {
    forall i: nat {:trigger Get(s, i)} {:trigger Get(r, i)} :: i != reg ==> Get(s, i) == Get(r, i)
  }

  /** The core of an expression whose value is the last instruction is in order. */
  lemma CoreOk(fs: FuncState, e: ExpDesc, w: Jumps, base: nat)
    requires Shape(fs, e, w, base)
    ensures Ok(Core(fs, e), fs.lasttarget)
    ensures e.k.VReloc? || e.k.VJmp? ==> Core(fs, e).here == {}
    ensures All(w) <= Core(fs, e).pend
  {
    var c, d := fs.C(), Core(fs, e);
    if e.k.VReloc? || e.k.VJmp? {
      var n := |d.code|;
      forall i: nat ensures WfAt(d, i) {
        assert WfAt(c, i);
        if i < n && i + 1 < |c.code| { assert WfAt(c, i + 1); }
      }
      forall j | j in d.pend ensures j < n && d.code[j].Jmp? { assert c.code[j].Jmp?; }
      UnsetShorter(c, d);
      assert Labelled(d, fs.lasttarget);
    }
  }

  lemma UnsetShorter(c: Code, d: Code)
    requires Unset(c) && d.code <= c.code && d.pend <= c.pend && d.here == {} && forall j ::
        j in d.pend ==> j < |d.code|
    ensures Unset(d)
  {
    forall j: nat | j in d.pend && HasValue(d.code, j) ensures d.code[Control(d.code, j)].dst == NO_REG {
      assert d.code[j] == c.code[j] && (j > 0 ==> d.code[j - 1] == c.code[j - 1]);
      assert HasValue(c.code, j);
    }
  }

  // ---- Constants

  /** addk: the constant v, which is added if it is not there. */
  method AddK(fs: FuncState, v: Value) returns (i: nat)
    modifies fs`k
    ensures old(fs.k) <= fs.k && i < |fs.k| && fs.k[i] == v
    ensures i <= |old(fs.k)| && (v in old(fs.k) ==> fs.k == old(fs.k))
  {
    i := 0;
    while i < |fs.k| && fs.k[i] != v
      invariant i <= |fs.k| && fs.k == old(fs.k) && forall j :: 0 <= j < i ==> fs.k[j] != v
    {
      i := i + 1;
    }
    if i == |fs.k| {
      fs.k := fs.k + [v];
    }
  }

  // ---- Values into registers

  /** o2 is o with the value v of the runs that fall through in register reg. */
  ghost predicate StoredAt(env: Env, o: Out, o2: Out, code: seq<Instr>, e: ExpDesc, reg: nat) {
    match o
    case Fall(r) => o2.Fall? && Get(o2.r, reg) == FallValue(env, code, e, r) && SameExcept(reg, r, o2.r)
    case _ => o2 == o
  }

  ghost predicate Stores(k: seq<Value>, c: Code, d: Code, code: seq<Instr>, e: ExpDesc, reg: nat) {
    forall env: Env, r {:trigger Exec(env, d, 0, r)} :: k <= env.k
        ==> StoredAt(env, Exec(env, c, 0, r), Exec(env, d, 0, r), code, e, reg)
  }

  lemma EmitStores(k: seq<Value>, c: Code, d: Code, code: seq<Instr>, e: ExpDesc, reg: nat, ins: Instr)
    requires forall env, r {:trigger Exec(env, d, 0, r)} ::
        Exec(env, d, 0, r) == AppendOut(env, ins, Exec(env, c, 0, r))
    requires match e.k
             case VNil => ins == LoadNil(reg, 0)
             case VTrue => ins == LoadBool(reg, true, false)
             case VFalse => ins == LoadBool(reg, false, false)
             case VK(i) => ins == LoadK(reg, i)
             case VKNum(n) => ins.LoadK? && ins.a == reg && ins.k < |k| && k[ins.k] == Num(n)
             case VLocal(i) => ins == Move(reg, i)
             case VNonReloc(i) => ins == Move(reg, i)
             case VReloc(p) => p < |code| && code[p].Not? && ins == Not(reg, code[p].b)
             case VJmp(_) => false
    ensures Stores(k, c, d, code, e, reg)
  {
    hide Exec;
    forall env: Env, r | k <= env.k ensures StoredAt(env, Exec(env, c, 0, r), Exec(env, d, 0, r), code, e, reg) {
      assert ins.LoadK? && ins.k < |k| ==> env.k[ins.k] == k[ins.k];
    }
  }

  /** discharge2reg, which leaves a jump as it is. */
  method Discharge2Reg(fs: FuncState, e: ExpDesc, reg: nat, ghost w: Jumps, ghost base: nat) returns (e2: ExpDesc)
    requires Shape(fs, e, w, base)
    modifies fs`code, fs`jpc, fs`js, fs`k
    ensures fs.Valid() && old(fs.k) <= fs.k && |fs.code| >= |old(fs.code)|
    ensures e.k.VJmp? ==> e2 == e && fs.code == old(fs.code) && fs.js == old(fs.js)
    ensures !e.k.VJmp? ==>
        e2 == ExpDesc(VNonReloc(reg), e.t, e.f) && Stores(fs.k, old(Core(fs, e)), fs.C(), old(fs.code), e, reg)
    ensures forall i {:trigger i in fs.pend} :: i in fs.pend ==> KeptJump(old(fs.code), fs.code, i)
  {
    hide *;
    ghost var c, code0 := Core(fs, e), fs.code;
    ShapeParts(fs, e, w, base);
    KeptRefl(fs);
    e2 := ExpDesc(VNonReloc(reg), e.t, e.f);
    match e.k {
      case VNil =>
        fs.CodeNil(reg, 1);
        EmitStores(fs.k, c, fs.C(), code0, e, reg, LoadNil(reg, 0));
      case VTrue =>
        EmitAt(fs, LoadBool(reg, true, false), e, reg, c, code0);
      case VFalse =>
        EmitAt(fs, LoadBool(reg, false, false), e, reg, c, code0);
      case VK(i) =>
        EmitAt(fs, LoadK(reg, i), e, reg, c, code0);
      case VKNum(n) =>
        var i := AddK(fs, Num(n));
        EmitAt(fs, LoadK(reg, i), e, reg, c, code0);
      case VReloc(p) =>
        CoreOk(fs, e, w, base);
        RelocFacts(fs, e, w, base);
        fs.code := fs.code[p := Not(reg, fs.code[p].b)];
        Relocated(fs, e, c, code0, reg);
      case VLocal(i) =>
        MoveTo(fs, i, e, reg, c, code0);
      case VNonReloc(i) =>
        MoveTo(fs, i, e, reg, c, code0);
      case VJmp(_) =>
        e2 := e;
    }
  }

  method EmitAt(fs: FuncState, ins: Instr, e: ExpDesc, reg: nat, ghost c: Code, ghost code0: seq<Instr>)
    requires fs.Valid() && c == fs.C() && code0 == fs.code
    requires match e.k
             case VTrue => ins == LoadBool(reg, true, false)
             case VFalse => ins == LoadBool(reg, false, false)
             case VK(i) => ins == LoadK(reg, i)
             case VKNum(n) => ins.LoadK? && ins.a == reg && ins.k < |fs.k| && fs.k[ins.k] == Num(n)
             case VLocal(i) => ins == Move(reg, i)
             case VNonReloc(i) => ins == Move(reg, i)
             case _ => false
    modifies fs`code, fs`jpc, fs`js
    ensures fs.Valid() && |fs.code| > |old(fs.code)| && Stores(fs.k, c, fs.C(), code0, e, reg)
    ensures forall i {:trigger i in fs.pend} :: i in fs.pend ==> KeptJump(old(fs.code), fs.code, i)
  {
    hide *;
    PlainKind(ins);
    var pc := fs.Emit(ins);
    EmitStores(fs.k, c, fs.C(), code0, e, reg, ins);
  }

  lemma PlainKind(ins: Instr)
    requires ins.LoadK? || ins.Move? || (ins.LoadBool? && !ins.skip)
    ensures Plain(ins)
  {
  }

  method MoveTo(fs: FuncState, i: nat, e: ExpDesc, reg: nat, ghost c: Code, ghost code0: seq<Instr>)
    requires fs.Valid() && c == fs.C() && code0 == fs.code && (e.k == VLocal(i) || e.k == VNonReloc(i))
    modifies fs`code, fs`jpc, fs`js
    ensures fs.Valid() && |fs.code| >= |old(fs.code)| && Stores(fs.k, c, fs.C(), code0, e, reg)
    ensures forall i {:trigger i in fs.pend} :: i in fs.pend ==> KeptJump(old(fs.code), fs.code, i)
  {
    hide *;
    KeptRefl(fs);
    if reg != i {
      EmitAt(fs, Move(reg, i), e, reg, c, code0);
    } else {
      StaysThere(fs.k, c, code0, e, reg);
    }
  }

  lemma StaysThere(k: seq<Value>, c: Code, code: seq<Instr>, e: ExpDesc, reg: nat)
    requires e.k == VLocal(reg) || e.k == VNonReloc(reg)
    ensures Stores(k, c, c, code, e, reg)
  {
    hide Exec;
  }

  lemma KeptRefl(fs: FuncState)
    requires fs.Valid()
    ensures forall i {:trigger i in fs.pend} :: i in fs.pend ==> KeptJump(fs.code, fs.code, i)
  {
    assert Wf(fs.C());
    forall i | i in fs.pend ensures KeptJump(fs.code, fs.code, i) { assert i in fs.C().pend; }
  }

  lemma ShapeParts(fs: FuncState, e: ExpDesc, w: Jumps, base: nat)
    requires Shape(fs, e, w, base)
    ensures fs.Valid() && fs.nactvar <= base
    ensures IsList(fs.code, e.t, w.t) && IsList(fs.code, e.f, w.f) && All(w) <= fs.pend && Elems(w.t) !! Elems(w.f)
    ensures !e.k.VReloc? && !e.k.VJmp? ==> Core(fs, e) == fs.C()
    ensures e.k.VK? ==> e.k.info < |fs.k|
  {
  }

  lemma RelocFacts(fs: FuncState, e: ExpDesc, w: Jumps, base: nat)
    requires Shape(fs, e, w, base) && e.k.VReloc?
    ensures var p := e.k.info;
        p < |fs.code| && p + 1 == |fs.code| && fs.code[p].Not? && fs.js == [] && fs.jpc == NO_JUMP
        && Core(fs, e) == Code(fs.code[..p], fs.pend, {})
  {
  }

  /** The register of the last instruction was set. */
  lemma Relocated(fs: FuncState, e: ExpDesc, c: Code, code0: seq<Instr>, reg: nat)
    requires e.k.VReloc? && e.k.info + 1 == |code0| && code0[e.k.info].Not? && c == Code(code0[..e.k.info], fs.pend, {})
        && Ok(c, fs.lasttarget)
    requires fs.code == code0[e.k.info := Not(reg, code0[e.k.info].b)] && fs.js == [] && fs.jpc == NO_JUMP
    ensures fs.Valid() && Stores(fs.k, c, fs.C(), code0, e, reg)
    ensures forall i {:trigger i in fs.pend} :: i in fs.pend ==> KeptJump(code0, fs.code, i)
  {
    hide Exec;
    var ins := Not(reg, code0[e.k.info].b);
    assert fs.code == c.code + [ins];
    EmitOk(c, ins, fs.lasttarget, fs.code);
    fs.NoJumps() by { assert IsList(fs.code, fs.jpc, fs.js); }
    forall env, r ensures Exec(env, fs.C(), 0, r) == AppendOut(env, ins, Exec(env, c, 0, r)) {
      EmitRun(c, ins, fs.lasttarget, env, r, fs.code);
    }
    EmitStores(fs.k, c, fs.C(), code0, e, reg, ins);
    forall i | i in fs.pend ensures KeptJump(code0, fs.code, i) { assert i in c.pend; }
  }

  // ---- An expression with its jumps into a register (exp2reg)

  /** The jump of an expression that is a comparison. */
  ghost function Own(e: ExpDesc): set<nat> { if e.k.VJmp? then {e.k.info} else {} }

  /** o2 is o with the value of the expression in register reg, for every way in which a run leaves the expression. */
  ghost predicate PutAt(env: Env, o: Out, o2: Out, code: seq<Instr>, e: ExpDesc, w: Jumps, reg: nat) {
    match o
    case Stuck => o2 == o
    case Fall(r) => o2.Fall? && Get(o2.r, reg) == FallValue(env, code, e, r) && SameExcept(reg, r, o2.r)
    case Exit(j, r) =>
      if j in w.t then o2.Fall? && Get(o2.r, reg) == ExitValue(code, j, r, true) && SameExcept(reg, r, o2.r)
      else if j in w.f then o2.Fall? && Get(o2.r, reg) == ExitValue(code, j, r, false) && SameExcept(reg, r, o2.r)
      else o2 == o
  }

  ghost predicate Puts(k: seq<Value>, c: Code, d: Code, code: seq<Instr>, e: ExpDesc, w: Jumps, reg: nat) {
    forall env: Env, r {:trigger Exec(env, d, 0, r)} :: k <= env.k
        ==> PutAt(env, Exec(env, c, 0, r), Exec(env, d, 0, r), code, e, w, reg)
  }

  /**
   * Before the lists are patched: the value of the runs that fall through is in the register, or they end with the own
   * jump of the expression.
   */
  ghost predicate ReadyAt(env: Env, o: Out, o1: Out, code: seq<Instr>, e: ExpDesc, reg: nat) {
    if e.k.VJmp? then 0 < e.k.info <= |code| && IsTest(code[e.k.info - 1]) && code[e.k.info - 1].Compare?
        && o1 == CondOut(env, code[e.k.info - 1], e.k.info, o)
    else StoredAt(env, o, o1, code, e, reg)
  }

  ghost predicate Readies(k: seq<Value>, c: Code, d: Code, code: seq<Instr>, e: ExpDesc, reg: nat) {
    forall env: Env, r {:trigger Exec(env, d, 0, r)} :: k <= env.k
        ==> ReadyAt(env, Exec(env, c, 0, r), Exec(env, d, 0, r), code, e, reg)
  }

  /** All jumps of the true list of e, its own one included. */
  ghost function TrueJumps(e: ExpDesc, w: Jumps): seq<nat> { if e.k.VJmp? then w.t + [e.k.info] else w.t }

  method Exp2Reg(fs: FuncState, e: ExpDesc, reg: nat, ghost w: Jumps, ghost base: nat) returns (e2: ExpDesc)
    requires Shape(fs, e, w, base)
    modifies fs`code, fs`jpc, fs`js, fs`k, fs`pend, fs`lasttarget
    ensures fs.Valid() && old(fs.k) <= fs.k && e2 == ExpDesc(VNonReloc(reg), NO_JUMP, NO_JUMP)
    ensures fs.pend == old(fs.pend) - All(w) - Own(e)
    ensures Puts(fs.k, old(Core(fs, e)), fs.C(), old(fs.code), e, w, reg)
    ensures forall i {:trigger i in fs.pend} :: i in fs.pend ==> KeptJump(old(fs.code), fs.code, i)
  {
    hide *;
    ghost var c, code0, pend0 := Core(fs, e), fs.code, fs.pend;
    ghost var ts := TrueJumps(e, w);
    CoreOk(fs, e, w, base);
    CoreIsApart(fs, e, w, base);
    var t := ReadyReg(fs, e, reg, w, base);
    ghost var c1, code1 := fs.C(), fs.code;
    KeptRefl(fs);
    if t != e.f {  // hasjumps
      PatchBoth(fs, e, reg, t, ts, w, c, code0);
    } else {
      NoneLeft(fs.code, t, ts, e, w);
      NothingLeft(fs.k, c, c1, code0, e, w, reg);
    }
    SetsLeft(e, w, ts);
    KeptRest(code0, code1, fs.code, pend0, fs.pend, e, w, ts);
    e2 := ExpDesc(VNonReloc(reg), NO_JUMP, NO_JUMP);
  }

  /** The value is discharged, and the own jump of a comparison joins the true list. */
  method ReadyReg(fs: FuncState, e: ExpDesc, reg: nat, ghost w: Jumps, ghost base: nat) returns (t: int)
    requires Shape(fs, e, w, base)
    modifies fs`code, fs`jpc, fs`js, fs`k
    ensures fs.Valid() && old(fs.k) <= fs.k && Readies(fs.k, old(Core(fs, e)), fs.C(), old(fs.code), e, reg)
    ensures var ts := TrueJumps(e, w);
      IsList(fs.code, t, ts) && IsList(fs.code, e.f, w.f) && Elems(ts) <= fs.pend && Elems(w.f) <= fs.pend
          && Elems(ts) !! Elems(w.f)
    ensures e.k.VJmp? ==>
        fs.js == [] && |fs.code| > 0 && fs.code[|fs.code| - 1].Jmp? && e.k.info == |fs.code| - 1
        && !HasValue(fs.code, e.k.info)
    ensures forall i {:trigger i in fs.pend} ::
        i in fs.pend && i !in Own(e) && i !in Elems(w.t) ==> KeptJump(old(fs.code), fs.code, i)
    ensures SameValues(old(fs.code), fs.code, All(w))
  {
    hide *;
    ghost var c, code0 := Core(fs, e), fs.code;
    ShapeParts(fs, e, w, base);
    KeptRefl(fs);
    TrueJumpsIs(e, w);
    OwnIs(e);
    t := e.t;
    if e.k.VJmp? {
      var p := e.k.info;
      JmpFacts(fs, e, w, base);
      CoreOk(fs, e, w, base);
      t := fs.Join(e.t, p, w.t, [p]);
      JoinedJmp(fs, e, w, c, code0, reg);
    } else {
      var e1 := Discharge2Reg(fs, e, reg, w, base);
      StoredReady(fs.k, c, fs.C(), code0, e, reg);
      ListsKept(fs, code0, e, w);
    }
  }

  /** A jump brings the same value with it in both codes. */
  ghost predicate SameValues(a: seq<Instr>, b: seq<Instr>, l: set<nat>) {
    forall j: nat, r, v {:trigger ExitValue(b, j, r, v)} ::
        j in l ==> ExitValue(b, j, r, v) == ExitValue(a, j, r, v) && HasValue(b, j) == HasValue(a, j)
  }

  lemma TrueJumpsIs(e: ExpDesc, w: Jumps)
    ensures TrueJumps(e, w) == if e.k.VJmp? then w.t + [e.k.info] else w.t
  {
  }

  lemma OwnIs(e: ExpDesc)
    ensures Own(e) == if e.k.VJmp? then {e.k.info} else {}
  {
  }

  lemma JmpFacts(fs: FuncState, e: ExpDesc, w: Jumps, base: nat)
    requires Shape(fs, e, w, base) && e.k.VJmp?
    ensures var p := e.k.info;
      && IsList(fs.code, p, [p]) && p in fs.pend && p !in All(w) && fs.js == [] && fs.jpc == NO_JUMP && p > 0
        && p + 1 == |fs.code| && fs.code[p].Jmp?
      && Core(fs, e) == Code(fs.code[..p - 1], fs.pend - {p}, {}) && fs.C() == Code(fs.code, fs.pend, {})
        && fs.code[p - 1].Compare?
      && Elems(w.t) !! Elems([p]) && Elems(w.t) <= fs.pend && Elems(w.f) <= fs.pend
        && Elems(w.t + [p]) == Elems(w.t) + {p}
  {
    assert fs.C().pend == fs.pend;
    assert fs.code[e.k.info].Jmp?;
  }

  /** After the own jump of a comparison joined the true list. */
  lemma JoinedJmp(fs: FuncState, e: ExpDesc, w: Jumps, c: Code, code0: seq<Instr>, reg: nat)
    requires e.k.VJmp? && 0 < e.k.info && e.k.info + 1 == |code0| && code0[e.k.info - 1].Compare?
        && code0[e.k.info].Jmp?
    requires c == Code(code0[..e.k.info - 1], fs.pend - {e.k.info}, {}) && e.k.info in fs.pend && Ok(c, fs.lasttarget)
    requires IsList(code0, e.f, w.f) && Elems(w.t) !! Elems(w.f) && e.k.info !in All(w)
    requires Relinked(code0, fs.code, Elems(w.t))
    requires forall env, r {:trigger Exec(env, fs.C(), 0, r)} ::
        Exec(env, fs.C(), 0, r) == Exec(env, Code(code0, fs.pend, {}), 0, r)
    ensures Readies(fs.k, c, fs.C(), code0, e, reg)
    ensures IsList(fs.code, e.f, w.f) && Elems(w.t + [e.k.info]) !! Elems(w.f)
    ensures SameValues(code0, fs.code, All(w)) && |fs.code| == |code0| && fs.code[e.k.info].Jmp?
        && !HasValue(fs.code, e.k.info)
  {
    var p := e.k.info;
    forall env: Env, r | fs.k <= env.k ensures ReadyAt(env, Exec(env, c, 0, r), Exec(env, fs.C(), 0, r), code0, e,
        reg) {
      hide Exec, Ok, Relinked, IsList;
      assert code0 == c.code + [code0[p - 1], Jmp(code0[p].sbx)];
      CondRun(c, code0[p - 1], code0[p].sbx, fs.lasttarget, env, r, code0);
      assert Code(code0, c.pend + {|c.code| + 1}, {}) == Code(code0, fs.pend, {});
    }
    RelinkedValues(code0, fs.code, Elems(w.t), All(w));
    RelinkedList(code0, fs.code, Elems(w.t), e.f, w.f);
    assert fs.code[p - 1] == code0[p - 1] && fs.code[p].Jmp?;
  }

  lemma RelinkedValues(a: seq<Instr>, b: seq<Instr>, l: set<nat>, m: set<nat>)
    requires Relinked(a, b, l)
    ensures SameValues(a, b, m)
  {
    forall j: nat, r, v | j in m ensures ExitValue(b, j, r, v) == ExitValue(a, j, r, v)
        && HasValue(b, j) == HasValue(a, j) {
      if j < |a| {
        assert b[j] == a[j] || (a[j].Jmp? && b[j].Jmp?);
        if j > 0 { assert b[j - 1] == a[j - 1] || (a[j - 1].Jmp? && b[j - 1].Jmp?); }
      }
    }
  }

  lemma RelinkedList(a: seq<Instr>, b: seq<Instr>, l: set<nat>, h: int, s: seq<nat>)
    requires Relinked(a, b, l) && IsList(a, h, s) && l !! Elems(s)
    ensures IsList(b, h, s)
  {
    forall j | j in s ensures j < |a| && j < |b| && b[j] == a[j] {
      ListJump(a, h, s, j);
      assert j in Elems(s);
    }
    KeptList(a, b, h, s);
  }

  lemma StoredReady(k: seq<Value>, c: Code, d: Code, code: seq<Instr>, e: ExpDesc, reg: nat)
    requires Stores(k, c, d, code, e, reg) && !e.k.VJmp?
    ensures Readies(k, c, d, code, e, reg)
  {
    hide Exec;
  }

  lemma ListsKept(fs: FuncState, code0: seq<Instr>, e: ExpDesc, w: Jumps)
    requires IsList(code0, e.t, w.t) && IsList(code0, e.f, w.f) && All(w) <= fs.pend
    requires forall i {:trigger i in fs.pend} :: i in fs.pend ==> KeptJump(code0, fs.code, i)
    ensures IsList(fs.code, e.t, w.t) && IsList(fs.code, e.f, w.f)
    ensures Elems(w.t) <= fs.pend && Elems(w.f) <= fs.pend
    ensures SameValues(code0, fs.code, All(w))
  {
    PendList(code0, fs.code, fs.pend, e.t, w.t);
    PendList(code0, fs.code, fs.pend, e.f, w.f);
    PendValues(code0, fs.code, fs.pend, All(w));
  }

  lemma PendList(a: seq<Instr>, b: seq<Instr>, pend: set<nat>, h: int, s: seq<nat>)
    requires IsList(a, h, s) && Elems(s) <= pend && forall i {:trigger i in pend} :: i in pend ==> KeptJump(a, b, i)
    ensures IsList(b, h, s)
  {
    forall j | j in s ensures j < |a| && j < |b| && b[j] == a[j] {
      assert j in Elems(s);
      assert j in pend;
    }
    KeptList(a, b, h, s);
  }

  lemma PendValues(a: seq<Instr>, b: seq<Instr>, pend: set<nat>, l: set<nat>)
    requires l <= pend && forall i {:trigger i in pend} :: i in pend ==> KeptJump(a, b, i)
    ensures SameValues(a, b, l)
  {
    forall j: nat, r, v | j in l ensures ExitValue(b, j, r, v) == ExitValue(a, j, r, v)
        && HasValue(b, j) == HasValue(a, j) {
      assert j in pend;
      KeptValue(a, b, j, r, v);
    }
  }

  lemma SameValuesTrans(a: seq<Instr>, b: seq<Instr>, c: seq<Instr>, l: set<nat>)
    requires SameValues(a, b, l) && SameValues(b, c, l)
    ensures SameValues(a, c, l)
  {
    forall j: nat, r, v | j in l ensures ExitValue(c, j, r, v) == ExitValue(a, j, r, v)
        && HasValue(c, j) == HasValue(a, j) {
      assert ExitValue(b, j, r, v) == ExitValue(a, j, r, v);
    }
  }

  lemma HeadIn(code: seq<Instr>, h: int, s: seq<nat>)
    requires IsList(code, h, s)
    ensures h == NO_JUMP <==> s == []
    ensures h != NO_JUMP ==> h >= 0 && h in Elems(s)
  {
    if s != [] { assert LinkAt(code, s, 0) && s[0] in s; }
  }

  lemma NoneLeft(code: seq<Instr>, t: int, ts: seq<nat>, e: ExpDesc, w: Jumps)
    requires IsList(code, t, ts) && IsList(code, e.f, w.f) && Elems(ts) !! Elems(w.f) && t == e.f
        && ts == TrueJumps(e, w)
    ensures w.t == [] && w.f == [] && !e.k.VJmp?
  {
    HeadIn(code, t, ts);
    HeadIn(code, e.f, w.f);
  }

  lemma NothingLeft(k: seq<Value>, c: Code, d: Code, code: seq<Instr>, e: ExpDesc, w: Jumps, reg: nat)
    requires Readies(k, c, d, code, e, reg) && w.t == [] && w.f == [] && !e.k.VJmp?
    ensures Puts(k, c, d, code, e, w, reg)
  {
    hide Exec;
    forall env: Env, r | k <= env.k ensures PutAt(env, Exec(env, c, 0, r), Exec(env, d, 0, r), code, e, w, reg) {
      assert ReadyAt(env, Exec(env, c, 0, r), Exec(env, d, 0, r), code, e, reg);
    }
  }

  lemma SetsLeft(e: ExpDesc, w: Jumps, ts: seq<nat>)
    requires ts == TrueJumps(e, w)
    ensures Elems(ts) + Elems(w.f) == All(w) + Own(e)
    ensures w.t == [] && w.f == [] && !e.k.VJmp? ==> All(w) + Own(e) == {}
  {
    assert e.k.VJmp? ==> Elems(w.t + [e.k.info]) == Elems(w.t) + {e.k.info};
  }

  // ---- The patch of both lists

  /** The jumps of l are ready for a patch at p: those without a value exist only if the LOADBOOLs were emitted. */
  lemma LoadsReady(c: Code, top: nat, l: set<nat>, reg: nat, p: int, v: bool, need: bool)
    requires Ok(c, top) && l <= c.pend
    requires need ==> Loads(c.code, p, reg, v) && forall j :: j in l ==> j < p
    requires !need ==> forall j :: j in l ==> HasValue(c.code, j)
    ensures PatchReady(c, l, reg, p, v)
  {
    forall j | j in l && HasValue(c.code, j) ensures c.code[Control(c.code, j)].dst == NO_REG {}
  }

  method PatchBoth(fs: FuncState, e: ExpDesc, reg: nat, t: int, ghost ts: seq<nat>, ghost w: Jumps, ghost c: Code,
      ghost code0: seq<Instr>)
    requires fs.Valid() && ts == TrueJumps(e, w)
    requires IsList(fs.code, t, ts) && IsList(fs.code, e.f, w.f) && Elems(ts) <= fs.pend && Elems(w.f) <= fs.pend
        && Elems(ts) !! Elems(w.f)
    requires e.k.VJmp? ==>
        fs.js == [] && |fs.code| > 0 && fs.code[|fs.code| - 1].Jmp? && e.k.info == |fs.code| - 1
        && !HasValue(fs.code, e.k.info)
    requires Readies(fs.k, c, fs.C(), code0, e, reg) && SameValues(code0, fs.code, All(w)) && CoreApart(c, e)
    modifies fs`code, fs`jpc, fs`js, fs`pend, fs`lasttarget
    ensures fs.Valid() && fs.pend == old(fs.pend) - Elems(ts) - Elems(w.f)
    ensures Puts(fs.k, c, fs.C(), code0, e, w, reg)
    ensures forall i {:trigger i in fs.pend} :: i in fs.pend ==> KeptJump(old(fs.code), fs.code, i)
  {
    hide *;
    ghost var c1, code1, pend1 := fs.C(), fs.code, fs.pend;
    var needt := fs.NeedValue(t, ts);
    var needf := fs.NeedValue(e.f, w.f);
    var need := needt || needf;
    CIs(fs);
    NeedIs(code1, e, w, ts, needt, needf);
    KeptRefl(fs);
    Within(fs);
    var pf, pt := NO_JUMP, NO_JUMP;
    if need {
      pf, pt := fs.LoadBools(reg, !e.k.VJmp?);
    }
    var final := fs.GetLabel();
    ghost var c2, code2 := fs.C(), fs.code;
    CIs(fs);
    PendList(code1, code2, pend1, t, ts);
    PendList(code1, code2, pend1, e.f, w.f);
    PendValues(code1, code2, pend1, Elems(ts) + Elems(w.f));
    ReadyFalse(fs, code1, w, reg, pf, pt, need);
    fs.PatchValues(e.f, reg, pf, false, w.f);
    ghost var c3, code3 := fs.C(), fs.code;
    CIs(fs);
    PendList(code2, code3, fs.pend, t, ts);
    PendValues(code2, code3, fs.pend, Elems(ts));
    ReadyTrue(fs, code1, code2, w, ts, reg, pf, pt, need);
    fs.PatchValues(t, reg, pt, true, ts);
    KeptChain(code1, code2, code3, fs.code, pend1, fs.pend);
    PutAll(fs.k, c, c1, c2, c3, fs.C(), code0, e, w, ts, reg, need);
  }

  lemma CIs(fs: FuncState)
    ensures fs.C().code == fs.code && fs.C().pend == fs.pend
  {
  }

  lemma NeedIs(code: seq<Instr>, e: ExpDesc, w: Jumps, ts: seq<nat>, needt: bool, needf: bool)
    requires needt <==> exists j :: j in ts && !HasValue(code, j)
    requires needf <==> exists j :: j in w.f && !HasValue(code, j)
    requires ts == TrueJumps(e, w) && (e.k.VJmp? ==> !HasValue(code, e.k.info))
    ensures !needt && !needf ==> forall j :: j in ts || j in w.f ==> HasValue(code, j)
    ensures e.k.VJmp? ==> needt
  {
    if e.k.VJmp? { assert e.k.info in ts; }
  }

  lemma Within(fs: FuncState)
    requires fs.Valid()
    ensures forall j {:trigger j in fs.pend} :: j in fs.pend ==> j < |fs.code|
  {
    assert fs.C().pend == fs.pend;
  }

  lemma ReadyFalse(fs: FuncState, code1: seq<Instr>, w: Jumps, reg: nat, pf: int, pt: int, need: bool)
    requires fs.Valid() && Elems(w.f) <= fs.pend && forall j {:trigger j in fs.pend} :: j in fs.pend ==> j < |code1|
    requires if need then pf == |fs.code| - 2 && pt == |fs.code| - 1 && pf >= |code1| && pf > 0 && fs.code[pf - 1].Jmp?
        && fs.code[pf] == LoadBool(reg, false, true)
             else pf == NO_JUMP && fs.code == code1 && forall j :: j in w.f ==> HasValue(code1, j)
    ensures PatchReady(fs.C(), Elems(w.f), reg, pf, false) && (0 <= pf <= |fs.code| ==> Landing(fs.code, pf))
  {
    hide HasValue;
    assert fs.C().pend == fs.pend && fs.C().code == fs.code;
    LoadsReady(fs.C(), fs.lasttarget, Elems(w.f), reg, pf, false, need);
  }

  lemma ReadyTrue(fs: FuncState, code1: seq<Instr>, code2: seq<Instr>, w: Jumps, ts: seq<nat>, reg: nat, pf: int,
      pt: int, need: bool)
    requires fs.Valid() && Elems(ts) <= fs.pend && forall j {:trigger j in fs.pend} :: j in fs.pend ==> j < |code1|
    requires PatchedTo(code2, fs.code, Elems(w.f), reg, |code2|, pf) && forall j :: j in Elems(w.f) ==> j < |code1|
    requires if need then pf == |code2| - 2 && pt == |code2| - 1 && pf >= |code1|
        && code2[pf] == LoadBool(reg, false, true) && code2[pt] == LoadBool(reg, true, false)
             else pt == NO_JUMP && code2 == code1 && forall j :: j in ts ==> HasValue(code1, j)
    requires SameValues(code2, fs.code, Elems(ts))
    ensures PatchReady(fs.C(), Elems(ts), reg, pt, true) && (0 <= pt <= |fs.code| ==> Landing(fs.code, pt))
  {
    assert fs.C().pend == fs.pend && fs.C().code == fs.code;
    if need {
      assert fs.code[pt] == PatchAt(code2, Elems(w.f), reg, |code2|, pf, pt);
      assert fs.code[pf] == PatchAt(code2, Elems(w.f), reg, |code2|, pf, pf);
    } else {
      forall j | j in Elems(ts) ensures HasValue(fs.code, j) {
        var r: Regs := map[];
        assert ExitValue(fs.code, j, r, true) == ExitValue(code2, j, r, true);
      }
    }
    hide HasValue;
    LoadsReady(fs.C(), fs.lasttarget, Elems(ts), reg, pt, true, need);
  }

  lemma KeptChain(a: seq<Instr>, b: seq<Instr>, c: seq<Instr>, d: seq<Instr>, pend: set<nat>, left: set<nat>)
    requires left <= pend
    requires forall i {:trigger i in pend} :: i in pend ==> KeptJump(a, b, i)
    requires forall i {:trigger i in left} :: i in left ==> KeptJump(b, c, i) && KeptJump(c, d, i)
    ensures forall i {:trigger i in left} :: i in left ==> KeptJump(a, d, i)
  {
    forall i | i in left ensures KeptJump(a, d, i) {
      assert i in pend;
      KeptTrans(a, b, c, i);
      KeptTrans(a, c, d, i);
    }
  }

  /** The core is in order and does not have the own jump of e. */
  ghost predicate CoreApart(c: Code, e: ExpDesc) {
    Wf(c) && (e.k.VJmp? ==> e.k.info !in c.pend)
  }

  lemma CoreIsApart(fs: FuncState, e: ExpDesc, w: Jumps, base: nat)
    requires Shape(fs, e, w, base) && Ok(Core(fs, e), fs.lasttarget)
    ensures CoreApart(Core(fs, e), e)
  {
  }

  lemma PutAll(k: seq<Value>, c: Code, c1: Code, c2: Code, c3: Code, c4: Code, code0: seq<Instr>, e: ExpDesc, w: Jumps,
      ts: seq<nat>, reg: nat, need: bool)
    requires ts == TrueJumps(e, w) && (e.k.VJmp? ==> need && !HasValue(c1.code, e.k.info)) && Elems(ts) !! Elems(w.f)
    requires Readies(k, c, c1, code0, e, reg) && SameValues(code0, c1.code, All(w)) && CoreApart(c, e)
    requires SameValues(c1.code, c2.code, Elems(ts) + Elems(w.f)) && SameValues(c2.code, c3.code, Elems(ts))
    requires forall env, r {:trigger Exec(env, c2, 0, r)} ::
      Exec(env, c2, 0, r) == if need && e.k.VJmp? then AppendOut(env, LoadBool(reg, false, true), Exec(env, c1, 0, r))
          else Exec(env, c1, 0, r)
    requires forall env, r {:trigger Exec(env, c3, 0, r)} :: Exec(env, c3, 0, r) == PatchOut(c2.code, Elems(w.f), reg,
        false, Exec(env, c2, 0, r))
    requires forall env, r {:trigger Exec(env, c4, 0, r)} :: Exec(env, c4, 0, r) == PatchOut(c3.code, Elems(ts), reg,
        true, Exec(env, c3, 0, r))
    ensures Puts(k, c, c4, code0, e, w, reg)
  {
    hide Exec, Wf;
    forall env: Env, r | k <= env.k ensures PutAt(env, Exec(env, c, 0, r), Exec(env, c4, 0, r), code0, e, w, reg) {
      var o, o1, o2, o3 := Exec(env, c, 0, r), Exec(env, c1, 0, r), Exec(env, c2, 0, r), Exec(env, c3, 0, r);
      assert ReadyAt(env, o, o1, code0, e, reg);
      NotStuck(env, c, 0, r);
      PutOne(env, o, o1, o2, o3, Exec(env, c4, 0, r), code0, c1.code, c2.code, c3.code, e, w, ts, reg);
    }
  }

  /** One run through the discharge, the LOADBOOLs and the two patches. */
  lemma PutOne(env: Env, o: Out, o1: Out, o2: Out, o3: Out, o4: Out, code0: seq<Instr>, code1: seq<Instr>,
      code2: seq<Instr>, code3: seq<Instr>,
               e: ExpDesc, w: Jumps, ts: seq<nat>, reg: nat)
    requires ts == TrueJumps(e, w) && (e.k.VJmp? ==> !HasValue(code1, e.k.info)) && Elems(ts) !! Elems(w.f)
    requires ReadyAt(env, o, o1, code0, e, reg) && (o.Exit? && e.k.VJmp? ==> o.j != e.k.info)
    requires SameValues(code0, code1, All(w)) && SameValues(code1, code2, Elems(ts) + Elems(w.f))
        && SameValues(code2, code3, Elems(ts))
    requires o2 == if e.k.VJmp? then AppendOut(env, LoadBool(reg, false, true), o1) else o1
    requires o3 == PatchOut(code2, Elems(w.f), reg, false, o2) && o4 == PatchOut(code3, Elems(ts), reg, true, o3)
    ensures PutAt(env, o, o4, code0, e, w, reg)
  {
    hide HasValue, Control;
    assert e.k.VJmp? ==> Elems(ts) == Elems(w.t) + {e.k.info};
    assert SameValues(code0, code2, All(w)) by {
      assert SameValues(code1, code2, All(w)) by { SameValuesSub(code1, code2, Elems(ts) + Elems(w.f), All(w)); }
      SameValuesTrans(code0, code1, code2, All(w));
    }
    if o.Exit? {
      var j, r := o.j, o.r;
      if j in w.t {
        assert ExitValue(code3, j, r, true) == ExitValue(code2, j, r, true) == ExitValue(code0, j, r, true);
      } else if j in w.f {
        assert ExitValue(code2, j, r, false) == ExitValue(code0, j, r, false);
      }
    } else if o.Fall? && e.k.VJmp? {
      var p := e.k.info;
      assert p in Elems(ts) && ExitValue(code3, p, o.r, true) == ExitValue(code2, p, o.r, true)
          == ExitValue(code1, p, o.r, true) == Bool(true) by {
        PlainExit(code1, p, o.r, true);
      }
    }
  }

  lemma PlainExit(code: seq<Instr>, j: nat, r: Regs, v: bool)
    requires !HasValue(code, j)
    ensures ExitValue(code, j, r, v) == Bool(v)
  {
  }

  lemma SameValuesSub(a: seq<Instr>, b: seq<Instr>, l: set<nat>, m: set<nat>)
    requires SameValues(a, b, l) && m <= l
    ensures SameValues(a, b, m)
  {
    forall j: nat, r, v | j in m ensures ExitValue(b, j, r, v) == ExitValue(a, j, r, v)
        && HasValue(b, j) == HasValue(a, j) {
      assert j in l;
      assert ExitValue(b, j, r, v) == ExitValue(a, j, r, v) && HasValue(b, j) == HasValue(a, j);
    }
  }

  lemma KeptRest(a: seq<Instr>, b: seq<Instr>, d: seq<Instr>, pend: set<nat>, left: set<nat>, e: ExpDesc, w: Jumps,
      ts: seq<nat>)
    requires left == pend - All(w) - Own(e)
    requires forall i {:trigger i in pend} :: i in pend && i !in Own(e) && i !in Elems(w.t) ==> KeptJump(a, b, i)
    requires forall i {:trigger i in left} :: i in left ==> KeptJump(b, d, i)
    ensures forall i {:trigger i in left} :: i in left ==> KeptJump(a, d, i)
  {
    forall i | i in left ensures KeptJump(a, d, i) {
      assert i in pend;
      KeptTrans(a, b, d, i);
    }
  }
}
