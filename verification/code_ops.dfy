/**
 * What the operations on expressions under construction mean: jumps on conditions, not, comparisons (lcode.c:502-740).
 */
module CodeOps {
  import opened CodeVm
  import opened CodeLists
  import opened CodeGen
  import opened CodeExp

  datatype RelOp = OpEQ | OpLT | OpLE | OpNE | OpGT | OpGE

  datatype Ast =
    | ANil | ATrue | AFalse | ANum(n: int) | AStr(s: string) | ALocal(i: nat)
    | ANot(a: Ast) | AAnd(a: Ast, b: Ast) | AOr(a: Ast, b: Ast) | ARel(op: RelOp, a: Ast, b: Ast)

  function Rel(env: Env, op: RelOp, x: Value, y: Value): bool {
    match op
    case OpEQ => env.cmp(EQ, x, y)
    case OpLT => env.cmp(LT, x, y)
    case OpLE => env.cmp(LE, x, y)
    case OpNE => !env.cmp(EQ, x, y)
    case OpGT => env.cmp(LT, y, x)
    case OpGE => env.cmp(LE, y, x)
  }

  /** The value of an expression, with the short-circuit meaning of and and or. */
  function Eval(env: Env, a: Ast, r: Regs): Value {
    match a
    case ANil => Nil
    case ATrue => Bool(true)
    case AFalse => Bool(false)
    case ANum(n) => Num(n)
    case AStr(s) => Str(s)
    case ALocal(i) => Get(r, i)
    case ANot(x) => Bool(!Truthy(Eval(env, x, r)))
    case AAnd(x, y) => if Truthy(Eval(env, x, r)) then Eval(env, y, r) else Eval(env, x, r)
    case AOr(x, y) => if Truthy(Eval(env, x, r)) then Eval(env, x, r) else Eval(env, y, r)
    case ARel(op, x, y) => Bool(Rel(env, op, Eval(env, x, r), Eval(env, y, r)))
  }

  // ---- What the operators mean

  /** The comparisons are those of the integers, on numbers. */
  ghost predicate NumberOrder(env: Env) {
    forall m, n :: (env.cmp(EQ, Num(m), Num(n)) <==> m == n) && (env.cmp(LT, Num(m), Num(n)) <==> m < n)
      && (env.cmp(LE, Num(m), Num(n)) <==> m <= n)
  }

  predicate Compares(op: RelOp, m: int, n: int) {
    match op
    case OpEQ => m == n
    case OpLT => m < n
    case OpLE => m <= n
    case OpNE => m != n
    case OpGT => m > n
    case OpGE => m >= n
  }

  /** On numbers the six comparisons are those of the integers. */
  lemma EvalCompares(env: Env, op: RelOp, a: Ast, b: Ast, r: Regs, m: int, n: int)
    requires NumberOrder(env) && Eval(env, a, r) == Num(m) && Eval(env, b, r) == Num(n)
    ensures Eval(env, ARel(op, a, b), r) == Bool(Compares(op, m, n))
  {
    assert env.cmp(EQ, Num(m), Num(n)) <==> m == n;
    assert env.cmp(EQ, Num(n), Num(m)) <==> n == m;
  }

  /** On all values the last three are the first three, negated or with the operands exchanged. */
  lemma EvalMirrored(env: Env, a: Ast, b: Ast, r: Regs)
    ensures Eval(env, ARel(OpGT, a, b), r) == Eval(env, ARel(OpLT, b, a), r)
    ensures Eval(env, ARel(OpGE, a, b), r) == Eval(env, ARel(OpLE, b, a), r)
    ensures Eval(env, ARel(OpNE, a, b), r) == Eval(env, ANot(ARel(OpEQ, a, b)), r)
  {
  }

  /** Nil and false are the values that count as false; and, or give one of their operands. */
  lemma EvalLogic(env: Env, a: Ast, b: Ast, r: Regs)
    ensures var v := Eval(env, a, r);
      if v == Nil || v == Bool(false) then
        && Eval(env, ANot(a), r) == Bool(true) && Eval(env, AAnd(a, b), r) == v
        && Eval(env, AOr(a, b), r) == Eval(env, b, r)
      else
        && Eval(env, ANot(a), r) == Bool(false) && Eval(env, AAnd(a, b), r) == Eval(env, b, r)
        && Eval(env, AOr(a, b), r) == v
  {
  }

  predicate Uses(a: Ast, n: nat) {
    match a
    case ALocal(i) => i < n
    case ANot(x) => Uses(x, n)
    case AAnd(x, y) => Uses(x, n) && Uses(y, n)
    case AOr(x, y) => Uses(x, n) && Uses(y, n)
    case ARel(_, x, y) => Uses(x, n) && Uses(y, n)
    case _ => true
  }

  ghost predicate SameBelow(n: nat, r: Regs, s: Regs) {
    forall i: nat {:trigger Get(s, i)} {:trigger Get(r, i)} :: i < n ==> Get(s, i) == Get(r, i)
  }

  lemma {:induction false} EvalSame(env: Env, a: Ast, n: nat, r: Regs, s: Regs)
    requires Uses(a, n) && SameBelow(n, r, s)
    ensures Eval(env, a, s) == Eval(env, a, r)
  {
    match a {
      case ALocal(i) => assert Get(s, i) == Get(r, i);
      case ANot(x) => EvalSame(env, x, n, r, s);
      case AAnd(x, y) => EvalSame(env, x, n, r, s); EvalSame(env, y, n, r, s);
      case AOr(x, y) => EvalSame(env, x, n, r, s); EvalSame(env, y, n, r, s);
      case ARel(_, x, y) => EvalSame(env, x, n, r, s); EvalSame(env, y, n, r, s);
      case _ =>
    }
  }

  // ---- What code for an expression does

  /**
   * A run that leaves through one of the lists of w: the value v is on the side of that list, and the jump brings it.
   */
  ghost predicate LeavesAt(code: seq<Instr>, w: Jumps, base: nat, r0: Regs, v: Value, j: nat, r: Regs) {
    && SameBelow(base, r0, r)
    && (if j in w.t then Truthy(v) && ExitValue(code, j, r, true) == v
        else j in w.f && !Truthy(v) && ExitValue(code, j, r, false) == v)
  }

  /**
   * A run that came to the start of the code of e with registers r0 falls through with the value v, or leaves with it.
   */
  ghost predicate ResultAt(env: Env, o: Out, code: seq<Instr>, e: ExpDesc, w: Jumps, base: nat, r0: Regs, v: Value) {
    match o
    case Stuck => false
    case Fall(r) => SameBelow(base, r0, r) && FallValue(env, code, e, r) == v
    case Exit(j, r) => LeavesAt(code, w, base, r0, v, j, r)
  }

  ghost predicate MeansAt(env: Env, o0: Out, o: Out, code: seq<Instr>, e: ExpDesc, w: Jumps, base: nat, a: Ast) {
    match o0
    case Stuck => true
    case Fall(r0) => ResultAt(env, o, code, e, w, base, r0, Eval(env, a, r0))
    case Exit(_, _) => o == o0
  }

  /**
   * From the code c0 on, the code of e computes a: every run that came to the end of c0 goes on and has the value of a
   * in the place that e says, without a change to the registers below base; runs that left c0 before leave in the same
   * way.
   */
  ghost predicate Means(c0: Code, core: Code, code: seq<Instr>, k: seq<Value>, e: ExpDesc, w: Jumps, base: nat,
      a: Ast) {
    forall env: Env, r {:trigger Exec(env, core, 0, r)} :: k <= env.k
        ==> MeansAt(env, Exec(env, c0, 0, r), Exec(env, core, 0, r), code, e, w, base, a)
  }

  ghost predicate KeptAll(a: seq<Instr>, b: seq<Instr>, l: set<nat>) {
    forall i {:trigger i in l} :: i in l ==> KeptJump(a, b, i)
  }

  /** The registers in use above base. */
  function Temps(e: ExpDesc, nactvar: nat): nat {
    if e.k.VNonReloc? && e.k.info >= nactvar then 1 else 0
  }

  /** e is the expression a, compiled from the code c0 on. */
  ghost predicate Compiled(fs: FuncState, e: ExpDesc, w: Jumps, base: nat, c0: Code, a: Ast)
    reads fs
  {
    && Shape(fs, e, w, base) && fs.freereg == base + Temps(e, fs.nactvar) && Uses(a, fs.nactvar)
    && fs.pend == c0.pend + All(w) + Own(e) && c0.pend !! All(w) + Own(e)
    && KeptAll(c0.code, fs.code, c0.pend)
    && Means(c0, Core(fs, e), fs.code, fs.k, e, w, base, a)
  }

  ghost function NoJumps(): Jumps { Jumps([], []) }

  // ---- exp2reg and what is built on it

  lemma PutMeans(env: Env, o0: Out, o: Out, o2: Out, code: seq<Instr>, code2: seq<Instr>, e: ExpDesc, w: Jumps,
      base: nat, a: Ast, reg: nat, e2: ExpDesc)
    requires MeansAt(env, o0, o, code, e, w, base, a) && PutAt(env, o, o2, code, e, w, reg) && reg >= base
        && e2 == ExpDesc(VNonReloc(reg), NO_JUMP, NO_JUMP)
    requires o0.Exit? ==> o0.j !in w.t && o0.j !in w.f
    ensures MeansAt(env, o0, o2, code2, e2, NoJumps(), base, a)
  {
    hide Exec, HasValue, Control;
  }

  lemma PutsMean(k0: seq<Value>, k: seq<Value>, c0: Code, c: Code, d: Code, code: seq<Instr>, code2: seq<Instr>,
      e: ExpDesc, w: Jumps, base: nat, a: Ast, reg: nat, e2: ExpDesc)
    requires Means(c0, c, code, k0, e, w, base, a) && Puts(k, c, d, code, e, w, reg) && reg >= base
        && e2 == ExpDesc(VNonReloc(reg), NO_JUMP, NO_JUMP)
    requires k0 <= k && Wf(c0) && c0.pend !! All(w)
    ensures Means(c0, d, code2, k, e2, NoJumps(), base, a)
  {
    hide Exec, Wf;
    forall env: Env, r | k <= env.k ensures MeansAt(env, Exec(env, c0, 0, r), Exec(env, d, 0, r), code2, e2, NoJumps(),
        base, a) {
      NotStuck(env, c0, 0, r);
      assert MeansAt(env, Exec(env, c0, 0, r), Exec(env, c, 0, r), code, e, w, base, a);
      PutMeans(env, Exec(env, c0, 0, r), Exec(env, c, 0, r), Exec(env, d, 0, r), code, code2, e, w, base, a, reg, e2);
    }
  }

  lemma CompiledParts(fs: FuncState, e: ExpDesc, w: Jumps, base: nat, c0: Code, a: Ast)
    requires Compiled(fs, e, w, base, c0, a)
    ensures Shape(fs, e, w, base) && fs.freereg == base + Temps(e, fs.nactvar) && fs.nactvar <= base
        && Uses(a, fs.nactvar)
    ensures fs.pend == c0.pend + All(w) + Own(e) && c0.pend !! All(w) + Own(e)
    ensures KeptAll(c0.code, fs.code, c0.pend) && Means(c0, Core(fs, e), fs.code, fs.k, e, w, base, a)
    ensures e.k.VNonReloc? ==> e.k.info < fs.nactvar || e.k.info == base
  {
  }

  /** The value of e is put into register reg: base, or the temporary register where it is. */
  method PutInReg(fs: FuncState, e: ExpDesc, reg: nat, ghost w: Jumps, ghost base: nat, ghost c0: Code, ghost a: Ast)
      returns (e2: ExpDesc)
    requires Shape(fs, e, w, base) && Uses(a, fs.nactvar) && fs.pend == c0.pend + All(w) + Own(e)
        && c0.pend !! All(w) + Own(e)
    requires KeptAll(c0.code, fs.code, c0.pend) && Means(c0, Core(fs, e), fs.code, fs.k, e, w, base, a) && Wf(c0)
    requires reg == base && fs.freereg == base + 1 && fs.nactvar <= base
    modifies fs`code, fs`jpc, fs`js, fs`k, fs`pend, fs`lasttarget
    ensures e2 == ExpDesc(VNonReloc(reg), NO_JUMP, NO_JUMP) && Compiled(fs, e2, NoJumps(), base, c0, a)
        && old(fs.k) <= fs.k
  {
    hide *;
    ghost var c, code, k0 := Core(fs, e), fs.code, fs.k;
    e2 := Exp2Reg(fs, e, reg, w, base);
    DisjointParts(c0.pend, w, e);
    PutsMean(k0, fs.k, c0, c, fs.C(), code, fs.code, e, w, base, a, reg, e2);
    KeptMore(c0.code, code, fs.code, c0.pend, fs.pend);
    InRegister(fs, e2, base, c0, a, reg);
  }

  lemma DisjointParts(p: set<nat>, w: Jumps, e: ExpDesc)
    requires p !! All(w) + Own(e)
    ensures p !! All(w) && p !! Own(e) && p + All(w) + Own(e) - All(w) - Own(e) == p
  {
  }

  lemma KeptMore(a: seq<Instr>, b: seq<Instr>, d: seq<Instr>, l: set<nat>, m: set<nat>)
    requires KeptAll(a, b, l) && l <= m && forall i {:trigger i in m} :: i in m ==> KeptJump(b, d, i)
    ensures KeptAll(a, d, l)
  {
    forall i | i in l ensures KeptJump(a, d, i) { assert i in m; KeptTrans(a, b, d, i); }
  }

  lemma InRegister(fs: FuncState, e: ExpDesc, base: nat, c0: Code, a: Ast, reg: nat)
    requires fs.Valid() && e == ExpDesc(VNonReloc(reg), NO_JUMP, NO_JUMP) && fs.pend == c0.pend
        && KeptAll(c0.code, fs.code, c0.pend) && Uses(a, fs.nactvar)
    requires Means(c0, fs.C(), fs.code, fs.k, e, NoJumps(), base, a)
    requires fs.nactvar <= base && reg == base && fs.freereg == base + 1
    ensures Compiled(fs, e, NoJumps(), base, c0, a)
  {
  }

  // ---- Registers (lcode.c:262-290, 407-470)

  /** luaK_dischargevars, for what is modelled: a local variable is in its register. */
  function DischargeVars(e: ExpDesc): ExpDesc {
    if e.k.VLocal? then e.(k := VNonReloc(e.k.info)) else e
  }

  lemma VarsCompiled(fs: FuncState, e: ExpDesc, w: Jumps, base: nat, c0: Code, a: Ast)
    requires Compiled(fs, e, w, base, c0, a)
    ensures Compiled(fs, DischargeVars(e), w, base, c0, a)
    ensures DischargeVars(e).t == e.t && DischargeVars(e).f == e.f && !DischargeVars(e).k.VLocal?
    ensures DischargeVars(e) == e || (e.k.VLocal? && DischargeVars(e).k == VNonReloc(e.k.info))
    ensures Temps(DischargeVars(e), fs.nactvar) == Temps(e, fs.nactvar)
  {
    hide Exec, Ok, IsList;
    var e2 := DischargeVars(e);
    if e.k.VLocal? {
      assert Core(fs, e2) == Core(fs, e);
      forall env: Env, r | fs.k <= env.k
        ensures MeansAt(env, Exec(env, c0, 0, r), Exec(env, Core(fs, e2), 0, r), fs.code, e2, w, base, a)
      {
        assert MeansAt(env, Exec(env, c0, 0, r), Exec(env, Core(fs, e), 0, r), fs.code, e, w, base, a);
      }
    }
  }

  /** freeexp */
  method FreeExp(fs: FuncState, e: ExpDesc)
    requires fs.freereg >= Temps(e, fs.nactvar)
    modifies fs`freereg
    ensures fs.freereg == old(fs.freereg) - Temps(e, fs.nactvar)
  {
    if e.k.VNonReloc? && e.k.info >= fs.nactvar {
      fs.freereg := fs.freereg - 1;
    }
  }

  method Exp2NextReg(fs: FuncState, e: ExpDesc, ghost w: Jumps, ghost base: nat, ghost c0: Code, ghost a: Ast)
      returns (e2: ExpDesc)
    requires Compiled(fs, e, w, base, c0, a) && Wf(c0)
    modifies fs`code, fs`jpc, fs`js, fs`k, fs`pend, fs`lasttarget, fs`freereg
    ensures e2 == ExpDesc(VNonReloc(base), NO_JUMP, NO_JUMP) && Compiled(fs, e2, NoJumps(), base, c0, a)
        && old(fs.k) <= fs.k
    ensures fs.freereg == base + 1
  {
    hide *;
    var e1 := DischargeVars(e);
    VarsCompiled(fs, e, w, base, c0, a);
    CompiledParts(fs, e1, w, base, c0, a);
    FreeExp(fs, e1);
    fs.freereg := fs.freereg + 1;  // luaK_reserveregs(fs, 1)
    e2 := PutInReg(fs, e1, fs.freereg - 1, w, base, c0, a);
  }

  /** No list is left if the two heads are equal. */
  lemma NoLists(fs: FuncState, e: ExpDesc, w: Jumps, base: nat)
    requires Shape(fs, e, w, base) && e.t == e.f
    ensures w == NoJumps() && e.t == NO_JUMP && e.f == NO_JUMP
  {
    HeadIn(fs.code, e.t, w.t);
    HeadIn(fs.code, e.f, w.f);
  }

  method Exp2AnyReg(fs: FuncState, e: ExpDesc, ghost w: Jumps, ghost base: nat, ghost c0: Code, ghost a: Ast)
      returns (r: nat, e2: ExpDesc)
    requires Compiled(fs, e, w, base, c0, a) && Wf(c0)
    modifies fs`code, fs`jpc, fs`js, fs`k, fs`pend, fs`lasttarget, fs`freereg
    ensures e2 == ExpDesc(VNonReloc(r), NO_JUMP, NO_JUMP) && Compiled(fs, e2, NoJumps(), base, c0, a)
        && old(fs.k) <= fs.k
  {
    hide *;
    var e1 := DischargeVars(e);
    VarsCompiled(fs, e, w, base, c0, a);
    CompiledParts(fs, e1, w, base, c0, a);
    if e1.k.VNonReloc? {
      r := e1.k.info;
      if e1.t == e1.f {  // no jump brings another value
        NoLists(fs, e1, w, base);
        e2 := e1;
        return;
      }
      if e1.k.info >= fs.nactvar {
        TempsOne(e1, fs.nactvar);
        e2 := PutInReg(fs, e1, e1.k.info, w, base, c0, a);
        return;
      }
    }
    e2 := Exp2NextReg(fs, e1, w, base, c0, a);
    r := e2.k.info;
  }

  lemma TempsOne(e: ExpDesc, nactvar: nat)
    requires e.k.VNonReloc?
    ensures Temps(e, nactvar) == if e.k.info >= nactvar then 1 else 0
  {
  }

  /** luaK_exp2val */
  method Exp2Val(fs: FuncState, e: ExpDesc, ghost w: Jumps, ghost base: nat, ghost c0: Code, ghost a: Ast)
      returns (e2: ExpDesc)
    requires Compiled(fs, e, w, base, c0, a) && Wf(c0)
    modifies fs`code, fs`jpc, fs`js, fs`k, fs`pend, fs`lasttarget, fs`freereg
    ensures e2.t == NO_JUMP && e2.f == NO_JUMP && Compiled(fs, e2, NoJumps(), base, c0, a) && old(fs.k) <= fs.k
  {
    hide *;
    if e.t != e.f {
      var r;
      r, e2 := Exp2AnyReg(fs, e, w, base, c0, a);
    } else {
      VarsCompiled(fs, e, w, base, c0, a);
      e2 := DischargeVars(e);
      CompiledParts(fs, e2, w, base, c0, a);
      NoLists(fs, e2, w, base);
    }
  }

  const MAXINDEXRK := 255

  /** luaK_exp2RK: a constant with a small index, or a register. */
  method Exp2RK(fs: FuncState, e: ExpDesc, ghost w: Jumps, ghost base: nat, ghost c0: Code, ghost a: Ast)
      returns (o: Operand, e2: ExpDesc)
    requires Compiled(fs, e, w, base, c0, a) && Wf(c0)
    modifies fs`code, fs`jpc, fs`js, fs`k, fs`pend, fs`lasttarget, fs`freereg
    ensures e2.t == NO_JUMP && e2.f == NO_JUMP && Compiled(fs, e2, NoJumps(), base, c0, a) && old(fs.k) <= fs.k
    ensures (o.Reg? && e2.k == VNonReloc(o.r)) || (o.Const? && e2.k == VK(o.k) && o.k <= MAXINDEXRK)
  {
    hide *;
    var e1 := Exp2Val(fs, e, w, base, c0, a);
    if e1.k.VTrue? || e1.k.VFalse? || e1.k.VNil? {
      if |fs.k| <= MAXINDEXRK {
        var i;
        i, e2 := ConstOf(fs, e1, if e1.k.VNil? then Nil else Bool(e1.k.VTrue?), base, c0, a);
        return Const(i), e2;
      }
    } else if e1.k.VKNum? {
      var i;
      i, e1 := ConstOf(fs, e1, Num(e1.k.n), base, c0, a);
      if i <= MAXINDEXRK { return Const(i), e1; }
    } else if e1.k.VK? {
      if e1.k.info <= MAXINDEXRK { return Const(e1.k.info), e1; }
    }
    // a value that no constant index can name goes to a register
    var r;
    r, e2 := Exp2AnyReg(fs, e1, NoJumps(), base, c0, a);
    o := Reg(r);
  }

  /** A constant expression as an index into the constants. */
  method ConstOf(fs: FuncState, e: ExpDesc, v: Value, ghost base: nat, ghost c0: Code, ghost a: Ast)
      returns (i: nat, e2: ExpDesc)
    requires Compiled(fs, e, NoJumps(), base, c0, a) && e.t == NO_JUMP && e.f == NO_JUMP
    requires match e.k case VNil => v == Nil case VTrue => v == Bool(true) case VFalse => v == Bool(false)
        case VKNum(n) => v == Num(n) case _ => false
    modifies fs`k
    ensures e2 == ExpDesc(VK(i), NO_JUMP, NO_JUMP) && Compiled(fs, e2, NoJumps(), base, c0, a) && old(fs.k) <= fs.k
    ensures i < |fs.k| && i <= |old(fs.k)|
  {
    hide *;
    ghost var k0, core := fs.k, Core(fs, e);
    CompiledParts(fs, e, NoJumps(), base, c0, a);
    ShapeParts(fs, e, NoJumps(), base);
    i := AddK(fs, v);
    e2 := ExpDesc(VK(i), NO_JUMP, NO_JUMP);
    ConstMeans(k0, fs.k, c0, core, fs.code, e, v, i, base, a);
    ConstKind(fs, e);
    ConstCompiled(fs, e, e2, k0, core, base, c0, a);
  }

  lemma ConstMeans(k0: seq<Value>, k: seq<Value>, c0: Code, core: Code, code: seq<Instr>, e: ExpDesc, v: Value, i: nat,
      base: nat, a: Ast)
    requires Means(c0, core, code, k0, e, NoJumps(), base, a) && k0 <= k && i < |k| && k[i] == v
    requires match e.k case VNil => v == Nil case VTrue => v == Bool(true) case VFalse => v == Bool(false)
        case VKNum(n) => v == Num(n) case _ => false
    ensures Means(c0, core, code, k, ExpDesc(VK(i), NO_JUMP, NO_JUMP), NoJumps(), base, a)
  {
    hide Exec;
    var e2 := ExpDesc(VK(i), NO_JUMP, NO_JUMP);
    forall env: Env, r | k <= env.k ensures MeansAt(env, Exec(env, c0, 0, r), Exec(env, core, 0, r), code, e2,
        NoJumps(), base, a) {
      assert MeansAt(env, Exec(env, c0, 0, r), Exec(env, core, 0, r), code, e, NoJumps(), base, a);
      assert env.k[i] == k[i];
    }
  }

  lemma ConstCompiled(fs: FuncState, e: ExpDesc, e2: ExpDesc, k0: seq<Value>, core: Code, base: nat, c0: Code, a: Ast)
    requires fs.Valid() && fs.nactvar <= base && Uses(a, fs.nactvar) && fs.freereg == base + Temps(e, fs.nactvar)
    requires fs.pend == c0.pend + All(NoJumps()) + Own(e) && KeptAll(c0.code, fs.code, c0.pend) && !e.k.VJmp?
        && !e.k.VReloc? && !e.k.VNonReloc?
    requires e2.k.VK? && e2 == ExpDesc(e2.k, NO_JUMP, NO_JUMP) && e2.k.info < |fs.k|
    requires core == fs.C() && Means(c0, core, fs.code, fs.k, e2, NoJumps(), base, a)
    ensures Compiled(fs, e2, NoJumps(), base, c0, a)
  {
  }

  lemma ConstKind(fs: FuncState, e: ExpDesc)
    requires e.k.VNil? || e.k.VTrue? || e.k.VFalse? || e.k.VKNum?
    ensures Core(fs, e) == fs.C()
  {
  }

  // ---- Jumps on conditions (lcode.c:552-640)

  lemma StoredMeans(env: Env, o0: Out, o: Out, o2: Out, code: seq<Instr>, code2: seq<Instr>, e: ExpDesc, w: Jumps,
      base: nat, a: Ast, reg: nat, e2: ExpDesc)
    requires MeansAt(env, o0, o, code, e, w, base, a) && StoredAt(env, o, o2, code, e, reg) && reg >= base
        && e2.k == VNonReloc(reg)
    requires SameValues(code, code2, All(w))
    ensures MeansAt(env, o0, o2, code2, e2, w, base, a)
  {
    hide Exec, HasValue, Control;
  }

  lemma StoresMean(k0: seq<Value>, k: seq<Value>, c0: Code, c: Code, d: Code, code: seq<Instr>, code2: seq<Instr>,
      e: ExpDesc, w: Jumps, base: nat, a: Ast, reg: nat, e2: ExpDesc)
    requires Means(c0, c, code, k0, e, w, base, a) && Stores(k, c, d, code, e, reg) && reg >= base
        && e2.k == VNonReloc(reg) && k0 <= k
    requires SameValues(code, code2, All(w))
    ensures Means(c0, d, code2, k, e2, w, base, a)
  {
    hide Exec;
    forall env: Env, r | k <= env.k ensures MeansAt(env, Exec(env, c0, 0, r), Exec(env, d, 0, r), code2, e2, w,
        base, a) {
      assert MeansAt(env, Exec(env, c0, 0, r), Exec(env, c, 0, r), code, e, w, base, a);
      StoredMeans(env, Exec(env, c0, 0, r), Exec(env, c, 0, r), Exec(env, d, 0, r), code, code2, e, w, base, a,
          reg, e2);
    }
  }

  /** discharge2anyreg: the lists of e stay. */
  method Discharge2AnyReg(fs: FuncState, e: ExpDesc, ghost w: Jumps, ghost base: nat, ghost c0: Code, ghost a: Ast)
      returns (e2: ExpDesc)
    requires Compiled(fs, e, w, base, c0, a) && !e.k.VJmp?
    modifies fs`code, fs`jpc, fs`js, fs`k, fs`freereg
    ensures Compiled(fs, e2, w, base, c0, a) && e2.k.VNonReloc? && e2.t == e.t && e2.f == e.f && old(fs.k) <= fs.k
  {
    hide *;
    if e.k.VNonReloc? { return e; }
    CompiledParts(fs, e, w, base, c0, a);
    TempsNone(e, fs.nactvar);
    ShapeParts(fs, e, w, base);
    OwnIs(e);
    ghost var c, code, k0 := Core(fs, e), fs.code, fs.k;
    fs.freereg := fs.freereg + 1;  // luaK_reserveregs(fs, 1)
    e2 := Discharge2Reg(fs, e, fs.freereg - 1, w, base);
    PendValues(code, fs.code, fs.pend, All(w));
    StoresMean(k0, fs.k, c0, c, fs.C(), code, fs.code, e, w, base, a, base, e2);
    KeptSub(c0.code, code, fs.code, c0.pend, fs.pend);
    ListsKept(fs, code, e, w);
    InAnyRegister(fs, e2, w, base, c0, a);
  }

  lemma TempsNone(e: ExpDesc, nactvar: nat)
    requires !e.k.VNonReloc?
    ensures Temps(e, nactvar) == 0
  {
  }

  lemma KeptSub(a: seq<Instr>, b: seq<Instr>, d: seq<Instr>, l: set<nat>, m: set<nat>)
    requires KeptAll(a, b, l) && (forall i {:trigger i in m} :: i in m ==> KeptJump(b, d, i)) && l <= m
    ensures KeptAll(a, d, l)
  {
    forall i | i in l ensures KeptJump(a, d, i) { assert i in m; KeptTrans(a, b, d, i); }
  }

  lemma InAnyRegister(fs: FuncState, e: ExpDesc, w: Jumps, base: nat, c0: Code, a: Ast)
    requires fs.Valid() && e.k == VNonReloc(base) && fs.nactvar <= base && fs.freereg == base + 1 && Uses(a, fs.nactvar)
    requires IsList(fs.code, e.t, w.t) && IsList(fs.code, e.f, w.f) && All(w) <= fs.pend && Elems(w.t) !! Elems(w.f)
    requires fs.pend == c0.pend + All(w) + {} && c0.pend !! All(w) + {} && KeptAll(c0.code, fs.code, c0.pend)
    requires Means(c0, fs.C(), fs.code, fs.k, e, w, base, a)
    ensures Compiled(fs, e, w, base, c0, a)
  {
  }

  /**
   * A run that came to the code of e goes through jump j when the value is on the side of cond, and falls through
   * otherwise.
   */
  ghost predicate JumpedAt(env: Env, o0: Out, o: Out, code: seq<Instr>, w: Jumps, j: nat, cond: bool, base: nat,
      a: Ast) {
    match o0
    case Stuck => true
    case Exit(_, _) => o == o0
    case Fall(r0) =>
      var v := Eval(env, a, r0);
      match o
      case Stuck => false
      case Fall(r) => SameBelow(base, r0, r) && Truthy(v) != cond
      case Exit(i, r) => if i == j then SameBelow(base, r0, r) && Truthy(v) == cond && ExitValue(code, j, r, cond) == v
                         else LeavesAt(code, w, base, r0, v, i, r)
  }

  ghost predicate Jumped(c0: Code, d: Code, code: seq<Instr>, k: seq<Value>, w: Jumps, j: nat, cond: bool, base: nat,
      a: Ast) {
    forall env: Env, r {:trigger Exec(env, d, 0, r)} :: k <= env.k
        ==> JumpedAt(env, Exec(env, c0, 0, r), Exec(env, d, 0, r), code, w, j, cond, base, a)
  }

  /** The test decides on the value v that brought the run here. */
  predicate Decides(env: Env, test: Instr, r: Regs, v: Value, cond: bool) {
    IsTest(test) && (Taken(env, test, r) <==> Truthy(v) == cond)
        && (test.TestSet? ==> test.dst < 0 && Get(r, test.b) == v) && (!test.TestSet? ==> v.Bool?)
  }

  lemma CondJumped(env: Env, o0: Out, o: Out, code: seq<Instr>, code2: seq<Instr>, e: ExpDesc, w: Jumps, base: nat,
      a: Ast, test: Instr, j: nat, cond: bool)
    requires MeansAt(env, o0, o, code, e, w, base, a) && IsTest(test) && 0 < j < |code2| && code2[j - 1] == test
    requires o.Fall? ==> Decides(env, test, o.r, FallValue(env, code, e, o.r), cond)
    requires SameValues(code, code2, All(w)) && (o.Exit? ==> o.j != j)
    ensures JumpedAt(env, o0, CondOut(env, test, j, o), code2, w, j, cond, base, a)
  {
    hide Exec, RK, SetNils;
  }

  /** What jumponcond leaves: a jump j of its own, after the lists of e. */
  ghost predicate OnCond(fs: FuncState, e: ExpDesc, w: Jumps, base: nat, c0: Code, a: Ast, j: nat, cond: bool)
    reads fs
  {
    && fs.Valid() && fs.nactvar <= base && fs.freereg == base && Uses(a, fs.nactvar)
    && IsList(fs.code, e.t, w.t) && IsList(fs.code, e.f, w.f) && IsList(fs.code, j, [j])
    && fs.pend == c0.pend + All(w) + {j} && c0.pend !! All(w) + {j} && j !in All(w) && Elems(w.t) !! Elems(w.f)
    && KeptAll(c0.code, fs.code, c0.pend) && Jumped(c0, fs.C(), fs.code, fs.k, w, j, cond, base, a)
  }

  lemma CondsJumped(k: seq<Value>, c0: Code, c: Code, d: Code, code: seq<Instr>, code2: seq<Instr>, e: ExpDesc,
      w: Jumps, base: nat, a: Ast, test: Instr, j: nat, cond: bool)
    requires Means(c0, c, code, k, e, w, base, a) && IsTest(test) && 0 < j < |code2| && code2[j - 1] == test && Wf(c)
        && j !in c.pend
    requires forall env, r {:trigger Exec(env, d, 0, r)} ::
        Exec(env, d, 0, r) == CondOut(env, test, j, Exec(env, c, 0, r))
    requires forall env: Env, r: Regs :: Decides(env, test, r, FallValue(env, code, e, r), cond)
    requires SameValues(code, code2, All(w))
    ensures Jumped(c0, d, code2, k, w, j, cond, base, a)
  {
    hide Exec, Wf, Decides, FallValue, SameValues;
    forall env: Env, r | k <= env.k ensures JumpedAt(env, Exec(env, c0, 0, r), Exec(env, d, 0, r), code2, w, j, cond,
        base, a) {
      NotStuck(env, c, 0, r);
      assert MeansAt(env, Exec(env, c0, 0, r), Exec(env, c, 0, r), code, e, w, base, a);
      CondJumped(env, Exec(env, c0, 0, r), Exec(env, c, 0, r), code, code2, e, w, base, a, test, j, cond);
    }
  }

  /** jumponcond: the test of a NOT is turned round, any other value is tested in its register. */
  method JumpOnCond(fs: FuncState, e: ExpDesc, cond: bool, ghost w: Jumps, ghost base: nat, ghost c0: Code,
      ghost a: Ast) returns (j: nat)
    requires Compiled(fs, e, w, base, c0, a) && !e.k.VJmp? && !e.k.VLocal?
    modifies fs`code, fs`jpc, fs`js, fs`k, fs`pend, fs`freereg
    ensures OnCond(fs, e, w, base, c0, a, j, cond) && old(fs.k) <= fs.k
  {
    hide *;
    if e.k.VReloc? {
      j := JumpOnNot(fs, e, cond, w, base, c0, a);
    } else {
      var e1 := Discharge2AnyReg(fs, e, w, base, c0, a);
      j := JumpOnReg(fs, e1, cond, w, base, c0, a);
      SameLists(fs, e, e1, w, base, c0, a, j, cond);
    }
  }

  method JumpOnNot(fs: FuncState, e: ExpDesc, cond: bool, ghost w: Jumps, ghost base: nat, ghost c0: Code, ghost a: Ast)
      returns (j: nat)
    requires Compiled(fs, e, w, base, c0, a) && e.k.VReloc?
    modifies fs`code, fs`jpc, fs`js, fs`pend
    ensures OnCond(fs, e, w, base, c0, a, j, cond)
  {
    hide *;
    CompiledParts(fs, e, w, base, c0, a);
    var p := e.k.info;
    RelocFacts(fs, e, w, base);
    CoreOk(fs, e, w, base);
    ShapeParts(fs, e, w, base);
    TempsNone(e, fs.nactvar);
    OwnIs(e);
    ghost var code, c, pend := fs.code, Core(fs, e), fs.pend;
    var b := fs.code[p].b;
    fs.code := fs.code[..p];
    Removed(fs, e, w, c, code);
    ghost var code1 := fs.code;
    KeptSub(c0.code, code, code1, c0.pend, pend);
    TestFacts(b, !cond);
    j := fs.CondJump(Test(b, !cond));
    NotDecides(code, e, b, cond);
    CondDone(fs, e, w, base, c0, c, code, code1, a, Test(b, !cond), j, cond);
  }

  method JumpOnReg(fs: FuncState, e: ExpDesc, cond: bool, ghost w: Jumps, ghost base: nat, ghost c0: Code, ghost a: Ast)
      returns (j: nat)
    requires Compiled(fs, e, w, base, c0, a) && e.k.VNonReloc?
    modifies fs`code, fs`jpc, fs`js, fs`pend, fs`freereg
    ensures OnCond(fs, e, w, base, c0, a, j, cond)
  {
    hide *;
    CompiledParts(fs, e, w, base, c0, a);
    FreeExp(fs, e);
    ShapeParts(fs, e, w, base);
    ghost var code, c := fs.code, fs.C();
    ValidWf(fs);
    TestSetFacts(e.k.info, cond);
    RegDecides(code, e, cond);
    OwnIs(e);
    SameRefl(code, All(w));
    j := fs.CondJump(TestSet(NO_REG, e.k.info, cond));
    CondDone(fs, e, w, base, c0, c, code, code, a, TestSet(NO_REG, e.k.info, cond), j, cond);
  }

  lemma SameRefl(code: seq<Instr>, l: set<nat>)
    ensures SameValues(code, code, l)
  {
  }

  lemma ValidWf(fs: FuncState)
    requires fs.Valid()
    ensures Wf(fs.C()) && fs.C().pend == fs.pend && fs.C().code == fs.code
  {
  }

  lemma TestFacts(b: nat, c: bool)
    ensures IsTest(Test(b, c)) && !Test(b, c).TestSet?
  {
  }

  lemma TestSetFacts(b: nat, c: bool)
    ensures IsTest(TestSet(NO_REG, b, c)) && TestSet(NO_REG, b, c).dst == NO_REG
  {
  }

  lemma NotDecides(code: seq<Instr>, e: ExpDesc, b: nat, cond: bool)
    requires e.k.VReloc? && e.k.info < |code| && code[e.k.info].Not? && b == code[e.k.info].b
    ensures forall env: Env, r: Regs :: Decides(env, Test(b, !cond), r, FallValue(env, code, e, r), cond)
  {
  }

  lemma RegDecides(code: seq<Instr>, e: ExpDesc, cond: bool)
    requires e.k.VNonReloc?
    ensures forall env: Env, r: Regs ::
        Decides(env, TestSet(NO_REG, e.k.info, cond), r, FallValue(env, code, e, r), cond)
  {
  }

  /** The code without the NOT. */
  lemma Removed(fs: FuncState, e: ExpDesc, w: Jumps, c: Code, code: seq<Instr>)
    requires e.k.VReloc? && e.k.info < |code| && fs.code == code[..e.k.info] && fs.js == [] && fs.jpc == NO_JUMP
    requires c == Code(fs.code, fs.pend, {}) && Ok(c, fs.lasttarget)
    requires IsList(code, e.t, w.t) && IsList(code, e.f, w.f) && All(w) <= fs.pend
    ensures fs.Valid() && fs.C() == c && Wf(c)
    ensures IsList(fs.code, e.t, w.t) && IsList(fs.code, e.f, w.f) && SameValues(code, fs.code, All(w))
    ensures forall i {:trigger i in fs.pend} :: i in fs.pend ==> KeptJump(code, fs.code, i)
  {
    assert fs.C() == c;
    forall i | i in fs.pend ensures KeptJump(code, fs.code, i) { assert i in c.pend && c.code[i].Jmp?; }
    PendList(code, fs.code, fs.pend, e.t, w.t);
    PendList(code, fs.code, fs.pend, e.f, w.f);
    PendValues(code, fs.code, fs.pend, All(w));
  }

  /** The test and its jump were emitted after code whose value it tests. */
  lemma CondDone(fs: FuncState, e: ExpDesc, w: Jumps, base: nat, c0: Code, c: Code, code: seq<Instr>, code1: seq<Instr>,
      a: Ast, test: Instr, j: nat, cond: bool)
    requires fs.Valid() && fs.nactvar <= base && fs.freereg == base && Uses(a, fs.nactvar) && Wf(c)
    requires IsList(code1, e.t, w.t) && IsList(code1, e.f, w.f) && IsList(fs.code, j, [j]) && Elems(w.t) !! Elems(w.f)
    requires c.pend == c0.pend + All(w) + {} && c0.pend !! All(w) + {} && fs.pend == c.pend + {j} && j !in c.pend
    requires KeptAll(c0.code, code1, c0.pend) && forall i {:trigger i in c.pend} ::
        i in c.pend ==> KeptJump(code1, fs.code, i)
    requires SameValues(code, code1, All(w))
    requires Means(c0, c, code, fs.k, e, w, base, a) && IsTest(test) && 0 < j < |fs.code| && fs.code[j - 1] == test
    requires forall env, r {:trigger Exec(env, fs.C(), 0, r)} ::
        Exec(env, fs.C(), 0, r) == CondOut(env, test, j, Exec(env, c, 0, r))
    requires forall env: Env, r: Regs :: Decides(env, test, r, FallValue(env, code, e, r), cond)
    ensures OnCond(fs, e, w, base, c0, a, j, cond)
  {
    hide Exec, Ok, Decides, FallValue, Wf;
    PendList(code1, fs.code, c.pend, e.t, w.t);
    PendList(code1, fs.code, c.pend, e.f, w.f);
    PendValues(code1, fs.code, c.pend, All(w));
    SameValuesTrans(code, code1, fs.code, All(w));
    CondsJumped(fs.k, c0, c, fs.C(), code, fs.code, e, w, base, a, test, j, cond);
    KeptSub(c0.code, code1, fs.code, c0.pend, c.pend);
  }

  lemma SameLists(fs: FuncState, e: ExpDesc, e1: ExpDesc, w: Jumps, base: nat, c0: Code, a: Ast, j: nat, cond: bool)
    requires OnCond(fs, e1, w, base, c0, a, j, cond) && e1.t == e.t && e1.f == e.f
    ensures OnCond(fs, e, w, base, c0, a, j, cond)
  {
  }

  // ---- luaK_goiftrue and luaK_goiffalse

  /**
   * A run that came to the code of e falls through when the value is not on the side of cond, and leaves through l when
   * it is.
   */
  ghost predicate BranchAt(env: Env, o0: Out, o: Out, code: seq<Instr>, l: seq<nat>, cond: bool, base: nat, a: Ast) {
    match o0
    case Stuck => true
    case Exit(_, _) => o == o0
    case Fall(r0) =>
      var v := Eval(env, a, r0);
      match o
      case Stuck => false
      case Fall(r) => SameBelow(base, r0, r) && Truthy(v) != cond
      case Exit(i, r) => i in l && SameBelow(base, r0, r) && Truthy(v) == cond && ExitValue(code, i, r, cond) == v
  }

  ghost predicate Branches(c0: Code, d: Code, code: seq<Instr>, k: seq<Value>, l: seq<nat>, cond: bool, base: nat,
      a: Ast) {
    forall env: Env, r {:trigger Exec(env, d, 0, r)} :: k <= env.k
        ==> BranchAt(env, Exec(env, c0, 0, r), Exec(env, d, 0, r), code, l, cond, base, a)
  }

  /** The state between the operands of and (cond is false) and or (cond is true). */
  ghost predicate Branched(fs: FuncState, h: int, l: seq<nat>, base: nat, c0: Code, a: Ast, cond: bool)
    reads fs
  {
    && fs.Valid() && fs.nactvar <= base && fs.freereg == base && Uses(a, fs.nactvar)
    && IsList(fs.code, h, l) && fs.pend == c0.pend + Elems(l) && c0.pend !! Elems(l)
    && KeptAll(c0.code, fs.code, c0.pend) && Branches(c0, fs.C(), fs.code, fs.k, l, cond, base, a)
  }

  /** The list of the side cond goes on with jump j; the other list ends here. */
  method CloseCond(fs: FuncState, e: ExpDesc, j: nat, cond: bool, ghost w: Jumps, ghost base: nat, ghost c0: Code,
      ghost a: Ast) returns (h: int, ghost l: seq<nat>)
    requires OnCond(fs, e, w, base, c0, a, j, cond) && Wf(c0)
    modifies fs`code, fs`jpc, fs`js, fs`pend, fs`lasttarget
    ensures Branched(fs, h, l, base, c0, a, cond)
  {
    hide *;
    ghost var keep, drop := if cond then w.t else w.f, if cond then w.f else w.t;
    OnCondParts(fs, e, w, base, c0, a, j, cond);
    ghost var d1, code1 := fs.C(), fs.code;
    h := fs.Join(if cond then e.t else e.f, j, keep, [j]);
    l := keep + [j];
    ghost var d2, code2 := fs.C(), fs.code;
    Rejoined(code1, code2, keep, if cond then e.f else e.t, drop, j, c0.pend, fs.pend);
    CIs(fs);
    fs.PatchToHere(if cond then e.f else e.t, drop);
    PendValues(code2, fs.code, fs.pend, Elems(l));
    PendList(code2, fs.code, fs.pend, h, l);
    KeptChain3(c0.code, code1, code2, fs.code, c0.pend, fs.pend);
    Closed(fs.k, c0, d1, d2, fs.C(), code1, code2, fs.code, w, j, cond, base, a, l);
    BranchedFold(fs, h, l, base, c0, a, cond);
  }

  lemma OnCondParts(fs: FuncState, e: ExpDesc, w: Jumps, base: nat, c0: Code, a: Ast, j: nat, cond: bool)
    requires OnCond(fs, e, w, base, c0, a, j, cond)
    ensures var keep, drop := if cond then w.t else w.f, if cond then w.f else w.t;
      && fs.Valid() && fs.nactvar <= base && fs.freereg == base && Uses(a, fs.nactvar)
      && IsList(fs.code, if cond then e.t else e.f, keep) && IsList(fs.code, if cond then e.f else e.t, drop)
        && IsList(fs.code, j, [j])
      && Elems(keep) <= fs.pend && Elems(drop) <= fs.pend && Elems(keep) !! Elems([j]) && Elems(keep) !! Elems(drop)
      && c0.pend <= fs.pend && c0.pend !! Elems(keep) && fs.pend - Elems(drop) == c0.pend + Elems(keep + [j])
        && c0.pend !! Elems(keep + [j])
      && Elems(keep + [j]) !! Elems(drop) && c0.pend !! Elems(drop)
    ensures KeptAll(c0.code, fs.code, c0.pend) && Jumped(c0, fs.C(), fs.code, fs.k, w, j, cond, base, a)
  {
    var keep := if cond then w.t else w.f;
    assert Elems(keep + [j]) == Elems(keep) + {j};
  }

  /** Relinking the kept list changes neither the other list nor what the jumps bring with them. */
  lemma Rejoined(a: seq<Instr>, b: seq<Instr>, keep: seq<nat>, h: int, drop: seq<nat>, j: nat, p0: set<nat>,
      pend: set<nat>)
    requires Relinked(a, b, Elems(keep)) && IsList(a, h, drop) && Elems(keep) !! Elems(drop) && p0 <= pend
        && p0 !! Elems(keep)
    requires forall i {:trigger i in pend} :: i in pend && i !in Elems(keep) ==> KeptJump(a, b, i)
    ensures IsList(b, h, drop)
    ensures SameValues(a, b, Elems(keep + [j])) && KeptAll(a, b, p0)
  {
    RelinkedList(a, b, Elems(keep), h, drop);
    RelinkedValues(a, b, Elems(keep), Elems(keep + [j]));
    forall i | i in p0 ensures KeptJump(a, b, i) { assert i in pend; }
  }

  lemma KeptChain3(a: seq<Instr>, b: seq<Instr>, c: seq<Instr>, d: seq<Instr>, l: set<nat>, m: set<nat>)
    requires KeptAll(a, b, l) && KeptAll(b, c, l) && l <= m && forall i {:trigger i in m} ::
        i in m ==> KeptJump(c, d, i)
    ensures KeptAll(a, d, l)
  {
    forall i | i in l ensures KeptJump(a, d, i) {
      assert i in m;
      KeptTrans(a, b, c, i);
      KeptTrans(a, c, d, i);
    }
  }

  lemma Closed(k: seq<Value>, c0: Code, d1: Code, d2: Code, d3: Code, code1: seq<Instr>, code2: seq<Instr>,
      code3: seq<Instr>, w: Jumps, j: nat, cond: bool, base: nat, a: Ast, l: seq<nat>)
    requires Jumped(c0, d1, code1, k, w, j, cond, base, a) && Wf(c0)
    requires l == (if cond then w.t else w.f) + [j] && SameValues(code1, code2, Elems(l))
        && SameValues(code2, code3, Elems(l))
    requires Elems(l) !! Elems(if cond then w.f else w.t) && c0.pend !! Elems(if cond then w.f else w.t)
    requires forall env, r {:trigger Exec(env, d2, 0, r)} :: Exec(env, d2, 0, r) == Exec(env, d1, 0, r)
    requires forall env, r {:trigger Exec(env, d3, 0, r)} ::
        Exec(env, d3, 0, r) == HereOut(Elems(if cond then w.f else w.t), Exec(env, d2, 0, r))
    ensures Branches(c0, d3, code3, k, l, cond, base, a)
  {
    hide Exec, Wf, SameValues, HasValue;
    SameValuesTrans(code1, code2, code3, Elems(l));
    forall env: Env, r | k <= env.k ensures BranchAt(env, Exec(env, c0, 0, r), Exec(env, d3, 0, r), code3, l, cond,
        base, a) {
      NotStuck(env, c0, 0, r);
      assert JumpedAt(env, Exec(env, c0, 0, r), Exec(env, d1, 0, r), code1, w, j, cond, base, a);
      assert Exec(env, d2, 0, r) == Exec(env, d1, 0, r);
      ClosedAt(env, Exec(env, c0, 0, r), Exec(env, d1, 0, r), code1, code3, w, j, cond, base, a, l);
    }
  }

  lemma ClosedAt(env: Env, o0: Out, o: Out, code1: seq<Instr>, code3: seq<Instr>, w: Jumps, j: nat, cond: bool,
      base: nat, a: Ast, l: seq<nat>)
    requires JumpedAt(env, o0, o, code1, w, j, cond, base, a) && l == (if cond then w.t else w.f) + [j]
        && SameValues(code1, code3, Elems(l))
    requires Elems(l) !! Elems(if cond then w.f else w.t) && (o0.Exit? ==> o0.j !in Elems(if cond then w.f else w.t))
    ensures BranchAt(env, o0, HereOut(Elems(if cond then w.f else w.t), o), code3, l, cond, base, a)
  {
    hide HasValue, Control, Eval, Get;
    if o0.Fall? && o.Exit? {
      var i := o.j;
      if i == j {
        assert i in l && i in Elems(l);
        assert ExitValue(code3, i, o.r, cond) == ExitValue(code1, i, o.r, cond);
      } else if i in (if cond then w.t else w.f) {
        assert i in l && i in Elems(l);
        assert ExitValue(code3, i, o.r, cond) == ExitValue(code1, i, o.r, cond);
      }
    }
  }

  lemma BranchedFold(fs: FuncState, h: int, l: seq<nat>, base: nat, c0: Code, a: Ast, cond: bool)
    requires fs.Valid() && fs.nactvar <= base && fs.freereg == base && Uses(a, fs.nactvar)
    requires IsList(fs.code, h, l) && fs.pend == c0.pend + Elems(l) && c0.pend !! Elems(l)
    requires KeptAll(c0.code, fs.code, c0.pend) && Branches(c0, fs.C(), fs.code, fs.k, l, cond, base, a)
    ensures Branched(fs, h, l, base, c0, a, cond)
  {
  }

  /** invertjump: the comparison of a VJMP lets its jump through in the other case. */
  method InvertJump(fs: FuncState, e: ExpDesc)
    requires e.k.VJmp? && 0 < e.k.info <= |fs.code| && fs.code[e.k.info - 1].Compare?
    modifies fs`code
    ensures var x := old(fs.code)[e.k.info - 1];
      fs.code == old(fs.code)[e.k.info - 1 := Compare(x.op, !x.cond, x.x, x.y)]
  {
    var x := fs.code[e.k.info - 1];
    fs.code := fs.code[e.k.info - 1 := Compare(x.op, !x.cond, x.x, x.y)];
  }

  /** The jump of a comparison, as it is or inverted, as a jump on the condition cond. */
  lemma JmpOnCond(fs: FuncState, e: ExpDesc, w: Jumps, base: nat, c0: Code, c: Code, code: seq<Instr>, a: Ast,
      cond: bool)
    requires e.k.VJmp? && 0 < e.k.info && e.k.info + 1 == |code| && code[e.k.info - 1].Compare? && code[e.k.info].Jmp?
    requires fs.code == if cond then code
        else code[e.k.info - 1 := Compare(code[e.k.info - 1].op, !code[e.k.info - 1].cond, code[e.k.info - 1].x,
        code[e.k.info - 1].y)]
    requires c == Code(code[..e.k.info - 1], fs.pend - {e.k.info}, {}) && Ok(c, fs.lasttarget) && fs.js == []
        && fs.jpc == NO_JUMP && IsList(code, e.k.info, [e.k.info])
    requires IsList(code, e.t, w.t) && IsList(code, e.f, w.f) && Elems(w.t) !! Elems(w.f) && e.k.info !in All(w)
    requires fs.pend == c0.pend + All(w) + {e.k.info} && c0.pend !! All(w) + {e.k.info}
        && KeptAll(c0.code, code, c0.pend)
    requires fs.nactvar <= base && fs.freereg == base && Uses(a, fs.nactvar)
    requires Means(c0, c, code, fs.k, e, w, base, a)
    ensures OnCond(fs, e, w, base, c0, a, e.k.info, cond)
  {
    hide Exec, FallValue, Means, Decides;
    var p := e.k.info;
    var test := fs.code[p - 1];
    assert fs.code == c.code + [test, Jmp(code[p].sbx)] && c.pend + {|c.code| + 1} == fs.pend;
    assert IsTest(test) && !test.TestSet?;
    CondOk(c, test, code[p].sbx, fs.lasttarget, fs.code);
    assert fs.C() == Code(fs.code, fs.pend, {});
    assert fs.Valid() by { fs.NoJumps(); fs.ValidFold(); }
    JmpKept(c, code, fs.code, e, w, c0);
    forall env, r ensures Exec(env, fs.C(), 0, r) == CondOut(env, test, p, Exec(env, c, 0, r)) {
      CondRun(c, test, code[p].sbx, fs.lasttarget, env, r, fs.code);
    }
    JmpDecides(code, e, test, cond);
    CondsJumped(fs.k, c0, c, fs.C(), code, fs.code, e, w, base, a, test, p, cond);
  }

  lemma JmpDecides(code: seq<Instr>, e: ExpDesc, test: Instr, cond: bool)
    requires e.k.VJmp? && 0 < e.k.info <= |code| && code[e.k.info - 1].Compare?
    requires test == if cond then code[e.k.info - 1] else Compare(code[e.k.info - 1].op, !code[e.k.info - 1].cond,
        code[e.k.info - 1].x, code[e.k.info - 1].y)
    ensures forall env: Env, r: Regs :: Decides(env, test, r, FallValue(env, code, e, r), cond)
  {
  }

  /** Lists and values when only the comparison before the last jump changed. */
  lemma JmpKept(c: Code, code: seq<Instr>, b: seq<Instr>, e: ExpDesc, w: Jumps, c0: Code)
    requires Wf(c) && e.k.VJmp? && 0 < e.k.info && e.k.info + 1 == |code| == |b|
        && c.code == code[..e.k.info - 1] == b[..e.k.info - 1]
    requires code[e.k.info - 1].Compare? && b[e.k.info - 1].Compare? && b[e.k.info] == code[e.k.info]
    requires c.pend == c0.pend + All(w) && IsList(code, e.k.info, [e.k.info])
    requires IsList(code, e.t, w.t) && IsList(code, e.f, w.f) && KeptAll(c0.code, code, c0.pend)
    ensures IsList(b, e.t, w.t) && IsList(b, e.f, w.f) && IsList(b, e.k.info, [e.k.info])
    ensures SameValues(code, b, All(w)) && KeptAll(c0.code, b, c0.pend)
  {
    forall i | i in c.pend ensures KeptJump(code, b, i) {
      assert i < |c.code| && c.code[i].Jmp?;
      assert forall m: nat :: m < |c.code| ==> code[m] == c.code[m] && b[m] == c.code[m];
    }
    PendList(code, b, c.pend, e.t, w.t);
    PendList(code, b, c.pend, e.f, w.f);
    PendValues(code, b, c.pend, All(w));
    KeptSub(c0.code, code, b, c0.pend, c.pend);
    assert forall j :: j in [e.k.info] ==> j < |code| && b[j] == code[j];
    KeptList(code, b, e.k.info, [e.k.info]);
  }

  /** A constant expression of the code is true; nil and false have kinds of their own. */
  ghost predicate TrueConst(k: seq<Value>, e: ExpDesc) {
    e.k.VK? ==> e.k.info < |k| && Truthy(k[e.k.info])
  }

  /** A constant is on one side in every run. */
  predicate Settles(e: ExpDesc, cond: bool) {
    if cond then e.k.VNil? || e.k.VFalse? else e.k.VK? || e.k.VKNum? || e.k.VTrue?
  }

  /** No jump is needed for a constant. */
  method CloseConst(fs: FuncState, e: ExpDesc, cond: bool, ghost w: Jumps, ghost base: nat, ghost c0: Code,
      ghost a: Ast) returns (h: int, ghost l: seq<nat>)
    requires Compiled(fs, e, w, base, c0, a) && Wf(c0) && Settles(e, cond) && TrueConst(fs.k, e)
    modifies fs`code, fs`jpc, fs`js, fs`pend, fs`lasttarget
    ensures Branched(fs, h, l, base, c0, a, cond)
  {
    hide *;
    ghost var keep, drop := if cond then w.t else w.f, if cond then w.f else w.t;
    ConstParts(fs, e, w, base, c0, a, cond);
    ghost var d, code := fs.C(), fs.code;
    h := if cond then e.t else e.f;
    l := keep;
    fs.PatchToHere(if cond then e.f else e.t, drop);
    PendValues(code, fs.code, fs.pend, Elems(l));
    PendList(code, fs.code, fs.pend, h, l);
    KeptSub(c0.code, code, fs.code, c0.pend, fs.pend);
    ConstClosed(fs.k, c0, d, fs.C(), code, fs.code, e, w, cond, base, a, l);
    BranchedFold(fs, h, l, base, c0, a, cond);
  }

  lemma ConstParts(fs: FuncState, e: ExpDesc, w: Jumps, base: nat, c0: Code, a: Ast, cond: bool)
    requires Compiled(fs, e, w, base, c0, a) && Settles(e, cond)
    ensures var keep, drop := if cond then w.t else w.f, if cond then w.f else w.t;
      && fs.Valid() && fs.nactvar <= base && fs.freereg == base && Uses(a, fs.nactvar)
      && IsList(fs.code, if cond then e.t else e.f, keep) && IsList(fs.code, if cond then e.f else e.t, drop)
      && Elems(keep) <= fs.pend && Elems(drop) <= fs.pend && Elems(keep) !! Elems(drop)
      && c0.pend <= fs.pend && fs.pend - Elems(drop) == c0.pend + Elems(keep) && c0.pend !! Elems(keep)
        && c0.pend !! Elems(drop)
    ensures KeptAll(c0.code, fs.code, c0.pend) && Means(c0, fs.C(), fs.code, fs.k, e, w, base, a)
  {
  }

  lemma ConstClosed(k: seq<Value>, c0: Code, d: Code, d2: Code, code: seq<Instr>, code2: seq<Instr>, e: ExpDesc,
      w: Jumps, cond: bool, base: nat, a: Ast, l: seq<nat>)
    requires Means(c0, d, code, k, e, w, base, a) && Wf(c0) && Settles(e, cond) && TrueConst(k, e)
    requires l == (if cond then w.t else w.f) && SameValues(code, code2, Elems(l))
    requires Elems(l) !! Elems(if cond then w.f else w.t) && c0.pend !! Elems(if cond then w.f else w.t)
    requires forall env, r {:trigger Exec(env, d2, 0, r)} ::
        Exec(env, d2, 0, r) == HereOut(Elems(if cond then w.f else w.t), Exec(env, d, 0, r))
    ensures Branches(c0, d2, code2, k, l, cond, base, a)
  {
    hide Exec, Wf, SameValues, HasValue;
    forall env: Env, r | k <= env.k ensures BranchAt(env, Exec(env, c0, 0, r), Exec(env, d2, 0, r), code2, l, cond,
        base, a) {
      NotStuck(env, c0, 0, r);
      assert MeansAt(env, Exec(env, c0, 0, r), Exec(env, d, 0, r), code, e, w, base, a);
      assert e.k.VK? ==> env.k[e.k.info] == k[e.k.info];
      ConstClosedAt(env, k, Exec(env, c0, 0, r), Exec(env, d, 0, r), code, code2, e, w, cond, base, a, l);
    }
  }

  lemma ConstClosedAt(env: Env, k: seq<Value>, o0: Out, o: Out, code: seq<Instr>, code2: seq<Instr>, e: ExpDesc,
      w: Jumps, cond: bool, base: nat, a: Ast, l: seq<nat>)
    requires MeansAt(env, o0, o, code, e, w, base, a) && Settles(e, cond) && k <= env.k && TrueConst(k, e)
        && (e.k.VK? ==> env.k[e.k.info] == k[e.k.info])
    requires l == (if cond then w.t else w.f) && SameValues(code, code2, Elems(l))
    requires Elems(l) !! Elems(if cond then w.f else w.t) && (o0.Exit? ==> o0.j !in Elems(if cond then w.f else w.t))
    ensures BranchAt(env, o0, HereOut(Elems(if cond then w.f else w.t), o), code2, l, cond, base, a)
  {
    hide HasValue, Control, Eval, Get;
    if o0.Fall? && o.Exit? && o.j in l {
      assert o.j in Elems(l);
      assert ExitValue(code2, o.j, o.r, cond) == ExitValue(code, o.j, o.r, cond);
    }
  }

  lemma VarsTrue(k: seq<Value>, e: ExpDesc)
    requires TrueConst(k, e)
    ensures TrueConst(k, DischargeVars(e))
  {
  }

  /**
   * luaK_goiftrue (cond is false) and luaK_goiffalse (cond is true): the code goes on only if the value is not on the
   * side of cond.
   */
  method GoIf(fs: FuncState, e: ExpDesc, cond: bool, ghost w: Jumps, ghost base: nat, ghost c0: Code, ghost a: Ast)
      returns (h: int, ghost l: seq<nat>)
    requires Compiled(fs, e, w, base, c0, a) && Wf(c0) && TrueConst(fs.k, e)
    modifies fs`code, fs`jpc, fs`js, fs`k, fs`pend, fs`lasttarget, fs`freereg
    ensures Branched(fs, h, l, base, c0, a, cond) && old(fs.k) <= fs.k
  {
    hide *;
    var e1 := DischargeVars(e);
    VarsCompiled(fs, e, w, base, c0, a);
    if e1.k.VJmp? {
      CompiledParts(fs, e1, w, base, c0, a);
      JmpFacts(fs, e1, w, base);
      CoreOk(fs, e1, w, base);
      ShapeParts(fs, e1, w, base);
      TempsNone(e1, fs.nactvar);
      OwnIs(e1);
      ghost var code, c := fs.code, Core(fs, e1);
      if !cond { InvertJump(fs, e1); }
      JmpOnCond(fs, e1, w, base, c0, c, code, a, cond);
      h, l := CloseCond(fs, e1, e1.k.info, cond, w, base, c0, a);
    } else if Settles(e1, cond) {
      VarsTrue(fs.k, e);
      h, l := CloseConst(fs, e1, cond, w, base, c0, a);  // the value decides at compile time
    } else {
      var j := JumpOnCond(fs, e1, cond, w, base, c0, a);
      h, l := CloseCond(fs, e1, j, cond, w, base, c0, a);
    }
  }

  // ---- codenot

  /** As MeansAt for a, but a run that falls through has the negation of the value in the place that e says. */
  ghost predicate NotMeansAt(env: Env, o0: Out, o: Out, code: seq<Instr>, e: ExpDesc, w: Jumps, base: nat, a: Ast) {
    match o0
    case Stuck => true
    case Exit(_, _) => o == o0
    case Fall(r0) =>
      var v := Eval(env, a, r0);
      match o
      case Stuck => false
      case Fall(r) => SameBelow(base, r0, r) && FallValue(env, code, e, r) == Bool(!Truthy(v))
      case Exit(j, r) => LeavesAt(code, w, base, r0, v, j, r)
  }

  ghost predicate NotMeans(c0: Code, core: Code, code: seq<Instr>, k: seq<Value>, e: ExpDesc, w: Jumps, base: nat,
      a: Ast) {
    forall env: Env, r {:trigger Exec(env, core, 0, r)} :: k <= env.k
        ==> NotMeansAt(env, Exec(env, c0, 0, r), Exec(env, core, 0, r), code, e, w, base, a)
  }

  /** Between the negation of the value and the exchange of the lists. */
  ghost predicate HalfNot(fs: FuncState, e: ExpDesc, w: Jumps, base: nat, c0: Code, a: Ast)
    reads fs
  {
    && Shape(fs, e, w, base) && fs.freereg == base && !e.k.VNonReloc? && Uses(a, fs.nactvar)
    && fs.pend == c0.pend + All(w) + Own(e) && c0.pend !! All(w) + Own(e)
    && KeptAll(c0.code, fs.code, c0.pend) && NotMeans(c0, Core(fs, e), fs.code, fs.k, e, w, base, a)
  }

  lemma NegatedMeans(k: seq<Value>, c0: Code, c: Code, d: Code, code: seq<Instr>, code2: seq<Instr>, e: ExpDesc,
      e2: ExpDesc, w: Jumps, base: nat, a: Ast)
    requires Means(c0, c, code, k, e, w, base, a) && SameValues(code, code2, All(w))
    requires forall env, r {:trigger Exec(env, d, 0, r)} :: Exec(env, d, 0, r) == Exec(env, c, 0, r)
    requires forall env: Env, r {:trigger FallValue(env, code2, e2, r)} ::
        k <= env.k ==> FallValue(env, code2, e2, r) == Bool(!Truthy(FallValue(env, code, e, r)))
    ensures NotMeans(c0, d, code2, k, e2, w, base, a)
  {
    hide Exec, FallValue, HasValue, Control;
    forall env: Env, r | k <= env.k ensures NotMeansAt(env, Exec(env, c0, 0, r), Exec(env, d, 0, r), code2, e2, w,
        base, a) {
      var o := Exec(env, c, 0, r);
      assert MeansAt(env, Exec(env, c0, 0, r), o, code, e, w, base, a);
      assert Exec(env, d, 0, r) == o;
      if o.Fall? { assert FallValue(env, code2, e2, o.r) == Bool(!Truthy(FallValue(env, code, e, o.r))); }
    }
  }

  /** The cases of codenot. */
  method NotValue(fs: FuncState, e: ExpDesc, ghost w: Jumps, ghost base: nat, ghost c0: Code, ghost a: Ast)
      returns (e2: ExpDesc)
    requires Compiled(fs, e, w, base, c0, a) && TrueConst(fs.k, e)
    modifies fs`code, fs`jpc, fs`js, fs`k, fs`freereg
    ensures HalfNot(fs, e2, w, base, c0, a) && e2.t == e.t && e2.f == e.f && old(fs.k) <= fs.k && !e2.k.VK?
        && !e2.k.VLocal?
  {
    hide *;
    match e.k {
      case VNil => e2 := e.(k := VTrue); NotConst(fs, e, e2, w, base, c0, a);
      case VFalse => e2 := e.(k := VTrue); NotConst(fs, e, e2, w, base, c0, a);
      case VK(_) => e2 := e.(k := VFalse); NotConst(fs, e, e2, w, base, c0, a);
      case VKNum(_) => e2 := e.(k := VFalse); NotConst(fs, e, e2, w, base, c0, a);
      case VTrue => e2 := e.(k := VFalse); NotConst(fs, e, e2, w, base, c0, a);
      case VJmp(p) =>
        e2 := e;
        CompiledParts(fs, e, w, base, c0, a);
        JmpFacts(fs, e, w, base);
        ShapeParts(fs, e, w, base);
        CoreOk(fs, e, w, base);
        OwnIs(e);
        TempsNone(e, fs.nactvar);
        ghost var code, c := fs.code, Core(fs, e);
        InvertJump(fs, e);
        NotJmp(fs, e, w, base, c0, c, code, a);
      case _ =>
        var e1 := Discharge2AnyReg(fs, e, w, base, c0, a);
        e2 := NotReg(fs, e1, w, base, c0, a);
    }
  }

  lemma NotConst(fs: FuncState, e: ExpDesc, e2: ExpDesc, w: Jumps, base: nat, c0: Code, a: Ast)
    requires Compiled(fs, e, w, base, c0, a) && TrueConst(fs.k, e)
    requires e2 == e.(k := e2.k) && if e.k.VNil? || e.k.VFalse? then e2.k == VTrue
        else (e.k.VK? || e.k.VKNum? || e.k.VTrue?) && e2.k == VFalse
    ensures HalfNot(fs, e2, w, base, c0, a)
  {
    hide Exec, Ok, IsList, HasValue;
    assert Core(fs, e2) == Core(fs, e) == fs.C();
    SameRefl(fs.code, All(w));
    forall env: Env, r | fs.k <= env.k ensures FallValue(env, fs.code, e2, r)
        == Bool(!Truthy(FallValue(env, fs.code, e, r))) {
      assert e.k.VK? ==> env.k[e.k.info] == fs.k[e.k.info];
    }
    NegatedMeans(fs.k, c0, fs.C(), fs.C(), fs.code, fs.code, e, e2, w, base, a);
  }

  lemma NotJmp(fs: FuncState, e: ExpDesc, w: Jumps, base: nat, c0: Code, c: Code, code: seq<Instr>, a: Ast)
    requires e.k.VJmp? && 0 < e.k.info && e.k.info + 1 == |code| && code[e.k.info - 1].Compare? && code[e.k.info].Jmp?
    requires fs.code == code[e.k.info - 1 := Compare(code[e.k.info - 1].op, !code[e.k.info - 1].cond,
        code[e.k.info - 1].x, code[e.k.info - 1].y)]
    requires c == Code(code[..e.k.info - 1], fs.pend - {e.k.info}, {}) && Ok(c, fs.lasttarget) && fs.js == []
        && fs.jpc == NO_JUMP && IsList(code, e.k.info, [e.k.info])
    requires IsList(code, e.t, w.t) && IsList(code, e.f, w.f) && Elems(w.t) !! Elems(w.f) && e.k.info !in All(w)
    requires fs.pend == c0.pend + All(w) + {e.k.info} && c0.pend !! All(w) + {e.k.info}
        && KeptAll(c0.code, code, c0.pend)
    requires fs.nactvar <= base && fs.freereg == base && Uses(a, fs.nactvar)
    requires Means(c0, c, code, fs.k, e, w, base, a)
    ensures HalfNot(fs, e, w, base, c0, a)
  {
    hide Exec, Means, NotMeans;
    var p := e.k.info;
    var test := fs.code[p - 1];
    assert fs.code == c.code + [test, Jmp(code[p].sbx)] && c.pend + {|c.code| + 1} == fs.pend;
    CondOk(c, test, code[p].sbx, fs.lasttarget, fs.code);
    assert fs.C() == Code(fs.code, fs.pend, {});
    assert fs.Valid() by { fs.NoJumps(); fs.ValidFold(); }
    JmpKept(c, code, fs.code, e, w, c0);
    assert Core(fs, e) == c;
    assert fs.lasttarget <= |c.code|;
    NegatedMeans(fs.k, c0, c, c, code, fs.code, e, e, w, base, a);
  }

  method NotReg(fs: FuncState, e: ExpDesc, ghost w: Jumps, ghost base: nat, ghost c0: Code, ghost a: Ast)
      returns (e2: ExpDesc)
    requires Compiled(fs, e, w, base, c0, a) && e.k.VNonReloc?
    modifies fs`code, fs`jpc, fs`js, fs`freereg
    ensures HalfNot(fs, e2, w, base, c0, a) && e2.t == e.t && e2.f == e.f && e2.k.VReloc?
  {
    hide *;
    CompiledParts(fs, e, w, base, c0, a);
    ShapeParts(fs, e, w, base);
    FreeExp(fs, e);
    OwnIs(e);
    ghost var code, c := fs.code, fs.C();
    ValidLength(fs);
    PlainNot(0, e.k.info);
    var pc := fs.Emit(Not(0, e.k.info));
    e2 := e.(k := VReloc(pc));
    NotEmitted(fs, e, e2, w, base, c0, c, code, a);
  }

  lemma ValidLength(fs: FuncState)
    requires fs.Valid()
    ensures fs.lasttarget <= |fs.code|
  {
  }

  lemma PlainNot(a: nat, b: nat)
    ensures Plain(Not(a, b))
  {
  }

  lemma NotEmitted(fs: FuncState, e: ExpDesc, e2: ExpDesc, w: Jumps, base: nat, c0: Code, c: Code, code: seq<Instr>,
      a: Ast)
    requires e.k.VNonReloc? && e2 == e.(k := VReloc(|code|)) && |fs.code| == |code| + 1
        && fs.code[|code|] == Not(0, e.k.info)
    requires fs.Valid() && fs.js == [] && fs.lasttarget <= |code| && fs.freereg == base && fs.nactvar <= base
        && Uses(a, fs.nactvar)
    requires IsList(code, e.t, w.t) && IsList(code, e.f, w.f) && Elems(w.t) !! Elems(w.f)
    requires fs.pend == c0.pend + All(w) + {} && c0.pend !! All(w) + {} && KeptAll(c0.code, code, c0.pend)
    requires forall i {:trigger i in fs.pend} :: i in fs.pend ==> KeptJump(code, fs.code, i)
    requires Means(c0, c, code, fs.k, e, w, base, a)
    requires forall env, r {:trigger Exec(env, fs.C().(code := fs.code[..|code|]), 0, r)} ::
        Exec(env, fs.C().(code := fs.code[..|code|]), 0, r) == Exec(env, c, 0, r)
    ensures HalfNot(fs, e2, w, base, c0, a)
  {
    hide Exec, Ok, Means, NotMeans;
    var p := |code|;
    PendList(code, fs.code, fs.pend, e.t, w.t);
    PendList(code, fs.code, fs.pend, e.f, w.f);
    PendValues(code, fs.code, fs.pend, All(w));
    KeptSub(c0.code, code, fs.code, c0.pend, fs.pend);
    assert fs.C().(code := fs.code[..p]) == Core(fs, e2);
    NegatedMeans(fs.k, c0, c, Core(fs, e2), code, fs.code, e, e2, w, base, a);
  }

  /** Where the value of e is, in terms of the code alone. */
  ghost predicate Place(code: seq<Instr>, pend: set<nat>, js: seq<nat>, top: nat, e: ExpDesc, w: Jumps) {
    match e.k
    case VReloc(p) => p + 1 == |code| && code[p].Not? && js == [] && top <= p
    case VJmp(p) => p > 0 && p + 1 == |code| && code[p - 1].Compare? && code[p].Jmp? && IsList(code, p, [p])
        && p in pend && js == [] && top < p && p !in All(w)
    case VNonReloc(_) => false
    case VK(_) => false
    case VLocal(_) => false
    case _ => true
  }

  lemma HalfParts(fs: FuncState, e: ExpDesc, w: Jumps, base: nat, c0: Code, a: Ast)
    requires HalfNot(fs, e, w, base, c0, a) && !e.k.VK? && !e.k.VLocal?
    ensures fs.Valid() && IsList(fs.code, e.t, w.t) && IsList(fs.code, e.f, w.f) && Elems(w.t) <= fs.pend
        && Elems(w.f) <= fs.pend && Elems(w.t) !! Elems(w.f)
    ensures Shape(fs, e, w, base) && Place(fs.code, fs.pend, fs.js, fs.lasttarget, e, w)
    ensures fs.freereg == base && fs.nactvar <= base && Uses(a, fs.nactvar) && fs.pend == c0.pend + All(w) + Own(e)
        && c0.pend !! All(w) + Own(e)
    ensures KeptAll(c0.code, fs.code, c0.pend) && NotMeans(c0, Core(fs, e), fs.code, fs.k, e, w, base, a)
  {
    if e.k.VJmp? { JmpFacts(fs, e, w, base); }
  }

  lemma RemovedTrans(a: seq<Instr>, b: seq<Instr>, c: seq<Instr>, l: set<nat>, m: set<nat>)
    requires ValuesRemoved(a, b, l) && ValuesRemoved(b, c, m)
    ensures ValuesRemoved(a, c, l + m)
  {
    forall i: nat | i < |a| ensures c[i] == if i + 1 in l + m && a[i].TestSet? then Test(a[i].b, a[i].c) else a[i] {
      assert b[i] == if i + 1 in l && a[i].TestSet? then Test(a[i].b, a[i].c) else a[i];
      assert c[i] == if i + 1 in m && b[i].TestSet? then Test(b[i].b, b[i].c) else b[i];
    }
  }

  lemma RemovedOther(a: seq<Instr>, b: seq<Instr>, l: set<nat>, h: int, s: seq<nat>)
    requires ValuesRemoved(a, b, l) && IsList(a, h, s)
    ensures IsList(b, h, s)
  {
    forall j | j in s ensures j < |a| && j < |b| && b[j] == a[j] { ListJump(a, h, s, j); }
    KeptList(a, b, h, s);
  }

  /** codenot: the value is negated, the lists change places, and their jumps bring no value any more. */
  method CodeNot(fs: FuncState, e: ExpDesc, ghost w: Jumps, ghost base: nat, ghost c0: Code, ghost a: Ast)
      returns (e2: ExpDesc, ghost w2: Jumps)
    requires Compiled(fs, e, w, base, c0, a) && TrueConst(fs.k, e) && Wf(c0)
    modifies fs`code, fs`jpc, fs`js, fs`k, fs`freereg
    ensures Compiled(fs, e2, w2, base, c0, ANot(a)) && !e2.k.VK? && old(fs.k) <= fs.k
  {
    hide *;
    var e1 := DischargeVars(e);
    VarsCompiled(fs, e, w, base, c0, a);
    VarsTrue(fs.k, e);
    e1 := NotValue(fs, e1, w, base, c0, a);
    HalfParts(fs, e1, w, base, c0, a);
    ghost var code1, core1 := fs.code, Core(fs, e1);
    CoreOk(fs, e1, w, base);
    CoreOfIs(fs, e1);
    e2 := ExpDesc(e1.k, e1.f, e1.t);  // a true value now leaves through the other list
    w2 := Jumps(w.f, w.t);
    fs.RemovePending(e2.f, w.t);
    ghost var code2 := fs.code;
    RemovedOther(code1, code2, Elems(w.t), e2.t, w.f);
    fs.RemovePending(e2.t, w.f);
    RemovedOther(code2, fs.code, Elems(w.f), e2.f, w.t);
    RemovedTrans(code1, code2, fs.code, Elems(w.t), Elems(w.f));
    NotDone(fs, e1, e2, w, w2, base, c0, a, code1, core1);
  }

  lemma NotDone(fs: FuncState, e1: ExpDesc, e2: ExpDesc, w: Jumps, w2: Jumps, base: nat, c0: Code, a: Ast,
      code1: seq<Instr>, core1: Code)
    requires e2 == ExpDesc(e1.k, e1.f, e1.t) && w2 == Jumps(w.f, w.t) && fs.Valid()
        && ValuesRemoved(code1, fs.code, Elems(w.t) + Elems(w.f))
    requires IsList(fs.code, e2.t, w2.t) && IsList(fs.code, e2.f, w2.f) && Elems(w.t) !! Elems(w.f)
    requires Place(code1, fs.pend, fs.js, fs.lasttarget, e1, w)
    requires fs.freereg == base && fs.nactvar <= base && Uses(a, fs.nactvar) && fs.pend == c0.pend + All(w) + Own(e1)
        && c0.pend !! All(w) + Own(e1)
    requires Wf(c0) && KeptAll(c0.code, code1, c0.pend) && Ok(core1, fs.lasttarget) && All(w) <= core1.pend
    requires core1 == CoreOf(code1, fs.pend, Elems(fs.js), e1) && NotMeans(c0, core1, code1, fs.k, e1, w, base, a)
    ensures Compiled(fs, e2, w2, base, c0, ANot(a))
  {
    hide Exec, Ok, NotMeans, Means, ValuesRemoved, KeptAll;
    RemovedPlace(fs, code1, e1, e2, w, w2);
    CoreRemoved(fs, code1, core1, e1, e2, w);
    NotKept(c0, core1, code1, fs.code, w, e1, fs.pend, fs.lasttarget);
    forall j | j in w.t ensures j < |fs.code| && fs.code[j].Jmp? { ListJump(fs.code, e2.f, w.t, j); }
    forall j | j in w.f ensures j < |fs.code| && fs.code[j].Jmp? { ListJump(fs.code, e2.t, w.f, j); }
    NotSwapped(fs.k, c0, core1, Core(fs, e2), code1, fs.code, e1, e2, w, w2, base, a, fs.lasttarget);
  }

  /** Core as a function of values. */
  ghost function CoreOf(code: seq<Instr>, pend: set<nat>, here: set<nat>, e: ExpDesc): Code {
    match e.k
    case VReloc(p) => if p < |code| then Code(code[..p], pend, {}) else Code(code, pend, here)
    case VJmp(p) => if 0 < p <= |code| then Code(code[..p - 1], pend - {p}, {}) else Code(code, pend, here)
    case _ => Code(code, pend, here)
  }

  lemma CoreOfIs(fs: FuncState, e: ExpDesc)
    ensures Core(fs, e) == CoreOf(fs.code, fs.pend, Elems(fs.js), e)
  {
  }

  /** The place of the value is not touched. */
  lemma RemovedPlace(fs: FuncState, code1: seq<Instr>, e1: ExpDesc, e2: ExpDesc, w: Jumps, w2: Jumps)
    requires ValuesRemoved(code1, fs.code, Elems(w.t) + Elems(w.f))
        && Place(code1, fs.pend, fs.js, fs.lasttarget, e1, w) && e2.k == e1.k && w2 == Jumps(w.f, w.t)
    ensures Place(fs.code, fs.pend, fs.js, fs.lasttarget, e2, w2)
  {
    var l := Elems(w.t) + Elems(w.f);
    if e1.k.VReloc? {
      assert fs.code[e1.k.info] == code1[e1.k.info];
    } else if e1.k.VJmp? {
      var p := e1.k.info;
      assert fs.code[p] == code1[p] && fs.code[p - 1] == code1[p - 1];
      RemovedOther(code1, fs.code, l, p, [p]);
    }
  }

  lemma CoreRemoved(fs: FuncState, code1: seq<Instr>, core1: Code, e1: ExpDesc, e2: ExpDesc, w: Jumps)
    requires ValuesRemoved(code1, fs.code, Elems(w.t) + Elems(w.f)) && e2.k == e1.k
        && Place(code1, fs.pend, fs.js, fs.lasttarget, e1, w)
    requires core1 == CoreOf(code1, fs.pend, Elems(fs.js), e1)
    ensures var d := Core(fs, e2);
        ValuesRemoved(core1.code, d.code, All(w)) && d == Code(d.code, core1.pend, core1.here)
  {
    CoreOfIs(fs, e2);
    var d := Core(fs, e2);
    forall i: nat | i < |core1.code| ensures d.code[i] == if i + 1 in All(w) && core1.code[i].TestSet? then
        Test(core1.code[i].b, core1.code[i].c) else core1.code[i] {
      assert fs.code[i] == if i + 1 in Elems(w.t) + Elems(w.f) && code1[i].TestSet? then Test(code1[i].b, code1[i].c)
          else code1[i];
    }
  }

  lemma NotKept(c0: Code, core1: Code, code1: seq<Instr>, b: seq<Instr>, w: Jumps, e: ExpDesc, pend: set<nat>, top: nat)
    requires KeptAll(c0.code, code1, c0.pend) && ValuesRemoved(code1, b, Elems(w.t) + Elems(w.f))
    requires pend == c0.pend + All(w) + Own(e) && c0.pend !! All(w) + Own(e) && Wf(c0)
    ensures KeptAll(c0.code, b, c0.pend)
  {
    forall i | i in c0.pend ensures KeptJump(c0.code, b, i) {
      assert KeptJump(c0.code, code1, i) && c0.code[i].Jmp?;
      RemovedKeeps(code1, b, Elems(w.t) + Elems(w.f), i);
      KeptTrans(c0.code, code1, b, i);
    }
  }

  lemma NotSwapped(k: seq<Value>, c0: Code, c: Code, d: Code, code1: seq<Instr>, code2: seq<Instr>, e1: ExpDesc,
      e2: ExpDesc, w: Jumps, w2: Jumps, base: nat, a: Ast, top: nat)
    requires NotMeans(c0, c, code1, k, e1, w, base, a) && Ok(c, top) && w2 == Jumps(w.f, w.t) && e2.k == e1.k
        && Elems(w.t) !! Elems(w.f)
    requires ValuesRemoved(c.code, d.code, All(w)) && d == Code(d.code, c.pend, c.here) && All(w) <= c.pend
    requires ValuesRemoved(code1, code2, Elems(w.t) + Elems(w.f))
    requires e1.k.VReloc? ==> e1.k.info < |code1| && code1[e1.k.info].Not?
    requires e1.k.VJmp? ==> 0 < e1.k.info <= |code1| && code1[e1.k.info - 1].Compare?
    requires !e1.k.VLocal? && !e1.k.VNonReloc? && !e1.k.VK?
    requires forall j :: j in w.t || j in w.f ==> j < |code2| && code2[j].Jmp?
    ensures Means(c0, d, code2, k, e2, w2, base, ANot(a))
  {
    hide Exec, Ok;
    forall env: Env, r | k <= env.k ensures MeansAt(env, Exec(env, c0, 0, r), Exec(env, d, 0, r), code2, e2, w2, base,
        ANot(a)) {
      RemovedRun(c, top, d.code, All(w), env, r);
      var o := Exec(env, c, 0, r);
      assert NotMeansAt(env, Exec(env, c0, 0, r), o, code1, e1, w, base, a);
      if o.Exit? && (o.j in w.t || o.j in w.f) { NoValue(code1, code2, w, o.j, o.r); }
      SamePlace(env, code1, code2, e1, e2, w);
      SwappedAt(env, Exec(env, c0, 0, r), o, code1, code2, e1, e2, w, w2, base, a);
    }
  }

  lemma SwappedAt(env: Env, o0: Out, o: Out, code1: seq<Instr>, code2: seq<Instr>, e1: ExpDesc, e2: ExpDesc, w: Jumps,
      w2: Jumps, base: nat, a: Ast)
    requires NotMeansAt(env, o0, o, code1, e1, w, base, a) && w2 == Jumps(w.f, w.t) && Elems(w.t) !! Elems(w.f)
    requires o.Exit? && (o.j in w.t || o.j in w.f) ==> forall v :: ExitValue(code2, o.j, o.r, v) == Bool(v)
    requires o.Fall? ==> FallValue(env, code2, e2, o.r) == FallValue(env, code1, e1, o.r)
    ensures MeansAt(env, o0, o, code2, e2, w2, base, ANot(a))
  {
    hide ExitValue, FallValue;
    if o0.Fall? && o.Exit? {
      if o.j in w.t { assert o.j in Elems(w.t) && o.j !in Elems(w.f); }
    }
  }

  /** A jump of the lists brings no value after removevalues. */
  lemma NoValue(a: seq<Instr>, b: seq<Instr>, w: Jumps, j: nat, r: Regs)
    requires ValuesRemoved(a, b, Elems(w.t) + Elems(w.f)) && (j in w.t || j in w.f) && j < |b| && b[j].Jmp?
    ensures forall v :: ExitValue(b, j, r, v) == Bool(v)
  {
    assert j in Elems(w.t) + Elems(w.f);
    if 0 < j {
      assert b[j - 1] == if j in Elems(w.t) + Elems(w.f) && a[j - 1].TestSet? then Test(a[j - 1].b, a[j - 1].c)
          else a[j - 1];
    }
  }

  lemma SamePlace(env: Env, a: seq<Instr>, b: seq<Instr>, e1: ExpDesc, e2: ExpDesc, w: Jumps)
    requires ValuesRemoved(a, b, Elems(w.t) + Elems(w.f)) && e2.k == e1.k
    requires e1.k.VReloc? ==> e1.k.info < |a| && a[e1.k.info].Not?
    requires e1.k.VJmp? ==> 0 < e1.k.info <= |a| && a[e1.k.info - 1].Compare?
    ensures forall r {:trigger FallValue(env, b, e2, r)} :: FallValue(env, b, e2, r) == FallValue(env, a, e1, r)
  {
    if e1.k.VReloc? { assert b[e1.k.info] == a[e1.k.info]; }
    if e1.k.VJmp? { assert b[e1.k.info - 1] == a[e1.k.info - 1]; }
  }
}
