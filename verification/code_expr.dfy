/**
 * Whole expressions: and, or, comparisons (lcode.c:719-870), and the theorem that the code of an expression computes
 * it.
 */
module CodeExpr {
  import opened CodeVm
  import opened CodeLists
  import opened CodeGen
  import opened CodeExp
  import opened CodeOps

  // ---- and, or

  function Logic(cond: bool, a: Ast, b: Ast): Ast { if cond then AOr(a, b) else AAnd(a, b) }

  /** The lists of the second operand, with the jumps of the first one. */
  ghost function WithJumps(w: Jumps, l: seq<nat>, cond: bool): Jumps {
    if cond then Jumps(w.t + l, w.f) else Jumps(w.t, w.f + l)
  }

  lemma LogicAt(env: Env, o0: Out, o1: Out, o2: Out, code1: seq<Instr>, code2: seq<Instr>, code3: seq<Instr>,
      e2: ExpDesc, e3: ExpDesc, w2: Jumps, l: seq<nat>,
                cond: bool, base: nat, n: nat, a: Ast, b: Ast)
    requires BranchAt(env, o0, o1, code1, l, cond, base, a) && MeansAt(env, o1, o2, code2, e2, w2, base, b)
    requires SameValues(code1, code2, Elems(l)) && SameValues(code2, code3, All(w2) + Elems(l)) && Elems(l) !! All(w2)
    requires o2.Fall? ==> FallValue(env, code3, e3, o2.r) == FallValue(env, code2, e2, o2.r)
    requires Uses(b, n) && n <= base
    ensures MeansAt(env, o0, o2, code3, e3, WithJumps(w2, l, cond), base, Logic(cond, a, b))
  {
    hide ExitValue, HasValue, FallValue, SameValues, Get, Eval, Uses;
    if o0.Fall? {
      LogicEval(env, o0.r, a, b, cond);
      if o1.Fall? {
        assert SameBelow(n, o0.r, o1.r);
        EvalSame(env, b, n, o0.r, o1.r);
        if o2.Exit? {
          LogicExit(env, code2, code3, w2, l, cond, base, o0.r, o1.r, Eval(env, b, o0.r), o2.j, o2.r);
        }
      } else {
        FirstExit(code1, code2, code3, w2, l, cond, o1.j, o1.r);
      }
    }
  }

  lemma LogicEval(env: Env, r: Regs, a: Ast, b: Ast, cond: bool)
    ensures Eval(env, Logic(cond, a, b), r) == if Truthy(Eval(env, a, r)) == cond then Eval(env, a, r)
        else Eval(env, b, r)
  {
  }

  /** A jump of the first operand in the lists of the whole. */
  lemma FirstExit(code1: seq<Instr>, code2: seq<Instr>, code3: seq<Instr>, w2: Jumps, l: seq<nat>, cond: bool, j: nat,
      r: Regs)
    requires j in l && SameValues(code1, code2, Elems(l)) && SameValues(code2, code3, All(w2) + Elems(l))
        && Elems(l) !! All(w2)
    ensures ExitValue(code3, j, r, cond) == ExitValue(code1, j, r, cond)
    ensures var w3 := WithJumps(w2, l, cond); if cond then j in w3.t else j !in w3.t && j in w3.f
  {
    hide HasValue;
    assert j in Elems(l) && j !in All(w2);
    assert ExitValue(code2, j, r, cond) == ExitValue(code1, j, r, cond);
    assert ExitValue(code3, j, r, cond) == ExitValue(code2, j, r, cond);
  }

  lemma LogicExit(env: Env, code2: seq<Instr>, code3: seq<Instr>, w2: Jumps, l: seq<nat>, cond: bool, base: nat,
      r0: Regs, r1: Regs, v: Value, j: nat, r: Regs)
    requires LeavesAt(code2, w2, base, r1, v, j, r) && SameBelow(base, r0, r1)
        && SameValues(code2, code3, All(w2) + Elems(l)) && Elems(l) !! All(w2)
    ensures LeavesAt(code3, WithJumps(w2, l, cond), base, r0, v, j, r)
  {
    hide HasValue;
    assert j in All(w2);
    assert j !in l by { assert j !in Elems(l); }
    assert ExitValue(code3, j, r, true) == ExitValue(code2, j, r, true)
        && ExitValue(code3, j, r, false) == ExitValue(code2, j, r, false);
  }

  lemma LogicMeans(k1: seq<Value>, k: seq<Value>, c0: Code, c1: Code, c2: Code, c3: Code, code2: seq<Instr>,
      code3: seq<Instr>, e2: ExpDesc, e3: ExpDesc, w2: Jumps,
                   l: seq<nat>, cond: bool, base: nat, n: nat, a: Ast, b: Ast)
    requires Branches(c0, c1, c1.code, k1, l, cond, base, a) && Means(c1, c2, code2, k, e2, w2, base, b) && k1 <= k
    requires SameValues(c1.code, code2, Elems(l)) && SameValues(code2, code3, All(w2) + Elems(l)) && Elems(l) !! All(w2)
    requires forall env, r {:trigger Exec(env, c3, 0, r)} :: Exec(env, c3, 0, r) == Exec(env, c2, 0, r)
    requires forall env: Env, r {:trigger FallValue(env, code3, e3, r)} ::
        FallValue(env, code3, e3, r) == FallValue(env, code2, e2, r)
    requires Uses(b, n) && n <= base
    ensures Means(c0, c3, code3, k, e3, WithJumps(w2, l, cond), base, Logic(cond, a, b))
  {
    hide Exec, SameValues, FallValue;
    forall env: Env, r | k <= env.k
      ensures MeansAt(env, Exec(env, c0, 0, r), Exec(env, c3, 0, r), code3, e3, WithJumps(w2, l, cond), base,
          Logic(cond, a, b))
    {
      var o0, o1, o2 := Exec(env, c0, 0, r), Exec(env, c1, 0, r), Exec(env, c2, 0, r);
      assert Exec(env, c3, 0, r) == o2;
      assert BranchAt(env, o0, o1, c1.code, l, cond, base, a) && MeansAt(env, o1, o2, code2, e2, w2, base, b);
      LogicAt(env, o0, o1, o2, c1.code, code2, code3, e2, e3, w2, l, cond, base, n, a, b);
    }
  }

  /**
   * luaK_posfix for and (cond is false) and or (cond is true): the jumps of the first operand join the list of the
   * second one.
   */
  method PosfixLogic(fs: FuncState, e: ExpDesc, h: int, cond: bool, ghost w: Jumps, ghost l: seq<nat>, ghost base: nat,
      ghost c0: Code, ghost c1: Code,
                     ghost k1: seq<Value>, ghost a: Ast, ghost b: Ast) returns (e3: ExpDesc, ghost w3: Jumps)
    requires Compiled(fs, e, w, base, c1, b) && TrueConst(fs.k, e) && k1 <= fs.k && Uses(a, fs.nactvar) && Wf(c0)
    requires Branches(c0, c1, c1.code, k1, l, cond, base, a) && IsList(c1.code, h, l) && c1.pend == c0.pend + Elems(l)
        && c0.pend !! Elems(l)
    requires KeptAll(c0.code, c1.code, c0.pend)
    modifies fs`code
    ensures Compiled(fs, e3, w3, base, c0, Logic(cond, a, b)) && TrueConst(fs.k, e3)
  {
    hide *;
    var e2 := DischargeVars(e);
    VarsCompiled(fs, e, w, base, c1, b);
    VarsTrue(fs.k, e);
    CompiledParts(fs, e2, w, base, c1, b);
    ShapeParts(fs, e2, w, base);
    ghost var code2, c2 := fs.code, Core(fs, e2);
    CoreOk(fs, e2, w, base);
    CoreOfIs(fs, e2);
    ghost var keep := if cond then w.t else w.f;
    ghost var n := |fs.k|;
    PlacedIs(fs, e2, w, base);
    Operands(code2, fs.pend, h, w, l, keep, c0, c1, e2, cond);
    var x := fs.Join(if cond then e2.t else e2.f, h, keep, l);
    e3 := if cond then ExpDesc(e2.k, x, e2.f) else ExpDesc(e2.k, e2.t, x);
    w3 := WithJumps(w, l, cond);
    RelinkedCore(fs, code2, c2, e2, e3, w, keep, n, base);
    OtherOperand(fs, code2, e2, e3, w, w3, l, keep, cond);
    RelinkedPlace(fs, code2, e2, e3, w, w3, l, keep, cond, base);
    RelinkedKept(c0, c1, code2, fs.code, fs.pend, keep, l, w, e2);
    LogicMeans(k1, fs.k, c0, c1, c2, Core(fs, e3), code2, fs.code, e2, e3, w, l, cond, base, fs.nactvar, a, b);
    LogicDone(fs, e2, e3, w, w3, l, cond, base, c0, c1, a, b);
    VarsKind(fs.k, e2, e3);
  }

  /** Where the value of e is, as Shape says it. */
  ghost predicate Placed(code: seq<Instr>, pend: set<nat>, js: seq<nat>, top: nat, nactvar: nat, nk: nat, base: nat,
      e: ExpDesc, w: Jumps) {
    match e.k
    case VLocal(i) => i < nactvar
    case VNonReloc(i) => i < nactvar || i == base
    case VReloc(p) => p + 1 == |code| && code[p].Not? && js == [] && top <= p
    case VJmp(p) => p > 0 && p + 1 == |code| && code[p - 1].Compare? && IsList(code, p, [p]) && p in pend && js == []
        && top < p && p !in All(w)
    case VK(i) => i < nk
    case _ => true
  }

  lemma PlacedIs(fs: FuncState, e: ExpDesc, w: Jumps, base: nat)
    requires Shape(fs, e, w, base)
    ensures Placed(fs.code, fs.pend, fs.js, fs.lasttarget, fs.nactvar, |fs.k|, base, e, w)
  {
  }

  /** The lists of the two operands are apart, and the first one's is as it was. */
  lemma Operands(code: seq<Instr>, pend: set<nat>, h: int, w: Jumps, l: seq<nat>, keep: seq<nat>, c0: Code, c1: Code,
      e: ExpDesc, cond: bool)
    requires IsList(c1.code, h, l) && c1.pend == c0.pend + Elems(l) && KeptAll(c1.code, code, c1.pend)
    requires pend == c1.pend + All(w) + Own(e) && c1.pend !! All(w) + Own(e) && keep == if cond then w.t else w.f
    ensures SameValues(c1.code, code, Elems(l)) && IsList(code, h, l) && Elems(l) !! All(w) && Elems(keep) !! Elems(l)
        && Elems(keep) <= pend
    ensures Elems(keep) <= All(w) && Own(e) !! Elems(l)
  {
    PendList(c1.code, code, c1.pend, h, l);
    PendValues(c1.code, code, c1.pend, Elems(l));
  }

  /** Links between jumps of a list do not matter to the core, nor to the place of the value. */
  lemma RelinkedCore(fs: FuncState, code2: seq<Instr>, c2: Code, e2: ExpDesc, e3: ExpDesc, w: Jumps, keep: seq<nat>,
      n: nat, base: nat)
    requires Relinked(code2, fs.code, Elems(keep)) && c2 == CoreOf(code2, fs.pend, Elems(fs.js), e2) && e3.k == e2.k
    requires Ok(c2, fs.lasttarget) && All(w) <= c2.pend && Elems(keep) <= All(w)
    requires Placed(code2, fs.pend, fs.js, fs.lasttarget, fs.nactvar, n, base, e2, w)
    ensures forall env, r {:trigger Exec(env, Core(fs, e3), 0, r)} ::
        Exec(env, Core(fs, e3), 0, r) == Exec(env, c2, 0, r)
    ensures forall env: Env, r {:trigger FallValue(env, fs.code, e3, r)} ::
        FallValue(env, fs.code, e3, r) == FallValue(env, code2, e2, r)
  {
    CoreOfIs(fs, e3);
    var d := Core(fs, e3);
    forall i: nat | i < |c2.code| ensures d.code[i] == c2.code[i] || (i in Elems(keep) && c2.code[i].Jmp?
        && d.code[i].Jmp?) {
      assert fs.code[i] == code2[i] || (i in Elems(keep) && code2[i].Jmp? && fs.code[i].Jmp?);
    }
    assert Relinked(c2.code, d.code, Elems(keep)) && d == Code(d.code, c2.pend, c2.here);
    forall env, r ensures Exec(env, d, 0, r) == Exec(env, c2, 0, r) {
      hide Exec, Ok, Relinked;
      RelinkRun(c2, fs.lasttarget, d.code, Elems(keep), env, r);
    }
    if e2.k.VReloc? { assert fs.code[e2.k.info] == code2[e2.k.info]; }
    if e2.k.VJmp? { assert fs.code[e2.k.info - 1] == code2[e2.k.info - 1]; }
  }

  /** The lists of the whole expression. */
  lemma OtherOperand(fs: FuncState, code2: seq<Instr>, e2: ExpDesc, e3: ExpDesc, w: Jumps, w3: Jumps, l: seq<nat>,
      keep: seq<nat>, cond: bool)
    requires Relinked(code2, fs.code, Elems(keep)) && keep == (if cond then w.t else w.f) && w3 == WithJumps(w, l, cond)
    requires IsList(code2, e2.t, w.t) && IsList(code2, e2.f, w.f) && Elems(w.t) !! Elems(w.f) && Elems(l) !! All(w)
    requires IsList(fs.code, if cond then e3.t else e3.f, keep + l) && (if cond then e3.f == e2.f else e3.t == e2.t)
    ensures IsList(fs.code, e3.t, w3.t) && IsList(fs.code, e3.f, w3.f) && Elems(w3.t) !! Elems(w3.f)
        && All(w3) == All(w) + Elems(l)
    ensures SameValues(code2, fs.code, All(w) + Elems(l))
  {
    if cond {
      RelinkedList(code2, fs.code, Elems(keep), e2.f, w.f);
    } else {
      RelinkedList(code2, fs.code, Elems(keep), e2.t, w.t);
    }
    RelinkedValues(code2, fs.code, Elems(keep), All(w) + Elems(l));
    ElemsSum(keep, l);
  }

  lemma RelinkedPlace(fs: FuncState, code2: seq<Instr>, e2: ExpDesc, e3: ExpDesc, w: Jumps, w3: Jumps, l: seq<nat>,
      keep: seq<nat>, cond: bool, base: nat)
    requires Relinked(code2, fs.code, Elems(keep)) && e3.k == e2.k && Elems(keep) <= All(w)
        && All(w3) == All(w) + Elems(l)
    requires Placed(code2, fs.pend, fs.js, fs.lasttarget, fs.nactvar, |fs.k|, base, e2, w) && Own(e2) !! Elems(l)
    ensures Placed(fs.code, fs.pend, fs.js, fs.lasttarget, fs.nactvar, |fs.k|, base, e3, w3)
  {
    if e2.k.VReloc? {
      assert fs.code[e2.k.info] == code2[e2.k.info];
    } else if e2.k.VJmp? {
      var p := e2.k.info;
      assert fs.code[p - 1] == code2[p - 1];
      assert p in Own(e2) && p !in Elems(l) && p !in Elems(keep);
      RelinkedList(code2, fs.code, Elems(keep), p, [p]);
    }
  }

  lemma RelinkedKept(c0: Code, c1: Code, code2: seq<Instr>, b: seq<Instr>, pend: set<nat>, keep: seq<nat>, l: seq<nat>,
      w: Jumps, e: ExpDesc)
    requires KeptAll(c0.code, c1.code, c0.pend) && KeptAll(c1.code, code2, c1.pend) && c1.pend == c0.pend + Elems(l)
    requires pend == c1.pend + All(w) + Own(e) && c1.pend !! All(w) + Own(e) && Elems(keep) <= All(w)
    requires forall i {:trigger i in pend} :: i in pend && i !in Elems(keep) ==> KeptJump(code2, b, i)
    ensures KeptAll(c0.code, b, c0.pend)
  {
    forall i | i in c0.pend ensures KeptJump(c0.code, b, i) {
      assert i in c1.pend && i in pend;
      KeptTrans(c0.code, c1.code, code2, i);
      KeptTrans(c0.code, code2, b, i);
    }
  }

  lemma LogicDone(fs: FuncState, e2: ExpDesc, e3: ExpDesc, w: Jumps, w3: Jumps, l: seq<nat>, cond: bool, base: nat,
      c0: Code, c1: Code, a: Ast, b: Ast)
    requires fs.Valid() && fs.nactvar <= base && fs.freereg == base + Temps(e2, fs.nactvar) && e3.k == e2.k
        && Uses(a, fs.nactvar) && Uses(b, fs.nactvar)
    requires IsList(fs.code, e3.t, w3.t) && IsList(fs.code, e3.f, w3.f) && Elems(w3.t) !! Elems(w3.f)
        && All(w3) == All(w) + Elems(l) && w3 == WithJumps(w, l, cond)
    requires Placed(fs.code, fs.pend, fs.js, fs.lasttarget, fs.nactvar, |fs.k|, base, e3, w3)
    requires fs.pend == c1.pend + All(w) + Own(e2) && c1.pend !! All(w) + Own(e2) && c1.pend == c0.pend + Elems(l)
        && c0.pend !! Elems(l)
    requires KeptAll(c0.code, fs.code, c0.pend)
        && Means(c0, Core(fs, e3), fs.code, fs.k, e3, w3, base, Logic(cond, a, b))
    ensures Compiled(fs, e3, w3, base, c0, Logic(cond, a, b))
  {
    hide Means, Exec, KeptAll, IsList;
    assert Own(e3) == Own(e2);
  }

  lemma VarsKind(k: seq<Value>, e2: ExpDesc, e3: ExpDesc)
    requires TrueConst(k, e2) && e3.k == e2.k
    ensures TrueConst(k, e3)
  {
  }

  // ---- Comparisons (codecomp)

  /** The operand that an expression without lists stands for after luaK_exp2RK. */
  function OperandOf(e: ExpDesc): Operand
    requires e.k.VNonReloc? || e.k.VK?
  {
    if e.k.VNonReloc? then Reg(e.k.info) else Const(e.k.info)
  }

  /**
   * The comparison that codecomp emits: > and >= become < and <= with their operands exchanged, ~= becomes == with the
   * other condition.
   */
  function CompareOf(op: RelOp, x: Operand, y: Operand): Instr {
    match op
    case OpEQ => Compare(EQ, true, x, y)
    case OpLT => Compare(LT, true, x, y)
    case OpLE => Compare(LE, true, x, y)
    case OpNE => Compare(EQ, false, x, y)
    case OpGT => Compare(LT, true, y, x)
    case OpGE => Compare(LE, true, y, x)
  }

  lemma CompareTaken(env: Env, op: RelOp, x: Operand, y: Operand, r: Regs)
    ensures IsTest(CompareOf(op, x, y)) && !CompareOf(op, x, y).TestSet? && CompareOf(op, x, y).Compare?
    ensures Taken(env, CompareOf(op, x, y), r) == Rel(env, op, RK(env, r, x), RK(env, r, y))
  {
  }

  /** Both operands are in place: o1 was before the code of the second one. */
  lemma ComparedAt(env: Env, o0: Out, o1: Out, o2: Out, code1: seq<Instr>, code2: seq<Instr>, code3: seq<Instr>,
      e1: ExpDesc, e2: ExpDesc,
                   e3: ExpDesc, base: nat, n: nat, op: RelOp, a: Ast, b: Ast)
    requires MeansAt(env, o0, o1, code1, e1, NoJumps(), base, a)
        && MeansAt(env, o1, o2, code2, e2, NoJumps(), base + Temps(e1, n), b)
    requires (e1.k.VNonReloc? && (e1.k.info < n || e1.k.info == base)) || e1.k.VK?
    requires (e2.k.VNonReloc? || e2.k.VK?) && n <= base && Uses(b, n)
    requires e3.k.VJmp? && 0 < e3.k.info <= |code3|
        && code3[e3.k.info - 1] == CompareOf(op, OperandOf(e1), OperandOf(e2))
    ensures MeansAt(env, o0, o2, code3, e3, NoJumps(), base, ARel(op, a, b))
  {
    if o0.Fall? {
      assert o1.Fall?;
      EvalSame(env, b, n, o0.r, o1.r);
      assert o2.Fall?;
      CompareTaken(env, op, OperandOf(e1), OperandOf(e2), o2.r);
      assert RK(env, o2.r, OperandOf(e2)) == FallValue(env, code2, e2, o2.r);
      assert RK(env, o2.r, OperandOf(e1)) == FallValue(env, code1, e1, o1.r) by {
        if e1.k.VNonReloc? { assert Get(o2.r, e1.k.info) == Get(o1.r, e1.k.info); }
      }
    }
  }

  lemma ComparedMeans(k1: seq<Value>, k: seq<Value>, c0: Code, c1: Code, c2: Code, c3: Code, code1: seq<Instr>,
      code2: seq<Instr>, code3: seq<Instr>, e1: ExpDesc, e2: ExpDesc,
                      e3: ExpDesc, base: nat, n: nat, op: RelOp, a: Ast, b: Ast)
    requires Means(c0, c1, code1, k1, e1, NoJumps(), base, a)
        && Means(c1, c2, code2, k, e2, NoJumps(), base + Temps(e1, n), b) && k1 <= k
    requires (e1.k.VNonReloc? && (e1.k.info < n || e1.k.info == base)) || e1.k.VK?
    requires (e2.k.VNonReloc? || e2.k.VK?) && n <= base && Uses(b, n)
    requires e3.k.VJmp? && 0 < e3.k.info <= |code3|
        && code3[e3.k.info - 1] == CompareOf(op, OperandOf(e1), OperandOf(e2))
    requires forall env, r :: Exec(env, c3, 0, r) == Exec(env, c2, 0, r)
    ensures Means(c0, c3, code3, k, e3, NoJumps(), base, ARel(op, a, b))
  {
    hide Exec, FallValue, CompareOf;
    forall env: Env, r | k <= env.k ensures MeansAt(env, Exec(env, c0, 0, r), Exec(env, c3, 0, r), code3, e3, NoJumps(),
        base, ARel(op, a, b)) {
      var o0, o1, o2 := Exec(env, c0, 0, r), Exec(env, c1, 0, r), Exec(env, c2, 0, r);
      assert Exec(env, c3, 0, r) == o2;
      assert MeansAt(env, o0, o1, code1, e1, NoJumps(), base, a)
          && MeansAt(env, o1, o2, code2, e2, NoJumps(), base + Temps(e1, n), b);
      ComparedAt(env, o0, o1, o2, code1, code2, code3, e1, e2, e3, base, n, op, a, b);
    }
  }

  /** codecomp: e1 is an operand already; luaK_infix put it in place. */
  method CodeComp(fs: FuncState, op: RelOp, e1: ExpDesc, e2: ExpDesc, ghost w: Jumps, ghost base: nat, ghost c0: Code,
      ghost c1: Code, ghost k1: seq<Value>, ghost a: Ast, ghost b: Ast)
    returns (e3: ExpDesc)
    requires ((e1.k.VNonReloc? && (e1.k.info < fs.nactvar || e1.k.info == base)) || e1.k.VK?) && fs.nactvar <= base
        && Uses(a, fs.nactvar) && Wf(c1)
    requires Compiled(fs, e2, w, base + Temps(e1, fs.nactvar), c1, b) && k1 <= fs.k
    requires Means(c0, c1, c1.code, k1, e1, NoJumps(), base, a) && c1.pend == c0.pend
        && KeptAll(c0.code, c1.code, c0.pend)
    modifies fs`code, fs`jpc, fs`js, fs`k, fs`pend, fs`lasttarget, fs`freereg
    ensures Compiled(fs, e3, NoJumps(), base, c0, ARel(op, a, b)) && !e3.k.VK? && old(fs.k) <= fs.k
  {
    hide *;
    ghost var base2 := base + Temps(e1, fs.nactvar);
    var o1 := OperandOf(e1);
    var o2, e := Exp2RK(fs, e2, w, base2, c1, b);
    CompiledParts(fs, e, NoJumps(), base2, c1, b);
    FreeExp(fs, e);
    FreeExp(fs, e1);
    OperandIs(e, o2);
    ghost var c2, code2 := fs.C(), fs.code;
    ShapeParts(fs, e, NoJumps(), base2);
    OwnIs(e);
    NoneAll();
    CompareTest(op, o1, o2);
    var test := CompareOf(op, o1, o2);
    LabelIn(fs);
    var j := fs.CondJump(test);
    e3 := ExpDesc(VJmp(j), NO_JUMP, NO_JUMP);
    ComparedMeans(k1, fs.k, c0, c1, c2, Code(fs.code[..j - 1], c2.pend, {}), c1.code, code2, fs.code, e1, e, e3, base,
        fs.nactvar, op, a, b);
    CompDone(fs, e3, base, c0, c1, c2, code2, op, a, b);
  }

  lemma OperandIs(e: ExpDesc, o: Operand)
    requires (o.Reg? && e.k == VNonReloc(o.r)) || (o.Const? && e.k == VK(o.k) && o.k <= MAXINDEXRK)
    ensures (e.k.VNonReloc? || e.k.VK?) && OperandOf(e) == o
  {
  }

  lemma NoneAll()
    ensures All(NoJumps()) == {}
  {
  }

  lemma CompareTest(op: RelOp, x: Operand, y: Operand)
    ensures IsTest(CompareOf(op, x, y)) && !CompareOf(op, x, y).TestSet? && CompareOf(op, x, y).Compare?
  {
  }

  lemma LabelIn(fs: FuncState)
    requires fs.Valid()
    ensures fs.lasttarget <= |fs.code| && Wf(fs.C()) && fs.C().pend == fs.pend && fs.C().code == fs.code
  {
  }

  lemma CompDone(fs: FuncState, e3: ExpDesc, base: nat, c0: Code, c1: Code, c2: Code, code2: seq<Instr>, op: RelOp,
      a: Ast, b: Ast)
    requires e3.k.VJmp? && e3 == ExpDesc(e3.k, NO_JUMP, NO_JUMP) && var j := e3.k.info;
      && fs.Valid() && j == |code2| + 1 && |fs.code| == j + 1 && fs.code[j - 1].Compare? && fs.js == []
        && fs.lasttarget <= |code2|
      && fs.pend == c2.pend + {j} && j !in c2.pend && IsList(fs.code, j, [j])
      && Means(c0, Code(fs.code[..j - 1], c2.pend, {}), fs.code, fs.k, e3, NoJumps(), base, ARel(op, a, b))
    requires fs.nactvar <= base && fs.freereg == base && Uses(a, fs.nactvar) && Uses(b, fs.nactvar)
    requires c2.pend == c1.pend == c0.pend && KeptAll(c0.code, c1.code, c0.pend) && KeptAll(c1.code, code2, c1.pend)
    requires forall i {:trigger i in c2.pend} :: i in c2.pend ==> KeptJump(code2, fs.code, i)
    ensures Compiled(fs, e3, NoJumps(), base, c0, ARel(op, a, b))
  {
    hide Means, Exec, Ok;
    var j := e3.k.info;
    forall i | i in c0.pend ensures KeptJump(c0.code, fs.code, i) {
      assert i in c1.pend && i in c2.pend;
      KeptTrans(c0.code, c1.code, code2, i);
      KeptTrans(c0.code, code2, fs.code, i);
    }
    assert Core(fs, e3) == Code(fs.code[..j - 1], c2.pend, {});
    assert IsList(fs.code, NO_JUMP, []);
  }

  // ---- Whole expressions (lparser.c:1019-1069 calls luaK_prefix, luaK_infix and luaK_posfix in this order)

  lemma LeafCompiled(fs: FuncState, e: ExpDesc, a: Ast)
    requires fs.Valid() && fs.nactvar <= fs.freereg && Uses(a, fs.nactvar) && e == ExpDesc(e.k, NO_JUMP, NO_JUMP)
    requires match a
             case ANil => e.k == VNil
             case ATrue => e.k == VTrue
             case AFalse => e.k == VFalse
             case ANum(n) => e.k == VKNum(n)
             case AStr(s) => e.k.VK? && e.k.info < |fs.k| && fs.k[e.k.info] == Str(s)
             case ALocal(i) => e.k == VLocal(i)
             case _ => false
    ensures Compiled(fs, e, NoJumps(), fs.freereg, fs.C(), a) && TrueConst(fs.k, e)
  {
    hide Exec, Ok;
    var c := fs.C();
    assert Core(fs, e) == c;
    assert IsList(fs.code, NO_JUMP, []);
    LabelIn(fs);
    assert KeptAll(c.code, fs.code, c.pend) by { KeptRefl(fs); }
    forall env: Env, r | fs.k <= env.k ensures MeansAt(env, Exec(env, c, 0, r), Exec(env, c, 0, r), fs.code, e,
        NoJumps(), fs.freereg, a) {
      assert e.k.VK? ==> env.k[e.k.info] == fs.k[e.k.info];
    }
  }

  method Leaf(fs: FuncState, a: Ast) returns (e: ExpDesc)
    requires fs.Valid() && fs.nactvar <= fs.freereg && Uses(a, fs.nactvar) && !a.ANot? && !a.AAnd? && !a.AOr?
        && !a.ARel?
    modifies fs`k
    ensures Compiled(fs, e, NoJumps(), fs.freereg, fs.C(), a) && TrueConst(fs.k, e) && old(fs.k) <= fs.k
  {
    hide Compiled, Wf, Exec, Means;
    if a.AStr? {
      var i := AddK(fs, Str(a.s));  // luaK_stringK
      e := ExpDesc(VK(i), NO_JUMP, NO_JUMP);
    } else {
      e := ExpDesc(if a.ANil? then VNil else if a.ATrue? then VTrue else if a.AFalse? then VFalse else if a.ANum? then
          VKNum(a.n) else VLocal(a.i), NO_JUMP, NO_JUMP);
    }
    LeafCompiled(fs, e, a);
  }

  lemma BranchedParts(fs: FuncState, h: int, l: seq<nat>, base: nat, c0: Code, a: Ast, cond: bool)
    requires Branched(fs, h, l, base, c0, a, cond)
    ensures fs.Valid() && fs.nactvar <= base && fs.freereg == base && Uses(a, fs.nactvar)
    ensures IsList(fs.code, h, l) && fs.pend == c0.pend + Elems(l) && c0.pend !! Elems(l) && fs.C().pend == fs.pend
        && fs.C().code == fs.code
    ensures KeptAll(c0.code, fs.code, c0.pend) && Branches(c0, fs.C(), fs.code, fs.k, l, cond, base, a) && Wf(fs.C())
  {
  }

  lemma UsesParts(a: Ast, n: nat)
    requires Uses(a, n)
    ensures (a.ANot? ==> Uses(a.a, n)) && (a.AAnd? || a.AOr? || a.ARel? ==> Uses(a.a, n) && Uses(a.b, n))
  {
  }

  /** The code of an expression. */
  method Expr(fs: FuncState, a: Ast) returns (e: ExpDesc, ghost w: Jumps)
    requires fs.Valid() && fs.nactvar <= fs.freereg && Uses(a, fs.nactvar)
    modifies fs`code, fs`jpc, fs`js, fs`k, fs`pend, fs`lasttarget, fs`freereg
    ensures Compiled(fs, e, w, old(fs.freereg), old(fs.C()), a) && TrueConst(fs.k, e) && old(fs.k) <= fs.k
    decreases a, 1
  {
    hide *;
    ghost var base, c0 := fs.freereg, fs.C();
    LabelIn(fs);
    UsesParts(a, fs.nactvar);
    match a {
      case ANot(x) =>
        e, w := Expr(fs, x);
        e, w := CodeNot(fs, e, w, base, c0, x);  // luaK_prefix
        NotConstant(fs.k, e);
      case AAnd(x, y) =>
        e, w := ExprLogic(fs, a, false);
      case AOr(x, y) =>
        e, w := ExprLogic(fs, a, true);
      case ARel(op, x, y) =>
        e, w := ExprRel(fs, a);
      case _ =>
        e := Leaf(fs, a);
        w := NoJumps();
    }
  }

  lemma AstIs(a: Ast)
    ensures a.AAnd? ==> Logic(false, a.a, a.b) == a
    ensures a.AOr? ==> Logic(true, a.a, a.b) == a
  {
  }

  lemma NotConstant(k: seq<Value>, e: ExpDesc)
    requires !e.k.VK?
    ensures TrueConst(k, e)
  {
  }

  method ExprLogic(fs: FuncState, a: Ast, cond: bool) returns (e: ExpDesc, ghost w: Jumps)
    requires fs.Valid() && fs.nactvar <= fs.freereg && (if cond then a.AOr? else a.AAnd?) && Uses(a.a, fs.nactvar)
        && Uses(a.b, fs.nactvar)
    modifies fs`code, fs`jpc, fs`js, fs`k, fs`pend, fs`lasttarget, fs`freereg
    ensures Compiled(fs, e, w, old(fs.freereg), old(fs.C()), a) && TrueConst(fs.k, e) && old(fs.k) <= fs.k
    decreases a, 0
  {
    hide *;
    ghost var base, c0 := fs.freereg, fs.C();
    LabelIn(fs);
    AstIs(a);
    var e1;
    ghost var w1;
    e1, w1 := Expr(fs, a.a);
    var h;
    ghost var l;
    h, l := GoIf(fs, e1, cond, w1, base, c0, a.a);  // luaK_infix
    BranchedParts(fs, h, l, base, c0, a.a, cond);
    ghost var c1, k1 := fs.C(), fs.k;
    var e2;
    ghost var w2;
    e2, w2 := Expr(fs, a.b);
    e, w := PosfixLogic(fs, e2, h, cond, w2, l, base, c0, c1, k1, a.a, a.b);  // luaK_posfix
  }

  method ExprRel(fs: FuncState, a: Ast) returns (e: ExpDesc, ghost w: Jumps)
    requires fs.Valid() && fs.nactvar <= fs.freereg && a.ARel? && Uses(a.a, fs.nactvar) && Uses(a.b, fs.nactvar)
    modifies fs`code, fs`jpc, fs`js, fs`k, fs`pend, fs`lasttarget, fs`freereg
    ensures Compiled(fs, e, w, old(fs.freereg), old(fs.C()), a) && TrueConst(fs.k, e) && old(fs.k) <= fs.k
    decreases a, 0
  {
    hide *;
    ghost var base, c0 := fs.freereg, fs.C();
    LabelIn(fs);
    var e1;
    ghost var w1;
    e1, w1 := Expr(fs, a.a);
    var o1, e1k := Exp2RK(fs, e1, w1, base, c0, a.a);  // luaK_infix
    OperandIs(e1k, o1);
    RKParts(fs, e1k, base, c0, a.a);
    ghost var c1, k1 := fs.C(), fs.k;
    LabelIn(fs);
    var e2;
    ghost var w2;
    e2, w2 := Expr(fs, a.b);
    e := CodeComp(fs, a.op, e1k, e2, w2, base, c0, c1, k1, a.a, a.b);  // luaK_posfix
    w := NoJumps();
    NotConstant(fs.k, e);
  }

  lemma RKParts(fs: FuncState, e: ExpDesc, base: nat, c0: Code, a: Ast)
    requires Compiled(fs, e, NoJumps(), base, c0, a) && (e.k.VNonReloc? || e.k.VK?)
    ensures fs.Valid() && fs.freereg == base + Temps(e, fs.nactvar) && fs.nactvar <= base && Uses(a, fs.nactvar)
    ensures (e.k.VNonReloc? && (e.k.info < fs.nactvar || e.k.info == base)) || e.k.VK?
    ensures fs.C().pend == c0.pend && KeptAll(c0.code, fs.code, c0.pend)
        && Means(c0, fs.C(), fs.code, fs.k, e, NoJumps(), base, a)
  {
  }

  // ---- The theorem

  /** The run goes on with the value in register reg and the registers below it as they were. */
  ghost predicate Computes(env: Env, o0: Out, o: Out, reg: nat, a: Ast) {
    match o0
    case Fall(r0) => o.Fall? && Get(o.r, reg) == Eval(env, a, r0) && SameBelow(reg, r0, o.r)
    case _ => o == o0
  }

  /**
   * An expression into the next register (luaK_exp2nextreg).  Every run that came to the end of the code before, for
   * every content of the registers and every meaning of the comparisons, comes to the end of the code after, and has
   * the value of the expression in that register; no jump of the expression is left without a target.
   */
  method Compile(fs: FuncState, a: Ast) returns (reg: nat)
    requires fs.Valid() && fs.nactvar <= fs.freereg && Uses(a, fs.nactvar)
    modifies fs`code, fs`jpc, fs`js, fs`k, fs`pend, fs`lasttarget, fs`freereg
    ensures fs.Valid() && reg == old(fs.freereg) && fs.freereg == reg + 1 && fs.pend == old(fs.pend)
        && old(fs.k) <= fs.k
    ensures forall env: Env, r {:trigger Exec(env, fs.C(), 0, r)} ::
        fs.k <= env.k ==> Computes(env, Exec(env, old(fs.C()), 0, r), Exec(env, fs.C(), 0, r), reg, a)
  {
    hide *;
    ghost var base, c0 := fs.freereg, fs.C();
    LabelIn(fs);
    var e;
    ghost var w;
    e, w := Expr(fs, a);
    var e2 := Exp2NextReg(fs, e, w, base, c0, a);
    reg := e2.k.info;
    CompiledComputes(fs, e2, base, c0, a);
  }

  lemma CompiledComputes(fs: FuncState, e: ExpDesc, base: nat, c0: Code, a: Ast)
    requires Compiled(fs, e, NoJumps(), base, c0, a) && e == ExpDesc(VNonReloc(base), NO_JUMP, NO_JUMP) && Wf(c0)
    ensures fs.Valid() && fs.pend == c0.pend
    ensures forall env: Env, r {:trigger Exec(env, fs.C(), 0, r)} ::
        fs.k <= env.k ==> Computes(env, Exec(env, c0, 0, r), Exec(env, fs.C(), 0, r), base, a)
  {
    hide Exec, Wf, Ok, Eval;
    forall env: Env, r | fs.k <= env.k ensures Computes(env, Exec(env, c0, 0, r), Exec(env, fs.C(), 0, r), base, a) {
      NotStuck(env, c0, 0, r);
      assert MeansAt(env, Exec(env, c0, 0, r), Exec(env, Core(fs, e), 0, r), fs.code, e, NoJumps(), base, a);
    }
  }

  /**
   * The code of a function that starts with the expression: a run from its start reaches its end with the value in
   * register n.
   */
  method CompileFunction(n: nat, a: Ast) returns (fs: FuncState)
    requires Uses(a, n)
    ensures fs.Valid() && fs.pend == {}
    ensures forall env: Env, r {:trigger Exec(env, fs.C(), 0, r)} :: fs.k <= env.k ==>
      var o := Exec(env, fs.C(), 0, r); o.Fall? && Get(o.r, n) == Eval(env, a, r) && SameBelow(n, r, o.r)
    ensures a.ARel? && a.a.ALocal? && a.b.ALocal? ==>
      forall env: Env, r, x, y {:trigger Exec(env, fs.C(), 0, r), Num(x), Num(y)} ::
        fs.k <= env.k && NumberOrder(env) && Get(r, a.a.i) == Num(x) && Get(r, a.b.i) == Num(y) ==>
        Exec(env, fs.C(), 0, r).Fall? && Get(Exec(env, fs.C(), 0, r).r, n) == Bool(Compares(a.op, x, y))
  {
    fs := new FuncState(n);
    ghost var c0 := fs.C();
    var reg := Compile(fs, a);
    hide Eval, Wf, Ok;
    forall env: Env, r | fs.k <= env.k ensures var o := Exec(env, fs.C(), 0, r);
        o.Fall? && Get(o.r, n) == Eval(env, a, r) && SameBelow(n, r, o.r) {
      assert Exec(env, c0, 0, r) == Fall(r);
      assert Computes(env, Exec(env, c0, 0, r), Exec(env, fs.C(), 0, r), reg, a);
    }
    if a.ARel? && a.a.ALocal? && a.b.ALocal? {
      forall env: Env, r, x, y | fs.k <= env.k && NumberOrder(env) && Get(r, a.a.i) == Num(x) && Get(r, a.b.i) == Num(y)
        ensures Eval(env, a, r) == Bool(Compares(a.op, x, y))
      {
        LocalsCompare(env, a.op, a.a.i, a.b.i, r, x, y);
      }
    }
  }

  lemma LocalsCompare(env: Env, op: RelOp, i: nat, j: nat, r: Regs, x: int, y: int)
    requires NumberOrder(env) && Get(r, i) == Num(x) && Get(r, j) == Num(y)
    ensures Eval(env, ARel(op, ALocal(i), ALocal(j)), r) == Bool(Compares(op, x, y))
  {
    EvalCompares(env, op, ALocal(i), ALocal(j), r, x, y);
  }

  /**
   * An assignment to the local variable v (luaK_storevar): v gets the value, and the other registers below base are as
   * they were.
   */
  ghost predicate Assigns(env: Env, o0: Out, o: Out, v: nat, base: nat, a: Ast) {
    match o0
    case Fall(r0) => o.Fall? && Get(o.r, v) == Eval(env, a, r0) && forall i: nat {:trigger Get(o.r, i)} ::
        i < base && i != v ==> Get(o.r, i) == Get(r0, i)
    case _ => o == o0
  }

  method Assign(fs: FuncState, v: nat, a: Ast)
    requires fs.Valid() && fs.nactvar <= fs.freereg && Uses(a, fs.nactvar) && v < fs.nactvar
    modifies fs`code, fs`jpc, fs`js, fs`k, fs`pend, fs`lasttarget, fs`freereg
    ensures fs.Valid() && fs.freereg == old(fs.freereg) && fs.pend == old(fs.pend) && old(fs.k) <= fs.k
    ensures forall env: Env, r {:trigger Exec(env, fs.C(), 0, r)} :: fs.k <= env.k ==>
      Assigns(env, Exec(env, old(fs.C()), 0, r), Exec(env, fs.C(), 0, r), v, old(fs.freereg), a)
  {
    hide *;
    ghost var base, c0 := fs.freereg, fs.C();
    LabelIn(fs);
    var e;
    ghost var w;
    e, w := Expr(fs, a);
    CompiledParts(fs, e, w, base, c0, a);
    ghost var c, code, k0 := Core(fs, e), fs.code, fs.k;
    FreeExp(fs, e);
    var e2 := Exp2Reg(fs, e, v, w, base);
    DisjointParts(c0.pend, w, e);
    PutsAssign(k0, fs.k, c0, c, fs.C(), code, e, w, base, a, v);
  }

  lemma PutsAssign(k0: seq<Value>, k: seq<Value>, c0: Code, c: Code, d: Code, code: seq<Instr>, e: ExpDesc, w: Jumps,
      base: nat, a: Ast, v: nat)
    requires Means(c0, c, code, k0, e, w, base, a) && Puts(k, c, d, code, e, w, v) && k0 <= k && Wf(c0)
        && c0.pend !! All(w)
    ensures forall env: Env, r {:trigger Exec(env, d, 0, r)} ::
        k <= env.k ==> Assigns(env, Exec(env, c0, 0, r), Exec(env, d, 0, r), v, base, a)
  {
    hide Exec, Wf, Eval, HasValue;
    forall env: Env, r | k <= env.k ensures Assigns(env, Exec(env, c0, 0, r), Exec(env, d, 0, r), v, base, a) {
      NotStuck(env, c0, 0, r);
      assert MeansAt(env, Exec(env, c0, 0, r), Exec(env, c, 0, r), code, e, w, base, a);
      assert PutAt(env, Exec(env, c, 0, r), Exec(env, d, 0, r), code, e, w, v);
    }
  }
}
