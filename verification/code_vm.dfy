/**
 * The instructions that lcode.c emits for expressions, as lopcodes.h:165-205 describes them, run on code that may still
 * have jumps without a target.
 */
module CodeVm {

  datatype Value = Nil | Bool(v: bool) | Num(n: int) | Str(s: string)

  predicate Truthy(v: Value) { v != Nil && v != Bool(false) }

  datatype CmpOp = EQ | LT | LE

  /** RK(x): a register or a constant. */
  datatype Operand = Reg(r: nat) | Const(k: nat)

  const NO_REG: int := -1

  datatype Instr =
    | Move(a: nat, b: nat)
    | LoadK(a: nat, k: nat)
    | LoadBool(a: nat, v: bool, skip: bool)
    | LoadNil(a: nat, n: nat)
    | Not(a: nat, b: nat)
    | Compare(op: CmpOp, cond: bool, x: Operand, y: Operand)
    | Test(a: nat, c: bool)
    | TestSet(dst: int, b: nat, c: bool)
    | Jmp(sbx: int)

  /** The constants of the function, and what the comparisons say. */
  datatype Env = Env(k: seq<Value>, cmp: (CmpOp, Value, Value) -> bool)

  type Regs = map<nat, Value>

  function Get(r: Regs, i: nat): Value { if i in r then r[i] else Nil }

  function Set(r: Regs, i: nat, v: Value): (s: Regs)
    ensures Get(s, i) == v && forall j: nat :: j != i ==> Get(s, j) == Get(r, j)
  {
    if Get(r, i) == v then r else r[i := v]
  }

  /** Registers from, ..., from + n become nil. */
  function SetNils(r: Regs, from: nat, n: nat): (s: Regs)
    ensures forall j: nat :: Get(s, j) == if from <= j <= from + n then Nil else Get(r, j)
  {
    map i | i in r :: if from <= i <= from + n then Nil else r[i]
  }

  function RK(env: Env, r: Regs, o: Operand): Value {
    match o
    case Reg(i) => Get(r, i)
    case Const(i) => if i < |env.k| then env.k[i] else Nil
  }

  predicate IsTest(i: Instr) { i.Compare? || i.Test? || i.TestSet? }

  /** Whether a test lets the next instruction, a jump, be executed. */
  predicate Taken(env: Env, i: Instr, r: Regs)
    requires IsTest(i)
  {
    match i
    case Compare(op, cond, b, c) => env.cmp(op, RK(env, r, b), RK(env, r, c)) == cond
    case Test(a, c) => Truthy(Get(r, a)) == c
    case TestSet(_, b, c) => Truthy(Get(r, b)) == c
  }

  function Effect(env: Env, i: Instr, r: Regs): (s: Regs)
    ensures IsTest(i) && (!Taken(env, i, r) || !i.TestSet? || i.dst < 0) ==> s == r
  {
    match i
    case Move(a, b) => Set(r, a, Get(r, b))
    case LoadK(a, k) => Set(r, a, RK(env, r, Const(k)))
    case LoadBool(a, b, _) => Set(r, a, Bool(b))
    case LoadNil(a, n) => SetNils(r, a, n)
    case Not(a, b) => Set(r, a, Bool(!Truthy(Get(r, b))))
    case TestSet(a, b, c) => if Truthy(Get(r, b)) == c && a >= 0 then Set(r, a, Get(r, b)) else r
    case _ => r
  }

  function Skip(env: Env, i: Instr, r: Regs): (n: nat)
    ensures n == if IsTest(i) then (if Taken(env, i, r) then 1 else 2) else if i.LoadBool? && i.skip then 2 else 1
  {
    if IsTest(i) then (if Taken(env, i, r) then 1 else 2) else if i.LoadBool? && i.skip then 2 else 1
  }

  /** A test skips the jump behind it exactly if its outcome differs from its operand (lopcodes.h:200-205). */
  lemma TestsSkip(env: Env, r: Regs, op: CmpOp, c: bool, x: Operand, y: Operand, dst: int, b: nat)
    ensures Skip(env, Compare(op, c, x, y), r) == 2 <==> env.cmp(op, RK(env, r, x), RK(env, r, y)) != c
    ensures var falsy := Get(r, b) == Nil || Get(r, b) == Bool(false);
      && (Skip(env, Test(b, c), r) == 2 <==> falsy == c)
      && (Skip(env, TestSet(dst, b, c), r) == 2 <==> falsy == c)
      && (falsy != c && dst >= 0 ==> Get(Effect(env, TestSet(dst, b, c), r), dst) == Get(r, b))
  {
  }

  /** Code under construction: the jumps of pend have no target yet, those of here go to the end of the code. */
  datatype Code = Code(code: seq<Instr>, pend: set<nat>, here: set<nat>)

  /** How a run ends: at the end of the code, or at a jump without a target. */
  datatype Out = Fall(r: Regs) | Exit(j: nat, r: Regs) | Stuck

  ghost function Exec(env: Env, c: Code, i: nat, r: Regs): Out
    decreases |c.code| - i
  {
    if i == |c.code| then Fall(r)
    else if i > |c.code| then Stuck
    else if c.code[i].Jmp? then
      if i in c.here then Fall(r)
      else if i in c.pend then Exit(i, r)
      else if c.code[i].sbx >= 0 then Exec(env, c, i + 1 + c.code[i].sbx, r)
      else Stuck
    else Exec(env, c, i + Skip(env, c.code[i], r), Effect(env, c.code[i], r))
  }

  /** Position x is not the jump of a test. */
  predicate Landing(code: seq<Instr>, x: nat) {
    0 < x <= |code| ==> !IsTest(code[x - 1])
  }

  /**
   * A test has its jump after it, a LOADBOOL that skips is followed by another one, and a jump with a target goes
   * forward, to the end at most, and not between a test and its jump.
   */
  predicate WfAt(c: Code, i: nat) {
    i < |c.code| ==>
      match c.code[i]
      case LoadBool(_, _, skip) => skip ==> i + 1 < |c.code| && c.code[i + 1].LoadBool? && !c.code[i + 1].skip
      case Jmp(x) => i !in c.pend && i !in c.here ==> 0 <= x && i + 1 + x <= |c.code| && Landing(c.code, i + 1 + x)
      case ins => IsTest(ins) ==> i + 1 < |c.code| && c.code[i + 1].Jmp?
  }

  ghost predicate Wf(c: Code) {
    && (forall i: nat {:trigger WfAt(c, i)} :: WfAt(c, i))
    && (forall j {:trigger j in c.pend} {:trigger j in c.here} ::
        j in c.pend || j in c.here ==> j < |c.code| && c.code[j].Jmp?)
    && c.pend !! c.here
  }

  lemma {:induction false} NotStuck(env: Env, c: Code, i: nat, r: Regs)
    requires Wf(c) && i <= |c.code|
    ensures !Exec(env, c, i, r).Stuck?
    ensures Exec(env, c, i, r).Exit? ==> Exec(env, c, i, r).j in c.pend && Exec(env, c, i, r).j >= i
    decreases |c.code| - i
  {
    assert WfAt(c, i);
    hide Effect, Taken, RK, Set, Get, SetNils;
    if i < |c.code| {
      var ins := c.code[i];
      if ins.Jmp? {
        if i !in c.here && i !in c.pend { NotStuck(env, c, i + 1 + ins.sbx, r); }
      } else {
        NotStuck(env, c, i + Skip(env, ins, r), Effect(env, ins, r));
      }
    }
  }

  // ---- Adding instructions at the end

  function AppendOut(env: Env, ins: Instr, o: Out): Out {
    match o
    case Fall(r) => Fall(Effect(env, ins, r))
    case _ => o
  }

  predicate Plain(ins: Instr) { !IsTest(ins) && !ins.Jmp? && !(ins.LoadBool? && ins.skip) }

  lemma {:induction false} Append(env: Env, c: Code, ins: Instr, i: nat, r: Regs)
    requires Wf(c) && c.here == {} && Plain(ins) && i <= |c.code|
    ensures Exec(env, c.(code := c.code + [ins]), i, r) == AppendOut(env, ins, Exec(env, c, i, r))
    decreases |c.code| - i
  {
    assert WfAt(c, i);
    hide Effect, Taken, RK, Set, Get, SetNils;
    var d := c.(code := c.code + [ins]);
    if i == |c.code| {
      assert d.code[i] == ins;
      assert Exec(env, d, i + 1, Effect(env, ins, r)) == Fall(Effect(env, ins, r));
    } else {
      var x := c.code[i];
      assert d.code[i] == x;
      if x.Jmp? {
        if i !in c.pend { Append(env, c, ins, i + 1 + x.sbx, r); }
      } else {
        Append(env, c, ins, i + Skip(env, x, r), Effect(env, x, r));
      }
    }
  }

  /**
   * The pair of LOADBOOLs that ends an expression with jumps: a run that reaches it gets the first value and passes the
   * second.
   */
  lemma {:induction false} AppendPair(env: Env, c: Code, reg: nat, i: nat, r: Regs)
    requires Wf(c) && c.here == {} && i <= |c.code|
    ensures Exec(env, c.(code := c.code + [LoadBool(reg, false, true), LoadBool(reg, true, false)]), i, r)
        == AppendOut(env, LoadBool(reg, false, true), Exec(env, c, i, r))
    decreases |c.code| - i
  {
    assert WfAt(c, i);
    hide Taken, RK, Get, Set, SetNils;
    var d := c.(code := c.code + [LoadBool(reg, false, true), LoadBool(reg, true, false)]);
    if i == |c.code| {
      assert d.code[i] == LoadBool(reg, false, true);
      var r2 := Effect(env, d.code[i], r);
      assert Exec(env, d, i + 2, r2) == Fall(r2);
    } else {
      var x := c.code[i];
      assert d.code[i] == x;
      if x.Jmp? {
        if i !in c.pend { AppendPair(env, c, reg, i + 1 + x.sbx, r); }
      } else {
        AppendPair(env, c, reg, i + Skip(env, x, r), Effect(env, x, r));
      }
    }
  }

  function CondOut(env: Env, test: Instr, j: nat, o: Out): Out
    requires IsTest(test)
  {
    match o
    case Fall(r) => if Taken(env, test, r) then Exit(j, Effect(env, test, r)) else Fall(r)
    case _ => o
  }

  /** A test and its jump, which has no target yet. */
  lemma {:induction false} Cond(env: Env, c: Code, test: Instr, x: int, i: nat, r: Regs)
    requires Wf(c) && c.here == {} && IsTest(test) && i <= |c.code|
    ensures var n := |c.code|;
      Exec(env, Code(c.code + [test, Jmp(x)], c.pend + {n + 1}, {}), i, r) == CondOut(env, test, n + 1,
          Exec(env, c, i, r))
    decreases |c.code| - i
  {
    assert WfAt(c, i);
    hide Effect, Taken, RK, Set, Get, SetNils;
    var n := |c.code|;
    var d := Code(c.code + [test, Jmp(x)], c.pend + {n + 1}, {});
    if i == n {
      assert d.code[i] == test && d.code[i + 1] == Jmp(x);
      assert Exec(env, d, n + 1, Effect(env, test, r)) == Exit(n + 1, Effect(env, test, r));
      assert Exec(env, d, n + 2, Effect(env, test, r)) == Fall(Effect(env, test, r));
    } else {
      var y := c.code[i];
      assert d.code[i] == y;
      if y.Jmp? {
        if i !in c.pend { Cond(env, c, test, x, i + 1 + y.sbx, r); }
      } else {
        Cond(env, c, test, x, i + Skip(env, y, r), Effect(env, y, r));
      }
    }
  }

  /** A jump over a tail: it and the jumps to the old end now go to the new end. */
  lemma {:induction false} JumpOver(env: Env, c: Code, x: int, tail: seq<Instr>, i: nat, r: Regs)
    requires Wf(c) && i <= |c.code|
    ensures Exec(env, Code(c.code + [Jmp(x)] + tail, c.pend, c.here + {|c.code|}), i, r) == Exec(env, c, i, r)
    decreases |c.code| - i
  {
    assert WfAt(c, i);
    hide Effect, Taken, RK, Set, Get, SetNils;
    var n := |c.code|;
    var d := Code(c.code + [Jmp(x)] + tail, c.pend, c.here + {n});
    if i == n {
      assert d.code[i] == Jmp(x);
    } else {
      var y := c.code[i];
      assert d.code[i] == y;
      if y.Jmp? {
        if i !in c.pend && i !in c.here { JumpOver(env, c, x, tail, i + 1 + y.sbx, r); }
      } else {
        JumpOver(env, c, x, tail, i + Skip(env, y, r), Effect(env, y, r));
      }
    }
  }

  // ---- Jumps that get a target

  function HereOut(l: set<nat>, o: Out): Out {
    match o
    case Exit(j, r) => if j in l then Fall(r) else o
    case _ => o
  }

  /** Jumps without a target become jumps to the end. */
  lemma {:induction false} ToHere(env: Env, c: Code, l: set<nat>, i: nat, r: Regs)
    requires Wf(c) && l <= c.pend && i <= |c.code|
    ensures Exec(env, c.(pend := c.pend - l, here := c.here + l), i, r) == HereOut(l, Exec(env, c, i, r))
    decreases |c.code| - i
  {
    assert WfAt(c, i);
    hide Effect, Taken, RK, Set, Get, SetNils;
    var d := c.(pend := c.pend - l, here := c.here + l);
    if i < |c.code| {
      var y := c.code[i];
      if y.Jmp? {
        if i !in c.pend && i !in c.here { ToHere(env, c, l, i + 1 + y.sbx, r); }
      } else {
        ToHere(env, c, l, i + Skip(env, y, r), Effect(env, y, r));
      }
    }
  }

  /** The same instruction to a run that does not need the value of a TESTSET without a register. */
  predicate Same(x: Instr, y: Instr) {
    x == y || (x.TestSet? && x.dst == NO_REG && y == Test(x.b, x.c))
  }

  /**
   * d is c with other links in its jumps without a target, with the jumps of here at their target, and with some tests
   * in place of TESTSETs without a register.
   */
  ghost predicate Settled(c: Code, d: Code) {
    && |d.code| == |c.code| && d.pend == c.pend && d.here <= c.here
    && forall i: nat {:trigger d.code[i]} {:trigger c.code[i]} :: i < |c.code| ==>
         if i in c.pend || i in d.here then c.code[i].Jmp? && d.code[i].Jmp?
         else if i in c.here then d.code[i] == Jmp(|c.code| - (i + 1))
         else Same(c.code[i], d.code[i])
  }

  lemma {:induction false} SettledRun(env: Env, c: Code, d: Code, i: nat, r: Regs)
    requires Wf(c) && Settled(c, d) && i <= |c.code|
    ensures Exec(env, d, i, r) == Exec(env, c, i, r)
    decreases |c.code| - i
  {
    hide *;
    SettledAt(c, d, i);
    if i == |c.code| {
      RunEnd(env, c, r);
      RunEnd(env, d, r);
    } else if c.code[i].Jmp? {
      RunJump(env, c, i, r);
      RunJump(env, d, i, r);
      JumpWf(c, i);
      RunEnd(env, d, r);
      if i !in c.pend && i !in c.here {
        SettledRun(env, c, d, i + 1 + c.code[i].sbx, r);
      }
    } else {
      SameStep(env, c.code[i], d.code[i], r);
      RunStep(env, c, i, r);
      RunStep(env, d, i, r);
      SkipWf(env, c, i, r);
      SettledRun(env, c, d, i + Skip(env, c.code[i], r), Effect(env, c.code[i], r));
    }
  }

  lemma SettledAt(c: Code, d: Code, i: nat)
    requires Settled(c, d) && Wf(c) && i <= |c.code|
    ensures |d.code| == |c.code| && d.pend == c.pend && d.here <= c.here && c.pend !! c.here
    ensures i < |c.code| && c.code[i].Jmp? ==> d.code[i].Jmp? && (if i in c.pend || i in d.here then true
              else if i in c.here then d.code[i].sbx == |c.code| - (i + 1) else d.code[i] == c.code[i])
    ensures i < |c.code| && !c.code[i].Jmp? ==> Same(c.code[i], d.code[i])
  {
    assert WfAt(c, i);
  }

  lemma SameStep(env: Env, x: Instr, y: Instr, r: Regs)
    requires Same(x, y) && !x.Jmp?
    ensures !y.Jmp? && Skip(env, y, r) == Skip(env, x, r) && Effect(env, y, r) == Effect(env, x, r)
  {
  }

  lemma SkipWf(env: Env, c: Code, i: nat, r: Regs)
    requires Wf(c) && i < |c.code| && !c.code[i].Jmp?
    ensures i + Skip(env, c.code[i], r) <= |c.code|
  {
    assert WfAt(c, i);
  }

  // ---- The last patch: jumps that carry a value, and jumps to a LOADBOOL

  /** The test that controls jump j, if it has one (getjumpcontrol). */
  function Control(code: seq<Instr>, j: nat): (i: nat)
    requires j < |code|
    ensures i <= j && (i < j ==> i == j - 1 && IsTest(code[i]))
  {
    if j > 0 && IsTest(code[j - 1]) then j - 1 else j
  }

  /** Jump j leaves with its value in a register. */
  predicate HasValue(code: seq<Instr>, j: nat) {
    j < |code| && code[Control(code, j)].TestSet?
  }

  /** Where jump j of list l goes, and the test before it, for the patch with register reg. */
  ghost predicate Patched(c: Code, d: Code, l: set<nat>, reg: nat, p: int) {
    && |d.code| == |c.code| && d.pend == c.pend - l && d.here == c.here && l <= c.pend
    && (forall i: nat {:trigger d.code[i]} {:trigger c.code[i]} :: i < |c.code| ==>
          if i in l then d.code[i] == Jmp((if HasValue(c.code, i) then |c.code| else p) - (i + 1))
          else if i + 1 < |c.code| && i + 1 in l && c.code[i].TestSet? then
            d.code[i] == if reg != c.code[i].b then TestSet(reg, c.code[i].b, c.code[i].c)
                else Test(c.code[i].b, c.code[i].c)
          else d.code[i] == c.code[i])
  }

  /** The value with which jump j leaves. */
  function ExitValue(code: seq<Instr>, j: nat, r: Regs, b: bool): Value {
    if HasValue(code, j) then Get(r, code[Control(code, j)].b) else Bool(b)
  }

  function PatchOut(code: seq<Instr>, l: set<nat>, reg: nat, b: bool, o: Out): Out {
    match o
    case Exit(j, r) => if j in l then Fall(Set(r, reg, ExitValue(code, j, r, b))) else o
    case _ => o
  }

  /** At p there is a LOADBOOL of b into reg that leads to the end. */
  ghost predicate Loads(code: seq<Instr>, p: int, reg: nat, b: bool) {
    0 <= p < |code| && code[p].LoadBool? && code[p].a == reg && code[p].v == b && p + (if code[p].skip then 2 else 1)
        == |code|
  }

  /** The jumps of l that carry no value find a LOADBOOL of b at p, and the others have no register yet. */
  ghost predicate PatchReady(c: Code, l: set<nat>, reg: nat, p: int, b: bool) {
    && (forall j {:trigger j in l} :: j in l && HasValue(c.code, j) ==> c.code[Control(c.code, j)].dst == NO_REG)
    && (forall j {:trigger j in l} :: j in l && !HasValue(c.code, j) ==> Loads(c.code, p, reg, b) && j < p)
  }

  lemma {:induction false} PatchRun(env: Env, c: Code, d: Code, l: set<nat>, reg: nat, p: int, b: bool, i: nat, r: Regs)
    requires Wf(c) && Patched(c, d, l, reg, p) && PatchReady(c, l, reg, p, b) && i <= |c.code| && Landing(c.code, i)
    ensures Exec(env, d, i, r) == PatchOut(c.code, l, reg, b, Exec(env, c, i, r))
    decreases |c.code| - i
  {
    hide *;
    PatchLength(c, d, l, reg, p);
    if i == |c.code| {
      RunEnd(env, c, r);
      RunEnd(env, d, r);
      PatchFall(c.code, l, reg, b, r);
    } else if c.code[i].Jmp? {
      if i in l {
        PatchJump(env, c, d, l, reg, p, b, i, r);
      } else {
        PatchedPlain(c, d, l, reg, p, i);
        RunJump(env, c, i, r);
        RunJump(env, d, i, r);
        JumpWf(c, i);
        if i in c.here {
          PatchFall(c.code, l, reg, b, r);
        } else if i in c.pend {
          PatchExit(c.code, l, reg, b, i, r);
        } else {
          PatchRun(env, c, d, l, reg, p, b, i + 1 + c.code[i].sbx, r);
        }
      }
    } else if IsTest(c.code[i]) {
      TestWf(c, i);
      assert i !in l;
      if Taken(env, c.code[i], r) {
        if i + 1 in l {
          PatchTest(env, c, d, l, reg, p, b, i, r);
        } else {
          PatchNoTest(env, c, d, l, reg, p, b, i, r);
        }
      } else {
        PatchSkip(env, c, d, l, reg, p, i, r);
        PatchRun(env, c, d, l, reg, p, b, i + 2, r);
      }
    } else {
      StepWf(env, c, i, r);
      PatchedPlain(c, d, l, reg, p, i);
      RunStep(env, c, i, r);
      RunStep(env, d, i, r);
      PatchRun(env, c, d, l, reg, p, b, i + Skip(env, c.code[i], r), Effect(env, c.code[i], r));
    }
  }

  lemma RunEnd(env: Env, c: Code, r: Regs)
    ensures Exec(env, c, |c.code|, r) == Fall(r)
  {
  }

  lemma RunJump(env: Env, c: Code, i: nat, r: Regs)
    requires i < |c.code| && c.code[i].Jmp?
    ensures Exec(env, c, i, r) == if i in c.here then Fall(r) else if i in c.pend then Exit(i, r)
                                  else if c.code[i].sbx >= 0 then Exec(env, c, i + 1 + c.code[i].sbx, r) else Stuck
  {
  }

  lemma RunStep(env: Env, c: Code, i: nat, r: Regs)
    requires i < |c.code| && !c.code[i].Jmp?
    ensures Exec(env, c, i, r) == Exec(env, c, i + Skip(env, c.code[i], r), Effect(env, c.code[i], r))
  {
  }

  lemma JumpWf(c: Code, i: nat)
    requires Wf(c) && i < |c.code| && c.code[i].Jmp?
    ensures i !in c.pend && i !in c.here ==>
        0 <= c.code[i].sbx && i + 1 + c.code[i].sbx <= |c.code| && Landing(c.code, i + 1 + c.code[i].sbx)
  {
    assert WfAt(c, i);
  }

  lemma TestWf(c: Code, i: nat)
    requires Wf(c) && i < |c.code| && IsTest(c.code[i])
    ensures i + 1 < |c.code| && c.code[i + 1].Jmp? && Landing(c.code, i + 2) && i !in c.pend && i !in c.here
        && !c.code[i].Jmp?
  {
    assert WfAt(c, i);
  }

  lemma StepWf(env: Env, c: Code, i: nat, r: Regs)
    requires Wf(c) && i < |c.code| && !c.code[i].Jmp? && !IsTest(c.code[i])
    ensures i + Skip(env, c.code[i], r) <= |c.code| && Landing(c.code, i + Skip(env, c.code[i], r))
    ensures i !in c.pend && !c.code[i].TestSet?
  {
    assert WfAt(c, i);
  }

  lemma PatchLength(c: Code, d: Code, l: set<nat>, reg: nat, p: int)
    requires Patched(c, d, l, reg, p)
    ensures |d.code| == |c.code| && d.pend == c.pend - l && d.here == c.here && l <= c.pend
  {
  }

  lemma PatchFall(code: seq<Instr>, l: set<nat>, reg: nat, b: bool, r: Regs)
    ensures PatchOut(code, l, reg, b, Fall(r)) == Fall(r)
  {
  }

  lemma PatchExit(code: seq<Instr>, l: set<nat>, reg: nat, b: bool, j: nat, r: Regs)
    ensures PatchOut(code, l, reg, b, Exit(j, r)) == if j in l then Fall(Set(r, reg, ExitValue(code, j, r, b)))
        else Exit(j, r)
  {
  }

  lemma PatchedPlain(c: Code, d: Code, l: set<nat>, reg: nat, p: int, i: nat)
    requires Patched(c, d, l, reg, p) && i < |c.code| && i !in l && (i + 1 in l ==> !c.code[i].TestSet?)
    ensures d.code[i] == c.code[i]
  {
  }

  /** A jump of l that is reached without its test has no test. */
  lemma PatchJump(env: Env, c: Code, d: Code, l: set<nat>, reg: nat, p: int, b: bool, i: nat, r: Regs)
    requires Wf(c) && Patched(c, d, l, reg, p) && PatchReady(c, l, reg, p, b) && i < |c.code| && Landing(c.code, i)
        && i in l && c.code[i].Jmp?
    ensures Exec(env, d, i, r) == PatchOut(c.code, l, reg, b, Exec(env, c, i, r))
  {
    hide Effect, Taken, RK, Set, Get, SetNils, Exec;
    assert Control(c.code, i) == i && !HasValue(c.code, i);
    LoadRun(env, c, d, l, reg, p, b, r);
    RunJump(env, c, i, r);
    RunJump(env, d, i, r);
  }

  lemma LoadRun(env: Env, c: Code, d: Code, l: set<nat>, reg: nat, p: int, b: bool, r: Regs)
    requires Patched(c, d, l, reg, p) && Loads(c.code, p, reg, b) && Wf(c)
    ensures 0 <= p && Exec(env, d, p, r) == Fall(Set(r, reg, Bool(b)))
  {
    hide Taken, RK, Set, Get, SetNils, Exec;
    assert d.code[p] == c.code[p];
    RunStep(env, d, p, r);
    RunEnd(env, d, Set(r, reg, Bool(b)));
  }

  lemma PatchTest(env: Env, c: Code, d: Code, l: set<nat>, reg: nat, p: int, b: bool, i: nat, r: Regs)
    requires Wf(c) && Patched(c, d, l, reg, p) && PatchReady(c, l, reg, p, b) && i + 1 < |c.code| && IsTest(c.code[i])
        && i + 1 in l && c.code[i + 1].Jmp?
    requires Taken(env, c.code[i], r) && i !in l
    ensures Exec(env, d, i, r) == PatchOut(c.code, l, reg, b, Exec(env, c, i, r))
  {
    hide *;
    PatchLength(c, d, l, reg, p);
    PendOnly(c, i + 1);
    TestEffects(env, c, d, l, reg, p, b, i, r);
    RunStep(env, c, i, r);
    RunJump(env, c, i + 1, r);
    PatchExit(c.code, l, reg, b, i + 1, r);
    RunStep(env, d, i, r);
    if c.code[i].TestSet? {
      var r2 := Effect(env, d.code[i], r);
      RunJump(env, d, i + 1, r2);
      RunEnd(env, d, r2);
    } else {
      LoadRun(env, c, d, l, reg, p, b, r);
      RunJump(env, d, i + 1, r);
    }
  }

  /** What the test before a patched jump does, before and after the patch. */
  lemma TestEffects(env: Env, c: Code, d: Code, l: set<nat>, reg: nat, p: int, b: bool, i: nat, r: Regs)
    requires Patched(c, d, l, reg, p) && PatchReady(c, l, reg, p, b) && i + 1 < |c.code| && IsTest(c.code[i])
        && i + 1 in l && i !in l && c.code[i + 1].Jmp?
    requires Taken(env, c.code[i], r)
    ensures !c.code[i].Jmp? && !d.code[i].Jmp? && Skip(env, c.code[i], r) == 1 && Skip(env, d.code[i], r) == 1
    ensures Effect(env, c.code[i], r) == r
    ensures Effect(env, d.code[i], r) == if c.code[i].TestSet? then Set(r, reg, ExitValue(c.code, i + 1, r, b)) else r
    ensures d.code[i + 1] == Jmp((if c.code[i].TestSet? then |c.code| else p) - (i + 2))
    ensures !c.code[i].TestSet? ==> ExitValue(c.code, i + 1, r, b) == Bool(b) && Loads(c.code, p, reg, b) && i + 1 < p
  {
    hide RK, Set, Get, SetNils;
    assert Control(c.code, i + 1) == i;
    assert c.code[i].TestSet? == HasValue(c.code, i + 1);
    if c.code[i].TestSet? { SetSame(r, c.code[i].b); }
  }

  lemma PendOnly(c: Code, j: nat)
    requires Wf(c) && j in c.pend
    ensures j !in c.here
  {
  }

  lemma SetSame(r: Regs, i: nat)
    ensures Set(r, i, Get(r, i)) == r
  {
  }

  lemma PatchNoTest(env: Env, c: Code, d: Code, l: set<nat>, reg: nat, p: int, b: bool, i: nat, r: Regs)
    requires Wf(c) && Patched(c, d, l, reg, p) && PatchReady(c, l, reg, p, b) && i + 1 < |c.code| && IsTest(c.code[i])
        && i + 1 !in l && c.code[i + 1].Jmp?
    requires Taken(env, c.code[i], r) && i !in l && !c.code[i].Jmp?
    ensures Exec(env, d, i, r) == PatchOut(c.code, l, reg, b, Exec(env, c, i, r))
    decreases |c.code| - i, 0
  {
    hide *;
    var r2 := Effect(env, c.code[i], r);
    PatchLength(c, d, l, reg, p);
    PatchedPlain(c, d, l, reg, p, i);
    NoTestAfterJump(c, i + 1);
    PatchedPlain(c, d, l, reg, p, i + 1);
    RunStep(env, c, i, r);
    RunStep(env, d, i, r);
    RunJump(env, c, i + 1, r2);
    RunJump(env, d, i + 1, r2);
    JumpWf(c, i + 1);
    if i + 1 in c.here {
      PatchFall(c.code, l, reg, b, r2);
    } else if i + 1 in c.pend {
      PatchExit(c.code, l, reg, b, i + 1, r2);
    } else {
      PatchRun(env, c, d, l, reg, p, b, i + 2 + c.code[i + 1].sbx, r2);
    }
  }

  lemma NoTestAfterJump(c: Code, i: nat)
    requires i < |c.code| && c.code[i].Jmp?
    ensures !c.code[i].TestSet?
  {
  }

  /** A test that fails passes over its jump, patched or not. */
  lemma PatchSkip(env: Env, c: Code, d: Code, l: set<nat>, reg: nat, p: int, i: nat, r: Regs)
    requires Patched(c, d, l, reg, p) && i + 1 < |c.code| && IsTest(c.code[i]) && !Taken(env, c.code[i], r) && i !in l
    ensures Exec(env, d, i, r) == Exec(env, d, i + 2, r) && Exec(env, c, i, r) == Exec(env, c, i + 2, r)
  {
    hide RK, Set, Get, SetNils, Exec;
    assert !d.code[i].Jmp? && IsTest(d.code[i]) && !Taken(env, d.code[i], r);
    RunStep(env, c, i, r);
    RunStep(env, d, i, r);
  }

  // ---- LOADNIL taken together with the one before it (luaK_nil)

  /** The range a, ..., a + n joins the one of the last instruction and from, ..., from + m, which overlap or touch. */
  ghost predicate Widens(c: Code, a: nat, n: nat, from: nat, m: nat) {
    && |c.code| > 0 && c.code[|c.code| - 1].LoadNil?
    && var x := c.code[|c.code| - 1];
       a <= x.a && a <= from && x.a + x.n <= a + n && from + m <= a + n && (a == x.a || a == from)
           && (a + n == x.a + x.n || a + n == from + m) &&
       ((x.a <= from <= x.a + x.n + 1) || (from <= x.a <= from + m + 1))
  }

  lemma WidenNils(r: Regs, x: Instr, a: nat, n: nat, from: nat, m: nat)
    requires x.LoadNil? && a <= x.a && a <= from && x.a + x.n <= a + n && from + m <= a + n && (a == x.a || a == from)
    requires (a + n == x.a + x.n || a + n == from + m)
        && ((x.a <= from <= x.a + x.n + 1) || (from <= x.a <= from + m + 1))
    ensures SetNils(SetNils(r, x.a, x.n), from, m) == SetNils(r, a, n)
  {
    hide Get;
  }

  /**
   * The last instruction is a LOADNIL of a0, ..., a0 + n0 and no jump goes to the end: with its range widened to a,
   * ..., a + n it does what a LOADNIL of from, ..., from + m after it would do.
   */
  lemma {:induction false} Widen(env: Env, c: Code, a: nat, n: nat, from: nat, m: nat, i: nat, r: Regs)
    requires Wf(c) && c.here == {} && |c.code| > 0 && c.code[|c.code| - 1].LoadNil? && i < |c.code|
    requires forall j: nat {:trigger c.code[j]} ::
        j < |c.code| && c.code[j].Jmp? && j !in c.pend ==> j + 1 + c.code[j].sbx < |c.code|
    requires Widens(c, a, n, from, m)
    ensures Exec(env, c.(code := c.code[|c.code| - 1 := LoadNil(a, n)]), i, r) == AppendOut(env, LoadNil(from, m),
        Exec(env, c, i, r))
    decreases |c.code| - i
  {
    assert WfAt(c, i);
    hide Taken, RK, Get, Set, SetNils;
    var top := |c.code| - 1;
    var d := c.(code := c.code[top := LoadNil(a, n)]);
    var x := c.code[i];
    if i == top {
      var r1 := Effect(env, x, r);
      var r2 := SetNils(r, a, n);
      assert Exec(env, c, i + 1, r1) == Fall(r1);
      assert Exec(env, d, i + 1, r2) == Fall(r2);
      WidenNils(r, x, a, n, from, m);
    } else {
      assert d.code[i] == x;
      if x.Jmp? {
        if i !in c.pend { Widen(env, c, a, n, from, m, i + 1 + x.sbx, r); }
      } else {
        assert i + Skip(env, x, r) <= top;
        Widen(env, c, a, n, from, m, i + Skip(env, x, r), Effect(env, x, r));
      }
    }
  }
}
