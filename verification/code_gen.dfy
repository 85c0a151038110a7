/**
 * The code generator for expressions (lcode.c): constants, locals, comparisons, not, and, or, in place on the code of a
 * function.
 */
module CodeGen {
  import opened CodeVm
  import opened CodeLists

  class FuncState {
    var code: seq<Instr>
    var jpc: int
    var lasttarget: nat
    var freereg: nat
    var nactvar: nat
    var k: seq<Value>
    ghost var js: seq<nat>
    ghost var pend: set<nat>

    /** The code, with the jumps of lists that are not closed, and the jumps to the current position. */
    ghost function C(): Code
      reads this`code, this`pend, this`js
    {
      Code(code, pend, Elems(js))
    }

    /** jpc is a list of jumps to the current position, and the code is in order. */
    ghost predicate Valid()
      reads this`code, this`pend, this`js, this`jpc, this`lasttarget
    {
      IsList(code, jpc, js) && Ok(C(), lasttarget)
    }

    constructor (n: nat)
      ensures Valid() && code == [] && pend == {} && js == [] && k == [] && freereg == nactvar == n
    {
      code, jpc, lasttarget, freereg, nactvar, k, js, pend := [], NO_JUMP, 0, n, n, [], [], {};
    }

    /** patchtestreg */
    method PatchTestReg(node: nat, reg: int) returns (b: bool)
      requires node < |code|
      modifies this`code
      ensures b == HasValue(old(code), node)
      ensures code == if b then old(code)[Control(old(code), node) := TestPatch(old(code)[Control(old(code), node)],
          reg)] else old(code)
    {
      var i := Control(code, node);
      if !code[i].TestSet? { return false; }
      if reg != NO_REG && reg != code[i].b {
        code := code[i := TestSet(reg, code[i].b, code[i].c)];
      } else {  // the value is lost, or is there already
        code := code[i := Test(code[i].b, code[i].c)];
      }
      return true;
    }

    /** fixjump, without its limit on the offset */
    method FixJump(pc: nat, dest: int)
      requires pc < |code| && code[pc].Jmp?
      modifies this`code
      ensures code == old(code)[pc := Jmp(dest - (pc + 1))]
    {
      code := code[pc := Jmp(dest - (pc + 1))];
    }

    /** patchlistaux */
    method PatchListAux(list: int, vtarget: int, reg: int, dtarget: int, ghost s: seq<nat>)
      requires IsList(code, list, s)
      modifies this`code
      ensures PatchedTo(old(code), code, Elems(s), reg, vtarget, dtarget)
    {
      hide HasValue, PatchAt, NoDup;
      ghost var a := code;
      var l := list;
      ghost var n := 0;
      ListStart(a, list, s);
      PatchedStart(a, reg, vtarget, dtarget);
      while l != NO_JUMP
        invariant n <= |s| && l == (if n < |s| then s[n] else NO_JUMP) && IsList(a, list, s)
        invariant PatchedTo(a, code, Elems(s[..n]), reg, vtarget, dtarget)
        decreases |s| - n
      {
        ghost var b := code;
        ListAt(a, b, list, s, n, reg, vtarget, dtarget);
        var next := NextJump(code, l);
        var v := PatchTestReg(l, reg);
        ControlJump(b, l);
        if v {
          FixJump(l, vtarget);
        } else {
          FixJump(l, dtarget);
        }
        PatchedOne(a, b, code, Elems(s[..n]), reg, vtarget, dtarget, l);
        l := next;
        n := n + 1;
      }
      assert s[..n] == s;
    }

    /** need_value: does the list have a jump that produces no value? */
    method NeedValue(list: int, ghost s: seq<nat>) returns (need: bool)
      requires IsList(code, list, s)
      ensures need <==> exists j :: j in s && !HasValue(code, j)
    {
      var l := list;
      ghost var n := 0;
      while l != NO_JUMP
        invariant n <= |s| && l == (if n < |s| then s[n] else NO_JUMP)
        invariant forall i :: 0 <= i < n ==> HasValue(code, s[i])
        decreases |s| - n
      {
        assert LinkAt(code, s, n);
        if !code[Control(code, l)].TestSet? {
          assert l in s && !HasValue(code, l);
          return true;
        }
        l := NextJump(code, l);
        n := n + 1;
      }
      forall j | j in s ensures HasValue(code, j) {
        var i :| 0 <= i < |s| && s[i] == j;
      }
      return false;
    }

    /** removevalues */
    method RemoveValues(list: int, ghost s: seq<nat>)
      requires IsList(code, list, s)
      modifies this`code
      ensures ValuesRemoved(old(code), code, Elems(s)) && IsList(code, list, s)
    {
      ghost var a := code;
      var l := list;
      ghost var n := 0;
      while l != NO_JUMP
        invariant n <= |s| && l == (if n < |s| then s[n] else NO_JUMP)
        invariant ValuesRemoved(a, code, Elems(s[..n]))
        decreases |s| - n
      {
        ghost var b := code;
        assert LinkAt(a, s, n) && l in s;
        assert b[l] == a[l];
        var v := PatchTestReg(l, NO_REG);
        RemovedOne(a, b, code, s, n);
        l := NextJump(code, l);
        n := n + 1;
      }
      assert s[..n] == s;
      RemovedList(a, code, list, s);
    }

    /** luaK_concat: the list l1 followed by the list l2. */
    method Concat(l1: int, l2: int, ghost s1: seq<nat>, ghost s2: seq<nat>) returns (l: int)
      requires IsList(code, l1, s1) && IsList(code, l2, s2) && Elems(s1) !! Elems(s2)
      modifies this`code
      ensures IsList(code, l, s1 + s2)
      ensures Relinked(old(code), code, Elems(s1))
    {
      if l2 == NO_JUMP { assert s1 + s2 == s1; return l1; }
      if l1 == NO_JUMP { assert s1 + s2 == s2; return l2; }
      var list := l1;
      ghost var n := 0;
      assert LinkAt(code, s1, 0);
      var next := NextJump(code, list);
      while next != NO_JUMP
        invariant n < |s1| && list == s1[n] && list < |code| && code[list].Jmp? && next == NextJump(code, list)
            && code == old(code)
        decreases |s1| - n
      {
        assert LinkAt(code, s1, n);
        list := next;
        n := n + 1;
        assert LinkAt(code, s1, n);
        next := NextJump(code, list);
      }
      assert LinkAt(code, s1, n) && n + 1 == |s1|;
      FixJump(list, l2);
      Joined(old(code), code, l1, l2, s1, s2);
      return l1;
    }

    /** luaK_code: the jumps to here get the new instruction as their target. */
    method Put(ins: Instr) returns (pc: nat)
      requires IsList(code, jpc, js)
      modifies this`code, this`jpc, this`js
      ensures pc == |old(code)| && |code| == pc + 1 && code[pc] == ins && jpc == NO_JUMP && js == []
      ensures PatchedTo(old(code), code[..pc], Elems(old(js)), NO_REG, pc, pc)
    {
      PatchListAux(jpc, |code|, NO_REG, |code|, js);  // dischargejpc
      jpc, js := NO_JUMP, [];
      pc := |code|;
      ghost var b := code;
      code := code + [ins];
      assert code[..pc] == b;
    }

    /** luaK_codeABC for an instruction that is neither a test nor a jump. */
    method Emit(ins: Instr) returns (pc: nat)
      requires Valid() && Plain(ins)
      modifies this`code, this`jpc, this`js
      ensures Valid() && pc == |old(code)| && |code| == pc + 1 && code[pc] == ins && js == []
      ensures forall env, r {:trigger Exec(env, C(), 0, r)} ::
          Exec(env, C(), 0, r) == AppendOut(env, ins, Exec(env, old(C()), 0, r))
      ensures forall env, r {:trigger Exec(env, C().(code := code[..pc]), 0, r)} ::
          Exec(env, C().(code := code[..pc]), 0, r) == Exec(env, old(C()), 0, r)
      ensures Ok(C().(code := code[..pc]), lasttarget)
      ensures forall j {:trigger j in pend} :: j in pend ==> KeptJump(old(code), code, j)
    {
      hide *;
      ghost var c, top := C(), lasttarget;
      ValidParts();
      pc := Put(ins);
      ghost var d := Code(code[..pc], pend, {});
      DischargedFold(c.code, d.code, old(js), pend);
      DischargedOk(c, d, top);
      EmitOk(d, ins, top, code);
      forall env, r ensures Exec(env, Code(code, pend, {}), 0, r) == AppendOut(env, ins, Exec(env, c, 0, r))
          && Exec(env, d, 0, r) == Exec(env, c, 0, r) {
        DischargedRun(c, d, top, env, r);
        EmitRun(d, ins, top, env, r, code);
      }
      EmitKeeps(c, d, code);
      NoJumps();
      ValidFold();
    }

    lemma ValidParts()
      requires Valid()
      ensures IsList(code, jpc, js) && Ok(C(), lasttarget) && C() == Code(code, pend, Elems(js))
    {
    }

    lemma NoJumps()
      requires js == [] && jpc == NO_JUMP
      ensures IsList(code, jpc, js) && C() == Code(code, pend, {})
    {
    }

    lemma ValidFold()
      requires IsList(code, jpc, js) && Ok(C(), lasttarget)
      ensures Valid()
    {
    }

    /** luaK_jump: a new jump, in a list with the jumps to here, which are not discharged. */
    method Jump() returns (j: int, ghost s: seq<nat>)
      requires IsList(code, jpc, js) && forall i :: i in js ==> i < |code|
      modifies this`code, this`jpc, this`js
      ensures jpc == NO_JUMP && js == [] && j == |old(code)| && s == [|old(code)|] + old(js) && IsList(code, j, s)
      ensures |code| == |old(code)| + 1 && code[..|old(code)|] == old(code) && code[|old(code)|].Jmp?
    {
      var saved := jpc;
      ghost var sj, a := js, code;
      jpc, js := NO_JUMP, [];
      assert IsList(code, jpc, js);
      var n := Put(Jmp(NO_JUMP));
      UnpatchedIs(a, code[..n]);
      SingleList(code, n);
      KeptList(a, code, saved, sj);
      j := Concat(n, saved, [n], sj);
      s := [n] + sj;
      RelinkedLast(a, code, n);
    }

    /** condjump: a test and its jump, which starts a list of its own. */
    method CondJump(test: Instr) returns (j: nat)
      requires Valid() && IsTest(test) && (test.TestSet? ==> test.dst == NO_REG)
      modifies this`code, this`jpc, this`js, this`pend
      ensures Valid() && j == |old(code)| + 1 && |code| == j + 1 && code[j - 1] == test && js == []
      ensures pend == old(pend) + {j} && j !in old(pend) && IsList(code, j, [j])
      ensures forall env, r {:trigger Exec(env, C(), 0, r)} ::
          Exec(env, C(), 0, r) == CondOut(env, test, j, Exec(env, old(C()), 0, r))
      ensures forall env, r :: Exec(env, Code(code[..j - 1], old(pend), {}), 0, r) == Exec(env, old(C()), 0, r)
      ensures Ok(Code(code[..j - 1], old(pend), {}), lasttarget)
      ensures forall i {:trigger i in old(pend)} :: i in old(pend) ==> KeptJump(old(code), code, i)
    {
      hide *;
      ghost var c, top, pend0 := C(), lasttarget, pend;
      ValidParts();
      var pc := Put(test);
      ghost var d := Code(code[..pc], pend, {});
      DischargedFold(c.code, d.code, old(js), pend);
      DischargedOk(c, d, top);
      NoJumps();
      ghost var a := code;
      ghost var s;
      var l;
      l, s := Jump();
      j := pc + 1;
      pend := pend + {j};
      CondCode(a, d.code, code, test);
      CondOk(d, test, code[j].sbx, top, code);
      forall env, r
        ensures Exec(env, Code(code, pend, {}), 0, r) == CondOut(env, test, j, Exec(env, c, 0, r))
        ensures Exec(env, d, 0, r) == Exec(env, c, 0, r)
      {
        DischargedRun(c, d, top, env, r);
        CondRun(d, test, code[j].sbx, top, env, r, code);
      }
      assert s == [j];
      EmitKeeps(c, d, code);
      NoJumps();
      ValidFold();
    }

    /** luaK_patchtohere */
    method PatchToHere(list: int, ghost s: seq<nat>)
      requires Valid() && IsList(code, list, s) && Elems(s) <= pend
      modifies this`code, this`jpc, this`js, this`pend, this`lasttarget
      ensures Valid() && js == old(js) + s && pend == old(pend) - Elems(s) && lasttarget == |code| == |old(code)|
      ensures forall env, r {:trigger Exec(env, C(), 0, r)} ::
          Exec(env, C(), 0, r) == HereOut(Elems(s), Exec(env, old(C()), 0, r))
      ensures forall i {:trigger i in pend} :: i in pend ==> KeptJump(old(code), code, i)
    {
      hide *;
      ghost var c, top := C(), lasttarget;
      ValidParts();
      lasttarget := |code|;  // luaK_getlabel
      HereDisjoint(c, top, js, s);
      jpc := Concat(jpc, list, js, s);
      js := js + s;
      pend := pend - Elems(s);
      HereOk(c, top, code, old(js), s);
      forall env, r ensures Exec(env, Code(code, pend, Elems(js)), 0, r) == HereOut(Elems(s), Exec(env, c, 0, r)) {
        HereRun(c, top, code, old(js), s, env, r);
      }
      CodeIs();
      ValidFold();
    }

    lemma CodeIs()
      ensures C() == Code(code, pend, Elems(js))
    {
    }

    /** luaK_concat on lists without a target. */
    method Join(l1: int, l2: int, ghost s1: seq<nat>, ghost s2: seq<nat>) returns (l: int)
      requires Valid() && IsList(code, l1, s1) && IsList(code, l2, s2) && Elems(s1) !! Elems(s2) && Elems(s1) <= pend
      modifies this`code
      ensures Valid() && IsList(code, l, s1 + s2) && |code| == |old(code)|
      ensures forall env, r {:trigger Exec(env, C(), 0, r)} :: Exec(env, C(), 0, r) == Exec(env, old(C()), 0, r)
      ensures forall i {:trigger i in pend} :: i in pend && i !in Elems(s1) ==> KeptJump(old(code), code, i)
      ensures Relinked(old(code), code, Elems(s1))
    {
      hide *;
      ghost var c, top := C(), lasttarget;
      ValidParts();
      HereDisjoint(c, top, js, s1);
      l := Concat(l1, l2, s1, s2);
      RelinkOk(c, top, code, Elems(s1), jpc, js);
      forall env, r ensures Exec(env, Code(code, pend, Elems(js)), 0, r) == Exec(env, c, 0, r) {
        RelinkRun(c, top, code, Elems(s1), env, r);
      }
      CodeIs();
      ValidFold();
    }

    /** luaK_nil: registers from, ..., from + n - 1 become nil, if possible by the LOADNIL that is already there. */
    method CodeNil(from: nat, n: nat)
      requires Valid() && n > 0
      modifies this`code, this`jpc, this`js
      ensures Valid() && js == [] && |code| >= |old(code)|
      ensures forall env, r {:trigger Exec(env, C(), 0, r)} ::
          Exec(env, C(), 0, r) == AppendOut(env, LoadNil(from, n - 1), Exec(env, old(C()), 0, r))
      ensures forall i {:trigger i in pend} :: i in pend ==> KeptJump(old(code), code, i)
    {
      hide *;
      var l := from + n - 1;
      if |code| > lasttarget {
        var previous := code[|code| - 1];
        if previous.LoadNil? {
          var pfrom, pl := previous.a, previous.a + previous.n;
          if (pfrom <= from <= pl + 1) || (from <= pfrom <= l + 1) {  // one instruction covers both ranges
            var from2 := if pfrom < from then pfrom else from;
            var l2 := if pl > l then pl else l;
            ghost var c, top := C(), lasttarget;
            ValidParts();
            code := code[|code| - 1 := LoadNil(from2, l2 - from2)];
            WidenOk(c, top, js, from2, l2 - from2, from, n - 1);
            forall env, r ensures Exec(env, Code(code, pend, Elems(js)), 0, r) == AppendOut(env, LoadNil(from, n - 1),
                Exec(env, c, 0, r)) {
              WidenRun(c, top, from2, l2 - from2, from, n - 1, env, r);
            }
            LastKept(c, top, code, jpc, js);
            CodeIs();
            ValidFold();
            return;
          }
        }
      }
      PlainNil(from, n - 1);
      var pc := Emit(LoadNil(from, n - 1));
    }

    /** removevalues on a list without a target. */
    method RemovePending(list: int, ghost s: seq<nat>)
      requires Valid() && IsList(code, list, s) && Elems(s) <= pend
      modifies this`code
      ensures Valid() && IsList(code, list, s) && ValuesRemoved(old(code), code, Elems(s))
      ensures forall env, r {:trigger Exec(env, C(), 0, r)} :: Exec(env, C(), 0, r) == Exec(env, old(C()), 0, r)
      ensures forall i {:trigger i in pend} :: i in pend && i !in Elems(s) ==> KeptJump(old(code), code, i)
    {
      hide *;
      ghost var c, top := C(), lasttarget;
      ValidParts();
      RemoveValues(list, s);
      RemovedOk(c, top, code, Elems(s), jpc, js);
      forall env, r ensures Exec(env, Code(code, pend, Elems(js)), 0, r) == Exec(env, c, 0, r) {
        RemovedRun(c, top, code, Elems(s), env, r);
      }
      CodeIs();
      ValidFold();
    }

    /**
     * The two LOADBOOLs after an expression with jumps, for the values that the jumps do not bring with them.  If the
     * expression does not end with a jump of its own, a jump before them leads over them.
     */
    method LoadBools(reg: nat, over: bool) returns (pf: nat, pt: nat)
      requires Valid() && (!over ==> js == [] && |code| > 0 && code[|code| - 1].Jmp?)
      modifies this`code, this`jpc, this`js, this`lasttarget
      ensures Valid() && lasttarget == |code| && pt == |code| - 1 && pf == |code| - 2 && pf >= |old(code)|
      ensures pf > 0 && code[pf - 1].Jmp? && code[pf] == LoadBool(reg, false, true)
          && code[pt] == LoadBool(reg, true, false)
      ensures forall env, r {:trigger Exec(env, C(), 0, r)} ::
        Exec(env, C(), 0, r) == if over then Exec(env, old(C()), 0, r)
            else AppendOut(env, LoadBool(reg, false, true), Exec(env, old(C()), 0, r))
      ensures forall i {:trigger i in pend} :: i in pend ==> KeptJump(old(code), code, i)
    {
      hide *;
      ghost var c, top := C(), lasttarget;
      ValidParts();
      var fj := NO_JUMP;
      ghost var s: seq<nat> := [];
      NoList(code);
      ghost var sj := js;
      if over {
        JumpsIn(c, top, js);
        fj, s := Jump();
        NoJumps();
      }
      ghost var code1 := code;
      pf := CodeLabel(reg, false, true);
      pt := CodeLabel(reg, true, false);
      lasttarget := |code|;  // luaK_patchtohere(fj)
      LongerList(code1, code, fj, s);
      ghost var code2 := code;
      jpc := Concat(jpc, fj, [], s);
      NoRelink(code2, code);
      assert [] + s == s;
      js := s;
      assert code == code1 + [LoadBool(reg, false, true), LoadBool(reg, true, false)];
      if over {
        OverOk(c, top, code1, code, reg, sj, s);
        forall env, r ensures Exec(env, Code(code, pend, Elems(js)), 0, r) == Exec(env, c, 0, r) {
          OverRun(c, top, code1, code, reg, sj, s, env, r);
        }
      } else {
        PairOk(c, top, code, reg);
        forall env, r ensures Exec(env, Code(code, pend, Elems(js)), 0, r) == AppendOut(env, LoadBool(reg, false, true),
            Exec(env, c, 0, r)) {
          PairRun(c, top, code, reg, env, r);
        }
      }
      LongerKeeps(c, top, code);
      CodeIs();
      ValidFold();
    }

    /** code_label when there are no jumps to here. */
    method CodeLabel(a: nat, b: bool, jump: bool) returns (pc: nat)
      requires IsList(code, jpc, js) && js == []
      modifies this`code, this`jpc, this`js, this`lasttarget
      ensures pc == |old(code)| && code == old(code) + [LoadBool(a, b, jump)] && js == [] && jpc == NO_JUMP
          && lasttarget == pc
      ensures IsList(code, jpc, js)
    {
      lasttarget := |code|;  // both may be reached by jumps
      pc := Put(LoadBool(a, b, jump));
      UnpatchedIs(old(code), code[..pc]);
    }

    /** luaK_getlabel */
    method GetLabel() returns (pc: nat)
      requires Valid()
      modifies this`lasttarget
      ensures Valid() && pc == |code| && lasttarget == pc
    {
      lasttarget := |code|;
      pc := |code|;
    }

    /**
     * patchlistaux for the jumps of an expression that is over: those with a value go to the end with register reg set.
     */
    method PatchValues(list: int, reg: nat, p: int, b: bool, ghost s: seq<nat>)
      requires Valid() && IsList(code, list, s) && Elems(s) <= pend && lasttarget == |code|
      requires PatchReady(C(), Elems(s), reg, p, b) && (0 <= p <= |code| ==> Landing(code, p))
      modifies this`code, this`pend
      ensures Valid() && pend == old(pend) - Elems(s) && |code| == |old(code)|
      ensures PatchedTo(old(code), code, Elems(s), reg, |code|, p)
      ensures forall env, r {:trigger Exec(env, C(), 0, r)} :: Exec(env, C(), 0, r) == PatchOut(old(code), Elems(s),
          reg, b, Exec(env, old(C()), 0, r))
      ensures forall i {:trigger i in pend} :: i in pend ==> KeptJump(old(code), code, i)
    {
      hide *;
      ghost var c := C();
      ValidParts();
      PatchListAux(list, |code|, reg, p, s);
      pend := pend - Elems(s);
      PatchLen(c.code, code, Elems(s), reg, p);
      PatchOk(c, code, Elems(s), reg, p, b, jpc, js);
      forall env, r ensures Exec(env, Code(code, pend, Elems(js)), 0, r) == PatchOut(c.code, Elems(s), reg, b,
          Exec(env, c, 0, r)) {
        PatchedRun(c, code, Elems(s), reg, p, b, env, r);
      }
      CodeIs();
      ValidFold();
    }

  }

  /** The jumps with a target go to positions that are labels, the last of which is top. */
  ghost predicate Labelled(c: Code, top: nat) {
    forall j: nat {:trigger c.code[j]} :: j < |c.code| && c.code[j].Jmp? && j !in c.pend && j !in c.here
        ==> j + 1 + c.code[j].sbx <= top
  }

  /** The TESTSETs of jumps without a target have no register yet. */
  ghost predicate Unset(c: Code) {
    forall j: nat {:trigger HasValue(c.code, j)} :: (j in c.pend || j in c.here) && HasValue(c.code, j)
        ==> c.code[Control(c.code, j)].dst == NO_REG
  }

  ghost predicate Ok(c: Code, top: nat) {
    Wf(c) && Labelled(c, top) && Unset(c) && top <= |c.code| && (c.here != {} ==> top == |c.code|)
  }

  /** Only the links between the jumps of l changed. */
  ghost predicate Relinked(a: seq<Instr>, b: seq<Instr>, l: set<nat>) {
    |b| == |a| && forall i: nat {:trigger b[i]} {:trigger a[i]} ::
        i < |a| ==> b[i] == a[i] || (i in l && a[i].Jmp? && b[i].Jmp?)
  }

  lemma ListStart(a: seq<Instr>, l: int, s: seq<nat>)
    requires IsList(a, l, s)
    ensures Elems(s[..0]) == {}
  {
  }

  lemma ListAt(a: seq<Instr>, b: seq<Instr>, l: int, s: seq<nat>, n: nat, reg: int, vtarget: int, dtarget: int)
    requires IsList(a, l, s) && n < |s| && PatchedTo(a, b, Elems(s[..n]), reg, vtarget, dtarget)
    ensures s[n] < |b| == |a| && a[s[n]].Jmp? && b[s[n]] == a[s[n]] && s[n] !in Elems(s[..n])
        && Elems(s[..n + 1]) == Elems(s[..n]) + {s[n]}
    ensures NextJump(b, s[n]) == if n + 1 < |s| then s[n + 1] else NO_JUMP
    ensures forall i :: i in Elems(s[..n]) ==> i < |a| && a[i].Jmp?
  {
    assert s[..n + 1] == s[..n] + [s[n]];
    assert LinkAt(a, s, n);
    forall i | i in Elems(s[..n]) ensures i < |a| && a[i].Jmp? && i != s[n] {
      var m :| 0 <= m < n && s[m] == i;
      assert LinkAt(a, s, m);
    }
    assert b[s[n]] == PatchAt(a, Elems(s[..n]), reg, vtarget, dtarget, s[n]);
  }

  lemma ControlJump(code: seq<Instr>, j: nat)
    requires j < |code| && code[j].Jmp?
    ensures HasValue(code, j) ==> Control(code, j) == j - 1
  {
  }

  lemma RemovedOne(a: seq<Instr>, b: seq<Instr>, c: seq<Instr>, s: seq<nat>, n: nat)
    requires n < |s| && s[n] < |a| && a[s[n]].Jmp? && NoDup(s) && ValuesRemoved(a, b, Elems(s[..n]))
    requires c == if HasValue(b, s[n]) then b[Control(b, s[n]) := TestPatch(b[Control(b, s[n])], NO_REG)] else b
    ensures ValuesRemoved(a, c, Elems(s[..n + 1])) && c[s[n]] == a[s[n]]
  {
    assert s[..n + 1] == s[..n] + [s[n]];
    var j := s[n];
    assert b[j] == a[j];
    assert j !in Elems(s[..n]);
    if j > 0 { assert b[j - 1] == a[j - 1]; }
    forall i: nat | i < |a| ensures c[i] == if i + 1 in Elems(s[..n + 1]) && a[i].TestSet? then Test(a[i].b, a[i].c)
        else a[i] {
      assert b[i] == if i + 1 in Elems(s[..n]) && a[i].TestSet? then Test(a[i].b, a[i].c) else a[i];
    }
  }

  lemma RemovedList(a: seq<Instr>, b: seq<Instr>, l: int, s: seq<nat>)
    requires IsList(a, l, s) && ValuesRemoved(a, b, Elems(s))
    ensures IsList(b, l, s)
  {
    forall j | j in s ensures j < |a| && b[j] == a[j] {
      ListJump(a, l, s, j);
    }
    KeptList(a, b, l, s);
  }

  lemma Joined(a: seq<Instr>, b: seq<Instr>, l1: int, l2: int, s1: seq<nat>, s2: seq<nat>)
    requires IsList(a, l1, s1) && IsList(a, l2, s2) && Elems(s1) !! Elems(s2) && s1 != [] && s2 != []
    requires var last := s1[|s1| - 1]; last < |a| && b == a[last := Jmp(l2 - (last + 1))]
    ensures IsList(b, l1, s1 + s2) && Relinked(a, b, Elems(s1))
  {
    var s := s1 + s2;
    var last := s1[|s1| - 1];
    assert LinkAt(a, s1, |s1| - 1) && LinkAt(a, s2, 0);
    assert last in s1 && s2[0] in s2 && last in Elems(s1) && s2[0] in Elems(s2);
    forall i, j | 0 <= i < j < |s| ensures s[i] != s[j] {
      if i < |s1| <= j { assert s[i] in Elems(s1) && s[j] in Elems(s2); }
    }
    forall i: nat ensures LinkAt(b, s, i) {
      if i < |s1| {
        assert LinkAt(a, s1, i);
      } else if i < |s| {
        assert LinkAt(a, s2, i - |s1|) && s[i] == s2[i - |s1|];
        assert s2[i - |s1|] in Elems(s2);
      }
    }
  }

  /** d is c after dischargejpc. */
  ghost predicate Discharged(c: Code, d: Code) {
    PatchedTo(c.code, d.code, c.here, NO_REG, |c.code|, |c.code|) && d.pend == c.pend && d.here == {}
  }

  lemma DischargedSettled(c: Code, d: Code)
    requires Discharged(c, d) && Wf(c) && Unset(c)
    ensures Settled(c, d)
  {
    forall i: nat | i < |c.code|
      ensures if i in c.pend || i in d.here then c.code[i].Jmp? && d.code[i].Jmp?
              else if i in c.here then d.code[i] == Jmp(|c.code| - (i + 1)) else Same(c.code[i], d.code[i])
    {
      assert d.code[i] == PatchAt(c.code, c.here, NO_REG, |c.code|, |c.code|, i);
      if i !in c.here && i + 1 in c.here && c.code[i].TestSet? {
        assert i + 1 < |c.code| && c.code[i + 1].Jmp? && HasValue(c.code, i + 1) && Control(c.code, i + 1) == i;
      }
    }
  }

  lemma DischargedOk(c: Code, d: Code, top: nat)
    requires Discharged(c, d) && Ok(c, top)
    ensures Ok(d, top) && |d.code| == |c.code|
    ensures forall j {:trigger j in c.pend} :: j in c.pend ==> KeptJump(c.code, d.code, j)
  {
    forall j | j in c.pend ensures KeptJump(c.code, d.code, j) {
      assert c.code[j].Jmp?;
      PatchedKeeps(c.code, d.code, c.here, NO_REG, |c.code|, |c.code|, j);
    }
    hide KeptJump;
    DischargedWf(c, d);
    assert Labelled(d, top) by { DischargedLabels(c, d, top); }
    assert Unset(d) by { UnsetKept(c, d); }
  }

  lemma DischargedAt(c: Code, d: Code, i: nat)
    requires Discharged(c, d) && i < |c.code|
    ensures |d.code| == |c.code|
    ensures i in c.here ==> d.code[i] == Jmp(|c.code| - (i + 1))
    ensures i !in c.here ==> d.code[i] == c.code[i] || (c.code[i].TestSet? && d.code[i].Test?)
  {
    assert d.code[i] == PatchAt(c.code, c.here, NO_REG, |c.code|, |c.code|, i);
  }

  lemma DischargedWf(c: Code, d: Code)
    requires Discharged(c, d) && Wf(c)
    ensures Wf(d)
  {
    DischargedParts(c, d);
    forall i: nat ensures WfAt(d, i) {
      assert WfAt(c, i);
      if i < |c.code| {
        DischargedAt(c, d, i);
        if i in c.here {
          LastPlain(c);
          DischargedLanding(c, d, |c.code|);
        } else if c.code[i].Jmp? && i !in c.pend {
          DischargedLanding(c, d, i + 1 + c.code[i].sbx);
        } else if i + 1 < |c.code| {
          DischargedAt(c, d, i + 1);
        }
      }
    }
    forall j | j in d.pend ensures j < |d.code| && d.code[j].Jmp? { DischargedAt(c, d, j); }
  }

  lemma DischargedLanding(c: Code, d: Code, x: nat)
    requires Discharged(c, d) && Wf(c) && x <= |c.code| && Landing(c.code, x)
    ensures Landing(d.code, x)
  {
    DischargedParts(c, d);
    if x > 0 { DischargedAt(c, d, x - 1); }
  }

  lemma DischargedParts(c: Code, d: Code)
    requires Discharged(c, d)
    ensures |d.code| == |c.code| && d.pend == c.pend && d.here == {}
  {
  }

  lemma DischargedLabels(c: Code, d: Code, top: nat)
    requires Discharged(c, d) && Ok(c, top)
    ensures Labelled(d, top)
  {
    forall j: nat | j < |d.code| && d.code[j].Jmp? && j !in d.pend ensures j + 1 + d.code[j].sbx <= top {
      DischargedAt(c, d, j);
    }
  }

  lemma UnsetKept(c: Code, d: Code)
    requires Unset(c) && d.pend <= c.pend && d.here == {} && forall j {:trigger j in c.pend} ::
        j in c.pend ==> KeptJump(c.code, d.code, j)
    ensures Unset(d)
  {
    forall j: nat | j in d.pend && HasValue(d.code, j) ensures d.code[Control(d.code, j)].dst == NO_REG {
      assert KeptJump(c.code, d.code, j);
      assert HasValue(c.code, j);
    }
  }

  lemma DischargedRun(c: Code, d: Code, top: nat, env: Env, r: Regs)
    requires Discharged(c, d) && Ok(c, top)
    ensures Exec(env, d, 0, r) == Exec(env, c, 0, r)
  {
    hide Discharged, Exec, Wf, Settled, Unset, Labelled;
    DischargedSettled(c, d);
    SettledRun(env, c, d, 0, r);
  }

  lemma DischargedFold(a: seq<Instr>, b: seq<Instr>, s: seq<nat>, pend: set<nat>)
    requires PatchedTo(a, b, Elems(s), NO_REG, |a|, |a|)
    ensures Discharged(Code(a, pend, Elems(s)), Code(b, pend, {}))
  {
  }

  lemma EmitOk(d: Code, ins: Instr, top: nat, code: seq<Instr>)
    requires Ok(d, top) && d.here == {} && Plain(ins) && code == d.code + [ins]
    ensures Ok(Code(code, d.pend, {}), top)
  {
    var e := Code(code, d.pend, {});
    assert Wf(e) by { hide HasValue, Control; EmitWf(d, ins, code); }
    assert Unset(e) by { UnsetLonger(d, e); }
    assert Labelled(e, top);
  }

  lemma EmitWf(d: Code, ins: Instr, code: seq<Instr>)
    requires Wf(d) && d.here == {} && Plain(ins) && code == d.code + [ins]
    ensures Wf(Code(code, d.pend, {}))
  {
    var e := Code(code, d.pend, {});
    forall i: nat ensures WfAt(e, i) {
      assert WfAt(d, i);
      LastPlain(d);
    }
  }

  /** The last instruction is not a test. */
  lemma LastPlain(c: Code)
    requires Wf(c)
    ensures Landing(c.code, |c.code|)
  {
    if |c.code| > 0 { assert WfAt(c, |c.code| - 1); }
  }

  lemma UnsetLonger(c: Code, d: Code)
    requires Wf(c) && Unset(c) && c.code <= d.code && d.pend == c.pend && d.here == {}
    ensures Unset(d)
  {
    forall j: nat | j in d.pend && HasValue(d.code, j) ensures d.code[Control(d.code, j)].dst == NO_REG {
      assert c.code[j].Jmp? && d.code[j] == c.code[j] && (j > 0 ==> d.code[j - 1] == c.code[j - 1]);
      assert HasValue(c.code, j) && Control(c.code, j) == Control(d.code, j);
    }
  }

  lemma EmitRun(d: Code, ins: Instr, top: nat, env: Env, r: Regs, code: seq<Instr>)
    requires Ok(d, top) && d.here == {} && Plain(ins) && code == d.code + [ins]
    ensures Exec(env, Code(code, d.pend, {}), 0, r) == AppendOut(env, ins, Exec(env, d, 0, r))
  {
    hide Exec, Wf;
    Append(env, d, ins, 0, r);
    assert d.(code := d.code + [ins]) == Code(code, d.pend, {});
  }

  lemma EmitKeeps(c: Code, d: Code, code: seq<Instr>)
    requires |code| > |d.code| == |c.code| && code[..|d.code|] == d.code
    requires forall j {:trigger j in c.pend} :: j in c.pend ==> KeptJump(c.code, d.code, j)
    ensures forall j {:trigger j in c.pend} :: j in c.pend ==> KeptJump(c.code, code, j)
  {
    assert forall i: nat :: i < |d.code| ==> code[i] == d.code[i];
  }

  lemma UnpatchedIs(a: seq<Instr>, b: seq<Instr>)
    requires PatchedTo(a, b, Elems([]), NO_REG, |a|, |a|)
    ensures a == b
  {
    forall i | 0 <= i < |a| ensures a[i] == b[i] { assert b[i] == PatchAt(a, Elems([]), NO_REG, |a|, |a|, i); }
  }

  lemma SingleList(code: seq<Instr>, n: nat)
    requires n < |code| && code[n] == Jmp(NO_JUMP)
    ensures IsList(code, n, [n])
  {
    forall i: nat ensures LinkAt(code, [n], i) {}
  }

  lemma RelinkedLast(a: seq<Instr>, b: seq<Instr>, n: nat)
    requires n == |a| && |b| == n + 1
    requires exists c: seq<Instr> :: |c| == n + 1 && c[..n] == a && c[n].Jmp? && Relinked(c, b, Elems([n]))
    ensures b[..n] == a && b[n].Jmp?
  {
    var c: seq<Instr> :| |c| == n + 1 && c[..n] == a && c[n].Jmp? && Relinked(c, b, Elems([n]));
    forall i | 0 <= i < n ensures b[i] == a[i] { assert c[i] == c[..n][i]; assert b[i] == c[i]; }
    assert b[n] == c[n] || b[n].Jmp?;
  }

  lemma CondCode(a: seq<Instr>, d: seq<Instr>, code: seq<Instr>, test: Instr)
    requires |a| == |d| + 1 && a[..|d|] == d && a[|d|] == test && |code| == |a| + 1 && code[..|a|] == a
        && code[|a|].Jmp?
    ensures code == d + [test, Jmp(code[|a|].sbx)] && code[..|d|] == d
  {
    assert code == a + [code[|a|]] && a == d + [test];
  }

  lemma CondOk(d: Code, test: Instr, x: int, top: nat, code: seq<Instr>)
    requires Ok(d, top) && d.here == {} && IsTest(test) && (test.TestSet? ==> test.dst == NO_REG)
        && code == d.code + [test, Jmp(x)]
    ensures Ok(Code(code, d.pend + {|d.code| + 1}, {}), top) && |d.code| + 1 !in d.pend
  {
    var n := |d.code|;
    var e := Code(code, d.pend + {n + 1}, {});
    forall i: nat ensures WfAt(e, i) {
      assert WfAt(d, i);
    }
    forall j: nat | j in e.pend && HasValue(e.code, j) ensures e.code[Control(e.code, j)].dst == NO_REG {
      if j <= n {
        assert j in d.pend && d.code[j].Jmp? && e.code[j] == d.code[j] && (j > 0 ==> e.code[j - 1] == d.code[j - 1]);
        assert HasValue(d.code, j) && Control(d.code, j) == Control(e.code, j);
      }
    }
    assert Labelled(e, top);
  }

  lemma CondRun(d: Code, test: Instr, x: int, top: nat, env: Env, r: Regs, code: seq<Instr>)
    requires Ok(d, top) && d.here == {} && IsTest(test) && code == d.code + [test, Jmp(x)]
    ensures Exec(env, Code(code, d.pend + {|d.code| + 1}, {}), 0, r) == CondOut(env, test, |d.code| + 1,
        Exec(env, d, 0, r))
  {
    hide Exec, Wf;
    Cond(env, d, test, x, 0, r);
  }

  lemma HereDisjoint(c: Code, top: nat, js: seq<nat>, s: seq<nat>)
    requires Ok(c, top) && c.here == Elems(js) && Elems(s) <= c.pend
    ensures Elems(js) !! Elems(s)
  {
  }

  /** After the relinking of jumps without a target nothing but links changed. */
  lemma RelinkOk(c: Code, top: nat, b: seq<Instr>, l: set<nat>, jpc: int, js: seq<nat>)
    requires Ok(c, top) && Relinked(c.code, b, l) && l <= c.pend + c.here && IsList(c.code, jpc, js) && l !! Elems(js)
    ensures Ok(Code(b, c.pend, c.here), top) && IsList(b, jpc, js)
    ensures forall i {:trigger i in c.pend} :: i in c.pend && i !in l ==> KeptJump(c.code, b, i)
  {
    RelinkShape(c, top, b, l);
    forall j | j in js ensures j < |c.code| && b[j] == c.code[j] {
      ListJump(c.code, jpc, js, j);
      assert j in Elems(js);
    }
    KeptList(c.code, b, jpc, js);
  }

  lemma RelinkShape(c: Code, top: nat, b: seq<Instr>, l: set<nat>)
    requires Ok(c, top) && Relinked(c.code, b, l) && l <= c.pend + c.here
    ensures Ok(Code(b, c.pend, c.here), top)
    ensures forall i {:trigger i in c.pend} :: (i in c.pend || i in c.here) && i !in l ==> KeptJump(c.code, b, i)
  {
    var d := Code(b, c.pend, c.here);
    forall i: nat ensures WfAt(d, i) { RelinkWf(c, b, l, i); }
    forall j: nat | (j in d.pend || j in d.here) && HasValue(b, j) ensures b[Control(b, j)].dst == NO_REG {
      assert c.code[j].Jmp?;
      if j > 0 { assert b[j - 1] == c.code[j - 1]; }
      assert HasValue(c.code, j);
    }
    forall i | (i in c.pend || i in c.here) && i !in l ensures KeptJump(c.code, b, i) {
      assert b[i] == c.code[i];
      if i > 0 { assert b[i - 1] == c.code[i - 1] || (c.code[i - 1].Jmp? && b[i - 1].Jmp?); }
    }
  }

  lemma RelinkWf(c: Code, b: seq<Instr>, l: set<nat>, i: nat)
    requires Wf(c) && Relinked(c.code, b, l) && l <= c.pend + c.here
    ensures WfAt(Code(b, c.pend, c.here), i)
  {
    assert WfAt(c, i);
    if i < |b| {
      assert b[i] == c.code[i] || (i in l && c.code[i].Jmp? && b[i].Jmp?);
      if i + 1 < |b| { assert b[i + 1] == c.code[i + 1] || (c.code[i + 1].Jmp? && b[i + 1].Jmp?); }
      if b[i].Jmp? && i !in c.pend && i !in c.here {
        var x := i + 1 + b[i].sbx;
        if 0 < x <= |b| { assert b[x - 1] == c.code[x - 1] || (c.code[x - 1].Jmp? && b[x - 1].Jmp?); }
      }
    }
  }

  lemma RelinkRun(c: Code, top: nat, b: seq<Instr>, l: set<nat>, env: Env, r: Regs)
    requires Ok(c, top) && Relinked(c.code, b, l) && l <= c.pend + c.here
    ensures Exec(env, Code(b, c.pend, c.here), 0, r) == Exec(env, c, 0, r)
  {
    hide Exec, Labelled, Unset;
    RelinkSettled(c, b, l);
    SettledRun(env, c, Code(b, c.pend, c.here), 0, r);
  }

  lemma RelinkSettled(c: Code, b: seq<Instr>, l: set<nat>)
    requires Wf(c) && Relinked(c.code, b, l) && l <= c.pend + c.here
    ensures Settled(c, Code(b, c.pend, c.here))
  {
  }

  /** The jumps of s joined the jumps to here. */
  lemma HereOk(c: Code, top: nat, b: seq<Instr>, js: seq<nat>, s: seq<nat>)
    requires Ok(c, top) && c.here == Elems(js) && Relinked(c.code, b, Elems(js)) && Elems(s) <= c.pend
    ensures Ok(Code(b, c.pend - Elems(s), Elems(js + s)), |b|)
    ensures forall i {:trigger i in c.pend} :: i in c.pend ==> KeptJump(c.code, b, i)
  {
    RelinkShape(c, top, b, Elems(js));
    ElemsSum(js, s);
    var d := Code(b, c.pend, c.here);
    var e := Code(b, c.pend - Elems(s), Elems(js + s));
    forall i: nat ensures WfAt(e, i) { assert WfAt(d, i); }
  }

  lemma ElemsSum(a: seq<nat>, b: seq<nat>)
    ensures Elems(a + b) == Elems(a) + Elems(b)
  {
  }

  lemma HereRun(c: Code, top: nat, b: seq<Instr>, js: seq<nat>, s: seq<nat>, env: Env, r: Regs)
    requires Ok(c, top) && c.here == Elems(js) && Relinked(c.code, b, Elems(js)) && Elems(s) <= c.pend
    ensures Exec(env, Code(b, c.pend - Elems(s), Elems(js + s)), 0, r) == HereOut(Elems(s), Exec(env, c, 0, r))
  {
    hide Exec, Labelled, Unset, Wf, Relinked;
    RelinkRun(c, top, b, Elems(js), env, r);
    RelinkShape(c, top, b, Elems(js));
    ElemsSum(js, s);
    var d := Code(b, c.pend, c.here);
    ToHere(env, d, Elems(s), 0, r);
    assert d.(pend := d.pend - Elems(s), here := d.here + Elems(s)) == Code(b, c.pend - Elems(s), Elems(js + s));
  }

  lemma PlainNil(a: nat, n: nat)
    ensures Plain(LoadNil(a, n))
  {
  }

  lemma WidenOk(c: Code, top: nat, js: seq<nat>, a: nat, n: nat, from: nat, m: nat)
    requires Ok(c, top) && c.here == Elems(js) && |c.code| > top && |c.code| > 0 && c.code[|c.code| - 1].LoadNil?
    requires var x := c.code[|c.code| - 1];
      a == (if x.a < from then x.a else from) && a + n == (if x.a + x.n > from + m then x.a + x.n else from + m) &&
      ((x.a <= from <= x.a + x.n + 1) || (from <= x.a <= from + m + 1))
    ensures Widens(c, a, n, from, m) && js == []
  {
    ElemsEmpty(js);
  }

  lemma ElemsEmpty(s: seq<nat>)
    ensures Elems(s) == {} <==> s == []
  {
    if s != [] { assert s[0] in Elems(s); }
  }

  lemma WidenRun(c: Code, top: nat, a: nat, n: nat, from: nat, m: nat, env: Env, r: Regs)
    requires Ok(c, top) && |c.code| > top && Widens(c, a, n, from, m)
    ensures Exec(env, c.(code := c.code[|c.code| - 1 := LoadNil(a, n)]), 0, r) == AppendOut(env, LoadNil(from, m),
        Exec(env, c, 0, r))
  {
    hide Exec, Wf, Unset;
    Widen(env, c, a, n, from, m, 0, r);
  }

  /** A LOADNIL in place of a LOADNIL at the end. */
  lemma LastKept(c: Code, top: nat, b: seq<Instr>, jpc: int, js: seq<nat>)
    requires Ok(c, top) && c.here == Elems(js) && IsList(c.code, jpc, js) && |c.code| > 0
        && c.code[|c.code| - 1].LoadNil?
    requires |b| == |c.code| && b[|b| - 1].LoadNil? && b == c.code[|b| - 1 := b[|b| - 1]]
    ensures Ok(Code(b, c.pend, c.here), top) && IsList(b, jpc, js)
    ensures forall i {:trigger i in c.pend} :: i in c.pend ==> KeptJump(c.code, b, i)
  {
    var d := Code(b, c.pend, c.here);
    forall i: nat ensures WfAt(d, i) { assert WfAt(c, i); }
    forall i | i in c.pend || i in c.here ensures KeptJump(c.code, b, i) { assert c.code[i].Jmp?; }
    forall j: nat | (j in d.pend || j in d.here) && HasValue(b, j) ensures b[Control(b, j)].dst == NO_REG {
      assert KeptJump(c.code, b, j) && HasValue(c.code, j);
    }
    forall j | j in js ensures j < |c.code| && j < |b| && b[j] == c.code[j] { ListJump(c.code, jpc, js, j); }
    KeptList(c.code, b, jpc, js);
  }

  lemma RemovedOk(c: Code, top: nat, b: seq<Instr>, l: set<nat>, jpc: int, js: seq<nat>)
    requires Ok(c, top) && ValuesRemoved(c.code, b, l) && l <= c.pend && IsList(c.code, jpc, js)
    ensures Ok(Code(b, c.pend, c.here), top) && IsList(b, jpc, js)
    ensures forall i {:trigger i in c.pend} :: i in c.pend && i !in l ==> KeptJump(c.code, b, i)
  {
    var d := Code(b, c.pend, c.here);
    forall i: nat ensures WfAt(d, i) { RemovedWf(c, b, l, i); }
    forall i | (i in c.pend || i in c.here) && i !in l ensures KeptJump(c.code, b, i) {
      assert c.code[i].Jmp?;
      RemovedKeeps(c.code, b, l, i);
    }
    forall j: nat | (j in d.pend || j in d.here) && HasValue(b, j) ensures b[Control(b, j)].dst == NO_REG {
      assert c.code[j].Jmp? && b[j] == c.code[j];
      if j > 0 { assert b[j - 1] == c.code[j - 1]; }
      assert HasValue(c.code, j);
    }
    forall j: nat | j < |b| && b[j].Jmp? && j !in d.pend && j !in d.here ensures j + 1 + b[j].sbx <= top {
      assert b[j] == c.code[j];
    }
    forall j | j in js ensures j < |c.code| && j < |b| && b[j] == c.code[j] { ListJump(c.code, jpc, js, j); }
    KeptList(c.code, b, jpc, js);
  }

  lemma RemovedWf(c: Code, b: seq<Instr>, l: set<nat>, i: nat)
    requires Wf(c) && ValuesRemoved(c.code, b, l) && l <= c.pend
    ensures WfAt(Code(b, c.pend, c.here), i)
  {
    assert WfAt(c, i);
    if i < |b| {
      var same := (j: nat) requires j < |b| => if j + 1 in l && c.code[j].TestSet? then b[j].Test?
          else b[j] == c.code[j];
      assert same(i) by { assert b[i] == b[i]; }
      if i + 1 < |b| { assert same(i + 1) by { assert b[i + 1] == b[i + 1]; } }
      if b[i].Jmp? && i !in c.pend && i !in c.here {
        var x := i + 1 + b[i].sbx;
        if 0 < x <= |b| { assert same(x - 1) by { assert b[x - 1] == b[x - 1]; } }
      }
    }
  }

  lemma RemovedRun(c: Code, top: nat, b: seq<Instr>, l: set<nat>, env: Env, r: Regs)
    requires Ok(c, top) && ValuesRemoved(c.code, b, l) && l <= c.pend
    ensures Exec(env, Code(b, c.pend, c.here), 0, r) == Exec(env, c, 0, r)
  {
    hide Exec, Labelled;
    var d := Code(b, c.pend, c.here);
    forall i: nat | i < |c.code|
      ensures if i in c.pend || i in d.here then c.code[i].Jmp? && d.code[i].Jmp? else Same(c.code[i], d.code[i])
    {
      assert b[i] == if i + 1 in l && c.code[i].TestSet? then Test(c.code[i].b, c.code[i].c) else c.code[i];
      if i + 1 in l && c.code[i].TestSet? {
        assert c.code[i + 1].Jmp? && HasValue(c.code, i + 1) && Control(c.code, i + 1) == i;
      }
    }
    assert Settled(c, d);
    SettledRun(env, c, d, 0, r);
  }

  lemma NoList(code: seq<Instr>)
    ensures IsList(code, NO_JUMP, []) && Elems([]) == {}
  {
  }

  lemma PatchLen(a: seq<Instr>, b: seq<Instr>, l: set<nat>, reg: int, p: int)
    requires PatchedTo(a, b, l, reg, |a|, p)
    ensures |b| == |a|
  {
  }

  lemma JumpsIn(c: Code, top: nat, js: seq<nat>)
    requires Ok(c, top) && c.here == Elems(js)
    ensures forall i :: i in js ==> i < |c.code|
  {
    forall i | i in js ensures i < |c.code| { assert i in Elems(js); }
  }

  lemma LongerList(a: seq<Instr>, b: seq<Instr>, l: int, s: seq<nat>)
    requires IsList(a, l, s) && a <= b
    ensures IsList(b, l, s)
  {
    forall j | j in s ensures j < |a| && b[j] == a[j] { ListJump(a, l, s, j); }
    KeptList(a, b, l, s);
  }

  lemma NoRelink(a: seq<Instr>, b: seq<Instr>)
    requires Relinked(a, b, Elems([]))
    ensures a == b
  {
    forall i | 0 <= i < |a| ensures a[i] == b[i] { assert b[i] == a[i]; }
  }

  lemma LongerKeeps(c: Code, top: nat, code: seq<Instr>)
    requires Ok(c, top) && c.code <= code
    ensures forall j {:trigger j in c.pend} :: j in c.pend ==> KeptJump(c.code, code, j)
  {
    forall j | j in c.pend ensures KeptJump(c.code, code, j) { assert c.code[j].Jmp?; }
  }

  /** The jump over the LOADBOOLs, which keeps the jumps to here in its list. */
  lemma OverOk(c: Code, top: nat, code1: seq<Instr>, code: seq<Instr>, reg: nat, js: seq<nat>, s: seq<nat>)
    requires Ok(c, top) && c.here == Elems(js) && |code1| == |c.code| + 1 && code1[..|c.code|] == c.code
        && code1[|c.code|].Jmp?
    requires code == code1 + [LoadBool(reg, false, true), LoadBool(reg, true, false)] && s == [|c.code|] + js
    ensures Ok(Code(code, c.pend, Elems(s)), |code|)
  {
    var e := Code(code, c.pend, Elems(s));
    var n := |c.code|;
    OverElems(c, js, s);
    assert forall i: nat :: i < n ==> code[i] == code1[..n][i];
    assert code[n] == code1[n];
    forall i: nat ensures WfAt(e, i) { assert WfAt(c, i); }
    forall j | j in e.pend || j in e.here ensures j < |code| && code[j].Jmp? {
      if j != n { assert j in c.pend || j in c.here; }
    }
    LastPlain(c);
    forall j: nat | (j in e.pend || j in e.here) && HasValue(code, j) ensures code[Control(code, j)].dst == NO_REG {
      if j != n {
        assert j < n && code[j] == c.code[j] && (j > 0 ==> code[j - 1] == c.code[j - 1]);
        assert HasValue(c.code, j);
      }
    }
  }

  lemma OverElems(c: Code, js: seq<nat>, s: seq<nat>)
    requires s == [|c.code|] + js
    ensures Elems(s) == Elems(js) + {|c.code|}
  {
  }

  lemma OverRun(c: Code, top: nat, code1: seq<Instr>, code: seq<Instr>, reg: nat, js: seq<nat>, s: seq<nat>, env: Env,
      r: Regs)
    requires Ok(c, top) && c.here == Elems(js) && |code1| == |c.code| + 1 && code1[..|c.code|] == c.code
        && code1[|c.code|].Jmp?
    requires code == code1 + [LoadBool(reg, false, true), LoadBool(reg, true, false)] && s == [|c.code|] + js
    ensures Exec(env, Code(code, c.pend, Elems(s)), 0, r) == Exec(env, c, 0, r)
  {
    hide Exec, Unset, Labelled;
    var n := |c.code|;
    var tail := [LoadBool(reg, false, true), LoadBool(reg, true, false)];
    OverElems(c, js, s);
    JumpOver(env, c, code1[n].sbx, tail, 0, r);
    assert code1 == c.code + [Jmp(code1[n].sbx)];
  }

  lemma PairOk(c: Code, top: nat, code: seq<Instr>, reg: nat)
    requires Ok(c, top) && c.here == {} && code == c.code + [LoadBool(reg, false, true), LoadBool(reg, true, false)]
    ensures Ok(Code(code, c.pend, {}), |code|)
  {
    var e := Code(code, c.pend, {});
    forall i: nat ensures WfAt(e, i) { assert WfAt(c, i); }
    LastPlain(c);
    UnsetLonger(c, e);
  }

  lemma PairRun(c: Code, top: nat, code: seq<Instr>, reg: nat, env: Env, r: Regs)
    requires Ok(c, top) && c.here == {} && code == c.code + [LoadBool(reg, false, true), LoadBool(reg, true, false)]
    ensures Exec(env, Code(code, c.pend, {}), 0, r) == AppendOut(env, LoadBool(reg, false, true), Exec(env, c, 0, r))
  {
    hide Exec, Unset, Labelled, Wf;
    AppendPair(env, c, reg, 0, r);
    assert c.(code := c.code + [LoadBool(reg, false, true), LoadBool(reg, true, false)]) == Code(code, c.pend, {});
  }

  lemma PatchOk(c: Code, b: seq<Instr>, l: set<nat>, reg: nat, p: int, v: bool, jpc: int, js: seq<nat>)
    requires Ok(c, |c.code|) && PatchedTo(c.code, b, l, reg, |c.code|, p) && l <= c.pend && PatchReady(c, l, reg, p, v)
    requires (0 <= p <= |c.code| ==> Landing(c.code, p)) && IsList(c.code, jpc, js) && c.here == Elems(js)
    ensures Ok(Code(b, c.pend - l, c.here), |b|) && IsList(b, jpc, js)
    ensures forall i {:trigger i in c.pend} :: i in c.pend - l ==> KeptJump(c.code, b, i)
  {
    var d := Code(b, c.pend - l, c.here);
    forall i | (i in c.pend || i in c.here) && i !in l ensures KeptJump(c.code, b, i) {
      assert c.code[i].Jmp?;
      PatchedKeeps(c.code, b, l, reg, |c.code|, p, i);
    }
    forall i: nat ensures WfAt(d, i) { PatchWf(c, b, l, reg, p, v, i); }
    forall j | j in d.pend || j in d.here ensures j < |b| && b[j].Jmp? {
      assert c.code[j].Jmp? && KeptJump(c.code, b, j);
    }
    forall j: nat | (j in d.pend || j in d.here) && HasValue(b, j) ensures b[Control(b, j)].dst == NO_REG {
      assert KeptJump(c.code, b, j) && HasValue(c.code, j);
    }
    assert Labelled(d, |b|) by {
      forall j: nat | j < |b| && b[j].Jmp? && j !in d.pend && j !in d.here ensures j + 1 + b[j].sbx <= |b| {
        assert WfAt(d, j);
      }
    }
    forall j | j in js ensures j < |c.code| && b[j] == c.code[j] {
      ListJump(c.code, jpc, js, j);
      assert j in Elems(js) && KeptJump(c.code, b, j);
    }
    KeptList(c.code, b, jpc, js);
  }

  lemma PatchWf(c: Code, b: seq<Instr>, l: set<nat>, reg: nat, p: int, v: bool, i: nat)
    requires Wf(c) && PatchedTo(c.code, b, l, reg, |c.code|, p) && l <= c.pend && PatchReady(c, l, reg, p, v)
    requires 0 <= p <= |c.code| ==> Landing(c.code, p)
    ensures WfAt(Code(b, c.pend - l, c.here), i)
  {
    assert WfAt(c, i);
    if i < |b| {
      PatchKind(c, b, l, reg, p, i);
      if i + 1 < |b| { PatchKind(c, b, l, reg, p, i + 1); }
      LastPlain(c);
      if i in l {
        assert b[i] == PatchAt(c.code, l, reg, |c.code|, p, i);
        PatchLanding(c, b, l, reg, p, i + 1 + b[i].sbx);
      } else if c.code[i].Jmp? && i !in c.pend && i !in c.here {
        PatchLanding(c, b, l, reg, p, i + 1 + c.code[i].sbx);
      }
    }
  }

  lemma PatchKind(c: Code, b: seq<Instr>, l: set<nat>, reg: nat, p: int, i: nat)
    requires Wf(c) && PatchedTo(c.code, b, l, reg, |c.code|, p) && l <= c.pend && i < |c.code|
    ensures |b| == |c.code| && b[i].Jmp? == c.code[i].Jmp? && IsTest(b[i]) == IsTest(c.code[i])
        && (!c.code[i].Jmp? && !IsTest(c.code[i]) ==> b[i] == c.code[i])
    ensures i !in l && c.code[i].Jmp? ==> b[i] == c.code[i]
  {
    assert b[i] == PatchAt(c.code, l, reg, |c.code|, p, i);
    assert i in l ==> c.code[i].Jmp?;
  }

  lemma PatchLanding(c: Code, b: seq<Instr>, l: set<nat>, reg: nat, p: int, x: int)
    requires Wf(c) && PatchedTo(c.code, b, l, reg, |c.code|, p) && l <= c.pend && 0 <= x <= |c.code|
        && Landing(c.code, x)
    ensures Landing(b, x)
  {
    if x > 0 { PatchKind(c, b, l, reg, p, x - 1); }
  }

  lemma PatchedRun(c: Code, b: seq<Instr>, l: set<nat>, reg: nat, p: int, v: bool, env: Env, r: Regs)
    requires Ok(c, |c.code|) && PatchedTo(c.code, b, l, reg, |c.code|, p) && l <= c.pend && PatchReady(c, l, reg, p, v)
    ensures Exec(env, Code(b, c.pend - l, c.here), 0, r) == PatchOut(c.code, l, reg, v, Exec(env, c, 0, r))
  {
    hide Exec, Unset, Labelled, PatchReady, Wf;
    var d := Code(b, c.pend - l, c.here);
    assert Patched(c, d, l, reg, p) by { PatchedIs(c, d, l, reg, p); }
    PatchRun(env, c, d, l, reg, p, v, 0, r);
  }

  lemma PatchedIs(c: Code, d: Code, l: set<nat>, reg: nat, p: int)
    requires PatchedTo(c.code, d.code, l, reg, |c.code|, p) && l <= c.pend && d.pend == c.pend - l && d.here == c.here
        && Wf(c)
    ensures Patched(c, d, l, reg, p)
  {
    forall i: nat | i < |c.code|
      ensures if i in l then d.code[i] == Jmp((if HasValue(c.code, i) then |c.code| else p) - (i + 1))
              else if i + 1 < |c.code| && i + 1 in l && c.code[i].TestSet? then
                d.code[i] == if reg != c.code[i].b then TestSet(reg, c.code[i].b, c.code[i].c)
                    else Test(c.code[i].b, c.code[i].c)
              else d.code[i] == c.code[i]
    {
      assert d.code[i] == PatchAt(c.code, l, reg, |c.code|, p, i);
    }
  }
}
