/** Jump lists threaded through the offsets of jumps without a target (lcode.c:89-208). */
module CodeLists {
  import opened CodeVm

  const NO_JUMP: int := -1

  /** getjump: the jump after j in its list; an offset of a jump to itself ends the list. */
  function NextJump(code: seq<Instr>, j: nat): int
    requires j < |code| && code[j].Jmp?
  {
    if code[j].sbx == NO_JUMP then NO_JUMP else j + 1 + code[j].sbx
  }

  predicate NoDup(s: seq<nat>) { forall i, j :: 0 <= i < j < |s| ==> s[i] != s[j] }

  /** The jump at position i of s is linked to the next one. */
  predicate LinkAt(code: seq<Instr>, s: seq<nat>, i: nat) {
    i < |s| ==> s[i] < |code| && code[s[i]].Jmp? && NextJump(code, s[i]) == if i + 1 < |s| then s[i + 1] else NO_JUMP
  }

  /** The list with head l consists of the jumps of s, in that order. */
  ghost predicate IsList(code: seq<Instr>, l: int, s: seq<nat>) {
    && l == (if s == [] then NO_JUMP else s[0]) && NoDup(s)
    && (forall i: nat {:trigger LinkAt(code, s, i)} :: LinkAt(code, s, i))
  }

  lemma ListJump(code: seq<Instr>, l: int, s: seq<nat>, j: nat)
    requires IsList(code, l, s) && j in s
    ensures j < |code| && code[j].Jmp?
  {
    var i :| 0 <= i < |s| && s[i] == j;
    assert LinkAt(code, s, i);
  }

  ghost function Elems(s: seq<nat>): set<nat> { set x | x in s }

  /** Jump j and the test that controls it are untouched. */
  ghost predicate KeptJump(a: seq<Instr>, b: seq<Instr>, j: nat) {
    && j < |a| && j < |b| && b[j] == a[j]
    && (j > 0 && IsTest(a[j - 1]) ==> b[j - 1] == a[j - 1])
    && (j > 0 && !IsTest(a[j - 1]) ==> !IsTest(b[j - 1]))
  }

  lemma KeptList(a: seq<Instr>, b: seq<Instr>, l: int, s: seq<nat>)
    requires IsList(a, l, s) && forall j :: j in s ==> j < |a| && j < |b| && b[j] == a[j]
    ensures IsList(b, l, s)
  {
    forall i: nat ensures LinkAt(b, s, i) {
      assert LinkAt(a, s, i);
      if i < |s| { assert s[i] in s; }
    }
  }

  lemma KeptTrans(a: seq<Instr>, b: seq<Instr>, c: seq<Instr>, j: nat)
    requires KeptJump(a, b, j) && KeptJump(b, c, j)
    ensures KeptJump(a, c, j)
  {
  }

  lemma KeptValue(a: seq<Instr>, b: seq<Instr>, j: nat, r: Regs, v: bool)
    requires KeptJump(a, b, j)
    ensures HasValue(b, j) == HasValue(a, j) && ExitValue(b, j, r, v) == ExitValue(a, j, r, v)
  {
  }

  /** patchtestreg on the test of a jump: a TESTSET gets the register, or becomes a TEST if it needs none. */
  function TestPatch(x: Instr, reg: int): Instr
    requires x.TestSet?
  {
    if reg != NO_REG && reg != x.b then TestSet(reg, x.b, x.c) else Test(x.b, x.c)
  }

  /**
   * The instruction at i after the jumps of l were patched: those with a value go to vtarget, the others to dtarget.
   */
  function PatchAt(code: seq<Instr>, l: set<nat>, reg: int, vtarget: int, dtarget: int, i: nat): Instr
    requires i < |code|
  {
    if i in l then Jmp((if HasValue(code, i) then vtarget else dtarget) - (i + 1))
    else if i + 1 in l && code[i].TestSet? then TestPatch(code[i], reg)
    else code[i]
  }

  ghost predicate PatchedTo(a: seq<Instr>, b: seq<Instr>, l: set<nat>, reg: int, vtarget: int, dtarget: int) {
    |b| == |a| && forall i: nat {:trigger b[i]} {:trigger a[i]} ::
        i < |a| ==> b[i] == PatchAt(a, l, reg, vtarget, dtarget, i)
  }

  /** Only the tests of the jumps of l lost their value. */
  ghost predicate ValuesRemoved(a: seq<Instr>, b: seq<Instr>, l: set<nat>) {
    |b| == |a| && forall i: nat {:trigger b[i]} {:trigger a[i]} :: i < |a| ==>
      b[i] == if i + 1 in l && a[i].TestSet? then Test(a[i].b, a[i].c) else a[i]
  }

  lemma PatchedStart(a: seq<Instr>, reg: int, vtarget: int, dtarget: int)
    ensures PatchedTo(a, a, {}, reg, vtarget, dtarget)
  {
  }

  /** One more jump of the list is patched. */
  lemma PatchedOne(a: seq<Instr>, b: seq<Instr>, c: seq<Instr>, l: set<nat>, reg: int, vtarget: int, dtarget: int,
      j: nat)
    requires PatchedTo(a, b, l, reg, vtarget, dtarget) && j < |a| && j !in l && a[j].Jmp?
    requires forall i :: i in l ==> i < |a| && a[i].Jmp?
    requires var b1 := if HasValue(b, j) then b[Control(b, j) := TestPatch(b[Control(b, j)], reg)] else b;
      c == b1[j := Jmp((if HasValue(b, j) then vtarget else dtarget) - (j + 1))]
    ensures PatchedTo(a, c, l + {j}, reg, vtarget, dtarget)
  {
    assert b[j] == a[j];
    if j > 0 { assert b[j - 1] == PatchAt(a, l, reg, vtarget, dtarget, j - 1); }
    assert HasValue(b, j) == HasValue(a, j) && Control(b, j) == Control(a, j);
    forall i: nat | i < |a| ensures c[i] == PatchAt(a, l + {j}, reg, vtarget, dtarget, i) {
      assert b[i] == PatchAt(a, l, reg, vtarget, dtarget, i);
    }
  }

  /** Jumps outside a patched list, and their tests, are untouched. */
  lemma PatchedKeeps(a: seq<Instr>, b: seq<Instr>, l: set<nat>, reg: int, vtarget: int, dtarget: int, j: nat)
    requires PatchedTo(a, b, l, reg, vtarget, dtarget) && j < |a| && a[j].Jmp? && j !in l
    requires forall i :: i in l ==> i < |a| && a[i].Jmp?
    ensures KeptJump(a, b, j)
  {
    assert b[j] == a[j];
    if j > 0 { assert b[j - 1] == PatchAt(a, l, reg, vtarget, dtarget, j - 1); }
  }

  lemma RemovedKeeps(a: seq<Instr>, b: seq<Instr>, l: set<nat>, j: nat)
    requires ValuesRemoved(a, b, l) && j < |a| && a[j].Jmp? && j !in l
    ensures KeptJump(a, b, j)
  {
    assert b[j] == a[j];
    if j > 0 { assert b[j - 1] == a[j - 1]; }
  }
}
