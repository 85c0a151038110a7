/** Saving precompiled chunks (ldump.c). */
module Dump {
  import opened DumpBytes

  /**
   * Between two points of a dump, x has been written; after an error nothing more is, so that only a part may have
   * been.
   */
  ghost predicate Wrote(out0: seq<byte>, status0: int, out1: seq<byte>, status1: int, x: seq<byte>) {
    && out0 <= out1 <= out0 + x
    && (status1 == 0 ==> status0 == 0 && out1 == out0 + x)
    && (status0 != 0 ==> out1 == out0 && status1 == status0)
  }

  lemma WroteBoth(a: seq<byte>, sa: int, b: seq<byte>, sb: int, c: seq<byte>, sc: int, x: seq<byte>, y: seq<byte>)
    requires Wrote(a, sa, b, sb, x) && Wrote(b, sb, c, sc, y)
    ensures Wrote(a, sa, c, sc, x + y)
  {
    assert a + x + y == a + (x + y);
    assert a + x <= a + (x + y);
    if sb != 0 { assert c <= a + x; }
  }

  class DumpState {
    var out: seq<byte>
    var status: int
    /** What the writer returns, call by call; then 0. */
    var answers: seq<int>
    const strip: bool

    constructor (strip: bool, answers: seq<int>)
      ensures out == [] && status == 0 && this.strip == strip && this.answers == answers
    {
      out, status, this.answers, this.strip := [], 0, answers, strip;
    }

    method DumpBlock(b: seq<byte>)
      modifies this`out, this`status, this`answers
      ensures Wrote(old(out), old(status), out, status, b)
      ensures old(answers) == [] ==> answers == [] && status == old(status)
    {
      if status == 0 {
        if answers != [] {
          status := answers[0];
          answers := answers[1..];
        }
        if status == 0 { out := out + b; }
      }
    }

    method DumpHeader()
      modifies this`out, this`status, this`answers
      ensures Wrote(old(out), old(status), out, status, Header())
      ensures old(answers) == [] ==> answers == [] && status == old(status)
    {
      DumpBlock(Header());
    }

    method DumpInt(x: int)
      requires IsInt(x)
      modifies this`out, this`status, this`answers
      ensures Wrote(old(out), old(status), out, status, WordBytes(x))
      ensures old(answers) == [] ==> answers == [] && status == old(status)
    {
      DumpBlock(IntBytes(x));
    }

    method DumpString(s: Text)
      modifies this`out, this`status, this`answers
      ensures Wrote(old(out), old(status), out, status, TextBytes(s))
      ensures old(answers) == [] ==> answers == [] && status == old(status)
    {
      if s.Null? {
        DumpBlock(Little(0, 8));
      } else {
        DumpBlock(Little(|s.bytes| + 1, 8));
        ghost var o, t := out, status;
        DumpBlock(s.bytes + [0]);
        WroteBoth(old(out), old(status), o, t, out, status, Little(|s.bytes| + 1, 8), s.bytes + [0]);
      }
    }

    /** A count, and a block with all elements. */
    method DumpVector(parts: seq<seq<byte>>)
      requires |parts| <= MAX_INT
      modifies this`out, this`status, this`answers
      ensures Wrote(old(out), old(status), out, status, Vector(parts))
      ensures old(answers) == [] ==> answers == [] && status == old(status)
    {
      DumpInt(|parts|);
      ghost var o, t := out, status;
      DumpBlock(Flat(parts));
      WroteBoth(old(out), old(status), o, t, out, status, WordBytes(|parts|), Flat(parts));
    }

    method DumpConstant(c: Constant)
      requires ConstantOk(c)
      modifies this`out, this`status, this`answers
      ensures Wrote(old(out), old(status), out, status, ConstantBytes(c))
      ensures old(answers) == [] ==> answers == [] && status == old(status)
    {
      DumpBlock([if c.Nil? then 0 else if c.Boolean? then 1 else if c.Number? then 3 else 4]);
      ghost var o, t := out, status;
      match c {
        case Nil =>
        case Boolean(v) =>
          DumpBlock([CharByte(v)]);
          WroteBoth(old(out), old(status), o, t, out, status, [1], [CharByte(v)]);
        case Number(image) =>
          DumpBlock(image);
          WroteBoth(old(out), old(status), o, t, out, status, [3], image);
        case Str(text) =>
          DumpString(text);
          WroteBoth(old(out), old(status), o, t, out, status, [4], TextBytes(text));
      }
    }

    method DumpValues(f: Proto)
      requires ProtoOk(f)
      modifies this`out, this`status, this`answers
      ensures Wrote(old(out), old(status), out, status, Vector(Chunks(f.k, ConstantBytes)))
      ensures old(answers) == [] ==> answers == [] && status == old(status)
    {
      ghost var parts := Chunks(f.k, ConstantBytes);
      DumpInt(|f.k|);
      ghost var o, t := out, status;
      for i := 0 to |f.k|
        invariant Wrote(o, t, out, status, Flat(parts[..i]))
        invariant old(answers) == [] ==> answers == [] && status == old(status)
      {
        ghost var o1, t1 := out, status;
        DumpConstant(f.k[i]);
        WroteBoth(o, t, o1, t1, out, status, Flat(parts[..i]), parts[i]);
        FlatSnoc(parts, i);
      }
      WroteVector(old(out), old(status), o, t, out, status, parts);
    }

    /** The nested functions. */
    method DumpFunctions(f: Proto)
      requires ProtoOk(f)
      modifies this`out, this`status, this`answers
      ensures Wrote(old(out), old(status), out, status, Vector(SubParts(f, strip)))
      ensures old(answers) == [] ==> answers == [] && status == old(status)
      decreases f, 0
    {
      hide *;
      SubReady(f);
      ghost var parts := SubParts(f, strip);
      DumpInt(|f.p|);
      ghost var o, t := out, status;
      WroteNone(o, t, parts);
      for i := 0 to |f.p|
        invariant Wrote(o, t, out, status, Flat(parts[..i]))
        invariant old(answers) == [] ==> answers == [] && status == old(status)
      {
        ghost var o1, t1 := out, status;
        DumpFunction(f.p[i]);
        WroteBoth(o, t, o1, t1, out, status, Flat(parts[..i]), parts[i]);
        FlatSnoc(parts, i);
      }
      WroteVector(old(out), old(status), o, t, out, status, parts);
    }

    method DumpConstants(f: Proto)
      requires ProtoOk(f)
      modifies this`out, this`status, this`answers
      ensures Wrote(old(out), old(status), out, status, Vector(Chunks(f.k, ConstantBytes)) + Vector(SubParts(f, strip)))
      ensures old(answers) == [] ==> answers == [] && status == old(status)
      decreases f, 1
    {
      hide *;
      DumpValues(f);
      ghost var o, t := out, status;
      DumpFunctions(f);
      WroteBoth(old(out), old(status), o, t, out, status, Vector(Chunks(f.k, ConstantBytes)),
          Vector(SubParts(f, strip)));
    }

    method DumpUpvalues(f: Proto)
      requires ProtoOk(f)
      modifies this`out, this`status, this`answers
      ensures Wrote(old(out), old(status), out, status, Vector(Chunks(f.upvalues, UpvalBytes)))
      ensures old(answers) == [] ==> answers == [] && status == old(status)
    {
      ghost var parts := Chunks(f.upvalues, UpvalBytes);
      DumpInt(|f.upvalues|);
      ghost var o, t := out, status;
      for i := 0 to |f.upvalues|
        invariant Wrote(o, t, out, status, Flat(parts[..i]))
        invariant old(answers) == [] ==> answers == [] && status == old(status)
      {
        ghost var o1, t1 := out, status;
        DumpBlock([f.upvalues[i].instack]);
        ghost var o2, t2 := out, status;
        DumpBlock([f.upvalues[i].idx]);
        WroteBoth(o1, t1, o2, t2, out, status, [f.upvalues[i].instack], [f.upvalues[i].idx]);
        WroteBoth(o, t, o1, t1, out, status, Flat(parts[..i]), parts[i]);
        FlatSnoc(parts, i);
      }
      WroteVector(old(out), old(status), o, t, out, status, parts);
    }

    method DumpLocVars(vars: seq<LocVar>)
      requires |vars| <= MAX_INT && forall i :: 0 <= i < |vars| ==> IsInt(vars[i].startpc) && IsInt(vars[i].endpc)
      modifies this`out, this`status, this`answers
      ensures Wrote(old(out), old(status), out, status, Vector(Chunks(vars, LocVarBytes)))
      ensures old(answers) == [] ==> answers == [] && status == old(status)
    {
      ghost var parts := Chunks(vars, LocVarBytes);
      DumpInt(|vars|);
      ghost var o, t := out, status;
      for i := 0 to |vars|
        invariant Wrote(o, t, out, status, Flat(parts[..i]))
        invariant old(answers) == [] ==> answers == [] && status == old(status)
      {
        ghost var o1, t1 := out, status;
        DumpString(vars[i].varname);
        ghost var o2, t2 := out, status;
        DumpInt(vars[i].startpc);
        ghost var o3, t3 := out, status;
        DumpInt(vars[i].endpc);
        WroteBoth(o2, t2, o3, t3, out, status, WordBytes(vars[i].startpc), WordBytes(vars[i].endpc));
        WroteBoth(o1, t1, o2, t2, out, status, TextBytes(vars[i].varname), WordBytes(vars[i].startpc)
            + WordBytes(vars[i].endpc));
        WroteBoth(o, t, o1, t1, out, status, Flat(parts[..i]), parts[i]);
        FlatSnoc(parts, i);
      }
      WroteVector(old(out), old(status), o, t, out, status, parts);
    }

    method DumpNames(upvalues: seq<Upvaldesc>)
      requires |upvalues| <= MAX_INT
      modifies this`out, this`status, this`answers
      ensures Wrote(old(out), old(status), out, status, Vector(Chunks(upvalues, NameBytes)))
      ensures old(answers) == [] ==> answers == [] && status == old(status)
    {
      ghost var parts := Chunks(upvalues, NameBytes);
      DumpInt(|upvalues|);
      ghost var o, t := out, status;
      for i := 0 to |upvalues|
        invariant Wrote(o, t, out, status, Flat(parts[..i]))
        invariant old(answers) == [] ==> answers == [] && status == old(status)
      {
        ghost var o1, t1 := out, status;
        DumpString(upvalues[i].name);
        WroteBoth(o, t, o1, t1, out, status, Flat(parts[..i]), parts[i]);
        FlatSnoc(parts, i);
      }
      WroteVector(old(out), old(status), o, t, out, status, parts);
    }

    method DumpDebug(f: Proto)
      requires ProtoOk(f)
      modifies this`out, this`status, this`answers
      ensures Wrote(old(out), old(status), out, status, if strip then NoDebugBytes() else DebugBytes(f))
      ensures old(answers) == [] ==> answers == [] && status == old(status)
    {
      var source, lineinfo, locvars, upvalues := if strip then Null else f.source, if strip then [] else f.lineinfo,
          if strip then [] else f.locvars, if strip then [] else f.upvalues;
      ghost var g := f.(source := source, lineinfo := lineinfo, locvars := locvars, upvalues := upvalues);
      DebugParts(f, g, strip);
      DumpString(source);
      ghost var o1, t1 := out, status;
      DumpVector(Chunks(lineinfo, WordBytes));
      ghost var o2, t2 := out, status;
      DumpLocVars(locvars);
      ghost var o3, t3 := out, status;
      DumpNames(upvalues);
      WroteBoth(o2, t2, o3, t3, out, status, Vector(Chunks(locvars, LocVarBytes)), Vector(Chunks(upvalues, NameBytes)));
      WroteBoth(o1, t1, o2, t2, out, status, Vector(Chunks(lineinfo, WordBytes)), Vector(Chunks(locvars, LocVarBytes))
          + Vector(Chunks(upvalues, NameBytes)));
      WroteBoth(old(out), old(status), o1, t1, out, status, TextBytes(source), Vector(Chunks(lineinfo, WordBytes))
          + (Vector(Chunks(locvars, LocVarBytes)) + Vector(Chunks(upvalues, NameBytes))));
    }

    /** The fields before the code. */
    method DumpHead(f: Proto)
      requires ProtoOk(f)
      modifies this`out, this`status, this`answers
      ensures Wrote(old(out), old(status), out, status, HeadBytes(f))
      ensures old(answers) == [] ==> answers == [] && status == old(status)
    {
      hide *;
      HeadReady(f);
      DumpInt(f.linedefined);
      ghost var o1, t1 := out, status;
      DumpInt(f.lastlinedefined);
      ghost var o2, t2 := out, status;
      DumpBlock([f.numparams]);
      ghost var o3, t3 := out, status;
      DumpBlock([f.isVararg]);
      ghost var o4, t4 := out, status;
      DumpBlock([f.maxstacksize]);
      WroteBoth(o3, t3, o4, t4, out, status, [f.isVararg], [f.maxstacksize]);
      WroteBoth(o2, t2, o3, t3, out, status, [f.numparams], [f.isVararg] + [f.maxstacksize]);
      assert [f.numparams] + ([f.isVararg] + [f.maxstacksize]) == [f.numparams, f.isVararg, f.maxstacksize];
      WroteBoth(o1, t1, o2, t2, out, status, WordBytes(f.lastlinedefined), [f.numparams, f.isVararg, f.maxstacksize]);
      WroteBoth(old(out), old(status), o1, t1, out, status, WordBytes(f.linedefined), WordBytes(f.lastlinedefined)
          + [f.numparams, f.isVararg, f.maxstacksize]);
    }

    method DumpFunction(f: Proto)
      requires ProtoOk(f)
      modifies this`out, this`status, this`answers
      ensures Wrote(old(out), old(status), out, status, FunctionBytes(f, strip))
      ensures old(answers) == [] ==> answers == [] && status == old(status)
      decreases f, 2
    {
      hide *;
      CodeReady(f);
      DumpHead(f);
      ghost var o1, t1 := out, status;
      DumpVector(Chunks(f.code, CodeBytes));
      ghost var o2, t2 := out, status;
      DumpConstants(f);
      ghost var o3, t3 := out, status;
      DumpUpvalues(f);
      ghost var o4, t4 := out, status;
      DumpDebug(f);
      ghost var debug := if strip then NoDebugBytes() else DebugBytes(f);
      ghost var ups, consts, code := Vector(Chunks(f.upvalues, UpvalBytes)), Vector(Chunks(f.k, ConstantBytes))
          + Vector(SubParts(f, strip)), Vector(Chunks(f.code, CodeBytes));
      WroteBoth(o3, t3, o4, t4, out, status, ups, debug);
      WroteBoth(o2, t2, o3, t3, out, status, consts, ups + debug);
      WroteBoth(o1, t1, o2, t2, out, status, code, consts + (ups + debug));
      WroteBoth(old(out), old(status), o1, t1, out, status, HeadBytes(f), code + (consts + (ups + debug)));
      FunctionIs(f, strip);
    }
  }

  lemma WroteNone(o: seq<byte>, t: int, parts: seq<seq<byte>>)
    ensures Wrote(o, t, o, t, Flat(parts[..0]))
  {
  }

  lemma WroteVector(o0: seq<byte>, t0: int, o: seq<byte>, t: int, out: seq<byte>, status: int, parts: seq<seq<byte>>)
    requires Wrote(o0, t0, o, t, WordBytes(|parts|)) && Wrote(o, t, out, status, Flat(parts[..|parts|]))
    ensures Wrote(o0, t0, out, status, Vector(parts))
  {
    assert parts[..|parts|] == parts;
    WroteBoth(o0, t0, o, t, out, status, WordBytes(|parts|), Flat(parts));
  }

  lemma SubReady(f: Proto)
    requires ProtoOk(f)
    ensures IsInt(|f.p|) && forall i :: 0 <= i < |f.p| ==> ProtoOk(f.p[i])
  {
  }

  lemma HeadReady(f: Proto)
    requires ProtoOk(f)
    ensures IsInt(f.linedefined) && IsInt(f.lastlinedefined) && HeadBytes(f) == WordBytes(f.linedefined)
        + (WordBytes(f.lastlinedefined) + [f.numparams, f.isVararg, f.maxstacksize])
  {
  }

  lemma CodeReady(f: Proto)
    requires ProtoOk(f)
    ensures |Chunks(f.code, CodeBytes)| <= MAX_INT
  {
  }

  lemma FunctionIs(f: Proto, strip: bool)
    ensures FunctionBytes(f, strip) == HeadBytes(f)
        + (Vector(Chunks(f.code, CodeBytes)) + ((Vector(Chunks(f.k, ConstantBytes)) + Vector(SubParts(f, strip)))
        + (Vector(Chunks(f.upvalues, UpvalBytes)) + if strip then NoDebugBytes() else DebugBytes(f))))
  {
  }

  lemma DebugParts(f: Proto, g: Proto, strip: bool)
    requires g == if strip then f.(source := Null, lineinfo := [], locvars := [], upvalues := []) else f
    ensures DebugBytes(g) == if strip then NoDebugBytes() else DebugBytes(f)
  {
    if strip {
      assert Chunks(g.lineinfo, WordBytes) == [] && Chunks(g.locvars, LocVarBytes) == []
          && Chunks(g.upvalues, NameBytes) == [];
    }
  }

  lemma WroteAll(o: seq<byte>, t: int, h: seq<byte>, out: seq<byte>, status: int, x: seq<byte>)
    requires Wrote([], 0, o, t, h) && Wrote(o, t, out, status, x) && t == 0 && status == 0
    ensures out == h + x
  {
    assert [] + h == h;
  }

  /** luaU_dump with a writer that never fails. */
  method Save(f: Proto, strip: bool) returns (all: seq<byte>)
    requires ProtoOk(f)
    ensures all == Header() + FunctionBytes(f, strip)
  {
    hide *;
    var d := new DumpState(strip, []);
    d.DumpHeader();
    ghost var o := d.out;
    d.DumpFunction(f);
    WroteAll(o, 0, Header(), d.out, d.status, FunctionBytes(f, strip));
    all := d.out;
  }
}
