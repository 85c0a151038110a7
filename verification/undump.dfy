/** Loading precompiled chunks (lundump.c). */
module Undump {
  import opened DumpBytes
  import opened ZioStream
  import opened Dump

  datatype Error = Fine | Truncated | Corrupted | NotBinary | NotA | VersionMismatch | Incompatible | Overrun

  /** Where the stream began with b, or with a part of it: b has been read, or found to be cut short. */
  ghost predicate Got(b: seq<byte>, left0: seq<byte>, err: Error, left1: seq<byte>) {
    if |b| <= |left0| then err == Fine && left0 == b + left1 else err == Truncated
  }

  /** The stream continues with rest, as far as it goes. */
  lemma Next(good: bool, b: seq<byte>, rest: seq<byte>, left0: seq<byte>, err: Error, left1: seq<byte>)
    requires good ==> left0 <= b + rest && Got(b, left0, err, left1)
    ensures good && err == Fine ==> left1 <= rest && left0 == b + left1
  {
    if good && err == Fine {
      assert left0[|b|..] == left1 && (b + rest)[|b|..] == rest;
      assert left0[|b|..] <= (b + rest)[|b|..];
    }
  }

  /** One thing is read after another, unless the first is cut short. */
  lemma Both(good: bool, a: seq<byte>, b: seq<byte>, left0: seq<byte>, err1: Error, left1: seq<byte>, err: Error,
      left: seq<byte>)
    requires good ==> Got(a, left0, err1, left1)
    requires good && err1 == Fine ==> Got(b, left1, err, left)
    requires err1 != Fine ==> err == err1
    ensures good ==> Got(a + b, left0, err, left)
  {
    if good && err1 == Fine { Assoc(a, b, left); }
  }

  /** More is announced than there is room for, and b is what has to be read until that shows. */
  ghost predicate Over(b: seq<byte>, left0: seq<byte>, err: Error) {
    err == if |b| <= |left0| then Overrun else Truncated
  }

  lemma BothOver(good: bool, a: seq<byte>, b: seq<byte>, left0: seq<byte>, err1: Error, left1: seq<byte>, err: Error)
    requires good ==> Got(a, left0, err1, left1)
    requires good && err1 == Fine ==> Over(b, left1, err)
    requires err1 != Fine ==> err == err1
    ensures good ==> Over(a + b, left0, err)
  {
  }

  lemma Regroup(good: bool, a: seq<byte>, b: seq<byte>, rest: seq<byte>, left: seq<byte>)
    requires good ==> left <= (a + b) + rest
    ensures good ==> left <= a + (b + rest)
  {
    Assoc(a, b, rest);
  }

  /** A block that should hold b. */
  lemma BlockGot(b: seq<byte>, rest: seq<byte>, left0: seq<byte>, r: seq<byte>, err: Error, left1: seq<byte>)
    requires err == (if |b| <= |left0| then Fine else Truncated) && left0 == r + left1 && (err == Fine ==> |r| == |b|)
    ensures left0 <= b + rest ==> Got(b, left0, err, left1) && (err == Fine ==> r == b)
  {
    if left0 <= b + rest && err == Fine {
      assert left0[..|b|] == (b + rest)[..|b|] && left0[..|b|] == r;
    }
  }

  // ---- The header

  /** Signature, version and format, sizes, tail: the first of these that differs decides the error. */
  function HeaderError(s: seq<byte>): (e: Error)
    requires |s| == 18
    ensures e == Fine <==> s == Header()
    ensures e == Corrupted ==> s[..12] == Header()[..12]
  {
    if s == Header() then Fine
    else if s[..4] != Header()[..4] then NotA
    else if s[..6] != Header()[..6] then VersionMismatch
    else if s[..12] != Header()[..12] then Incompatible
    else Corrupted
  }

  // ---- Elements of four bytes

  function WordOf(b: seq<byte>): int { LittleOf(b) }

  function Decode(b: seq<byte>, dec: seq<byte> -> int): seq<int> {
    if |b| < 4 then [] else [dec(b[..4])] + Decode(b[4..], dec)
  }

  lemma {:induction false} DecodeBack(xs: seq<int>, enc: int -> seq<byte>, dec: seq<byte> -> int)
    requires forall i :: 0 <= i < |xs| ==> |enc(xs[i])| == 4 && dec(enc(xs[i])) == xs[i]
    ensures Decode(Flat(Chunks(xs, enc)), dec) == xs && |Flat(Chunks(xs, enc))| == 4 * |xs|
  {
    if xs != [] {
      forall i | 0 <= i < |xs[1..]| ensures |enc(xs[1..][i])| == 4 && dec(enc(xs[1..][i])) == xs[1..][i] {
        assert xs[1..][i] == xs[i + 1];
      }
      DecodeBack(xs[1..], enc, dec);
      var all, b := Flat(Chunks(xs, enc)), enc(xs[0]);
      assert Chunks(xs, enc)[1..] == Chunks(xs[1..], enc);
      assert all == b + Flat(Chunks(xs[1..], enc));
      assert all[..4] == b && all[4..] == Flat(Chunks(xs[1..], enc));
    }
  }

  predicate CodeOk(xs: seq<int>) { |xs| <= MAX_INT && forall i :: 0 <= i < |xs| ==> 0 <= xs[i] < 0x1_0000_0000 }

  predicate LinesOk(xs: seq<int>) { |xs| <= MAX_INT && forall i :: 0 <= i < |xs| ==> IsInt(xs[i]) }

  lemma CodeBack(xs: seq<int>)
    requires CodeOk(xs)
    ensures Decode(Flat(Chunks(xs, CodeBytes)), WordOf) == xs && |Flat(Chunks(xs, CodeBytes))| == 4 * |xs|
        && |xs| <= MAX_INT
  {
    Powers();
    forall i | 0 <= i < |xs| ensures |CodeBytes(xs[i])| == 4 && WordOf(CodeBytes(xs[i])) == xs[i] {
      LittleBack(xs[i], 4);
    }
    DecodeBack(xs, CodeBytes, WordOf);
  }

  lemma LinesBack(xs: seq<int>)
    requires LinesOk(xs)
    ensures Decode(Flat(Chunks(xs, WordBytes)), IntOf) == xs && |Flat(Chunks(xs, WordBytes))| == 4 * |xs|
        && |xs| <= MAX_INT
  {
    forall i | 0 <= i < |xs| ensures |WordBytes(xs[i])| == 4 && IntOf(WordBytes(xs[i])) == xs[i] { IntBack(xs[i]); }
    DecodeBack(xs, WordBytes, IntOf);
  }

  class LoadState {
    const z: Zio
    var err: Error

    constructor (z: Zio)
      ensures this.z == z && err == Fine
    {
      this.z, err := z, Fine;
    }

    method LoadBlock(size: nat, ghost b: seq<byte>, ghost rest: seq<byte>) returns (r: seq<byte>)
      requires z.Valid() && err == Fine
      modifies z, this`err
      ensures z.Valid() && err == (if size <= |old(z.Remaining())| then Fine else Truncated)
      ensures old(z.Remaining()) == r + z.Remaining() && (err == Fine ==> |r| == size)
      ensures |b| == size && old(z.Remaining()) <= b + rest ==>
          Got(b, old(z.Remaining()), err, z.Remaining()) && (err == Fine ==> r == b)
    {
      hide Got;
      var missing;
      missing, r := z.Read(size);
      if missing != 0 { err := Truncated; }
      if |b| == size { BlockGot(b, rest, old(z.Remaining()), r, err, z.Remaining()); }
    }

    method LoadByte(ghost x: byte, ghost rest: seq<byte>) returns (c: byte)
      requires z.Valid() && err == Fine
      modifies z, this`err
      ensures z.Valid() && |z.Remaining()| <= |old(z.Remaining())|
      ensures old(z.Remaining()) <= [x] + rest ==>
          Got([x], old(z.Remaining()), err, z.Remaining()) && (err == Fine ==> c == x)
    {
      var b := LoadBlock(1, [x], rest);
      c := if err == Fine then b[0] else 0;
    }

    /** A negative int is an error: all ints in a chunk are counts, lines or positions. */
    method LoadInt(ghost x: int, ghost rest: seq<byte>) returns (n: int)
      requires z.Valid() && err == Fine
      modifies z, this`err
      ensures z.Valid() && |z.Remaining()| <= |old(z.Remaining())|
      ensures err == if |old(z.Remaining())| < 4 then Truncated else if IntOf(old(z.Remaining())[..4]) < 0 then
          Corrupted else Fine
      ensures err == Fine ==> 0 <= n <= MAX_INT && |z.Remaining()| + 4 == |old(z.Remaining())|
      ensures 0 <= x <= MAX_INT && old(z.Remaining()) <= WordBytes(x) + rest
          ==> Got(WordBytes(x), old(z.Remaining()), err, z.Remaining()) && (err == Fine ==> n == x)
    {
      n := 0;
      var b := LoadBlock(4, WordBytes(x), rest);
      if err != Fine { return; }
      n := IntOf(b);
      IntRange(b);
      if IsInt(x) { IntBack(x); }
      if n < 0 { err := Corrupted; }
    }

    method LoadString(ghost t: Text, ghost rest: seq<byte>) returns (r: Text)
      requires z.Valid() && err == Fine
      modifies z, this`err
      ensures z.Valid() && |z.Remaining()| <= |old(z.Remaining())|
      ensures TextOk(t) && old(z.Remaining()) <= TextBytes(t) + rest
          ==> Got(TextBytes(t), old(z.Remaining()), err, z.Remaining()) && (err == Fine ==> r == t)
    {
      hide Got, Little, LittleOf;
      r := Null;
      ghost var left0, good := z.Remaining(), TextOk(t) && old(z.Remaining()) <= TextBytes(t) + rest;
      ghost var size0, tail := if t.Null? then 0 else |t.bytes| + 1, if t.Null? then [] else t.bytes + [0];
      TextParts(t, size0, tail);
      Regroup(good, Little(size0, 8), tail, rest, left0);
      var b := LoadBlock(8, Little(size0, 8), tail + rest);
      ghost var left1, err1 := z.Remaining(), err;
      Next(good, Little(size0, 8), tail + rest, left0, err1, left1);
      if err == Fine {
        var size := LittleOf(b);
        if size != 0 {
          var s := LoadBlock(size, tail, rest);
          if err == Fine { r := Text(s[..size - 1]); }
        } else {
          GotNothing(left1);
        }
      }
      Both(good, Little(size0, 8), tail, left0, err1, left1, err, z.Remaining());
    }

    /** LoadCode: a count, and one block. */
    method LoadCode(ghost xs: seq<int>, ghost rest: seq<byte>) returns (code: seq<int>)
      requires z.Valid() && err == Fine
      modifies z, this`err
      ensures z.Valid() && |z.Remaining()| <= |old(z.Remaining())|
      ensures CodeOk(xs) && old(z.Remaining()) <= Vector(Chunks(xs, CodeBytes)) + rest
          ==> Got(Vector(Chunks(xs, CodeBytes)), old(z.Remaining()), err, z.Remaining()) && (err == Fine ==> code == xs)
    {
      hide *;
      code := [];
      ghost var parts, left0, good := Chunks(xs, CodeBytes), z.Remaining(), CodeOk(xs)
          && old(z.Remaining()) <= Vector(Chunks(xs, CodeBytes)) + rest;
      VectorIs(parts);
      if good { CodeBack(xs); }
      Regroup(good, WordBytes(|xs|), Flat(parts), rest, left0);
      var n := LoadInt(|xs|, Flat(parts) + rest);
      ghost var left1, err1 := z.Remaining(), err;
      Next(good, WordBytes(|xs|), Flat(parts) + rest, left0, err1, left1);
      if err == Fine {
        var b := LoadBlock(n * 4, Flat(parts), rest);
        code := Decode(b, WordOf);
      }
      Both(good, WordBytes(|xs|), Flat(parts), left0, err1, left1, err, z.Remaining());
    }

    method LoadLineInfo(ghost xs: seq<int>, ghost rest: seq<byte>) returns (lines: seq<int>)
      requires z.Valid() && err == Fine
      modifies z, this`err
      ensures z.Valid() && |z.Remaining()| <= |old(z.Remaining())|
      ensures LinesOk(xs) && old(z.Remaining()) <= Vector(Chunks(xs, WordBytes)) + rest ==>
          Got(Vector(Chunks(xs, WordBytes)), old(z.Remaining()), err, z.Remaining()) && (err == Fine ==> lines == xs)
    {
      hide *;
      lines := [];
      ghost var parts, left0, good := Chunks(xs, WordBytes), z.Remaining(), LinesOk(xs)
          && old(z.Remaining()) <= Vector(Chunks(xs, WordBytes)) + rest;
      VectorIs(parts);
      if good { LinesBack(xs); }
      Regroup(good, WordBytes(|xs|), Flat(parts), rest, left0);
      var n := LoadInt(|xs|, Flat(parts) + rest);
      ghost var left1, err1 := z.Remaining(), err;
      Next(good, WordBytes(|xs|), Flat(parts) + rest, left0, err1, left1);
      if err == Fine {
        var b := LoadBlock(n * 4, Flat(parts), rest);
        lines := Decode(b, IntOf);
      }
      Both(good, WordBytes(|xs|), Flat(parts), left0, err1, left1, err, z.Remaining());
    }

    method LoadConstant(ghost c: Constant, ghost rest: seq<byte>) returns (k: Constant)
      requires z.Valid() && err == Fine
      modifies z, this`err
      ensures z.Valid() && |z.Remaining()| <= |old(z.Remaining())|
      ensures ConstantOk(c) && old(z.Remaining()) <= ConstantBytes(c) + rest
          ==> Got(ConstantBytes(c), old(z.Remaining()), err, z.Remaining()) && (err == Fine ==> k == c)
    {
      hide Got;
      k := Nil;
      ghost var left0, good := z.Remaining(), ConstantOk(c) && old(z.Remaining()) <= ConstantBytes(c) + rest;
      ConstantParts(c);
      Regroup(good, [Tag(c)], Payload(c), rest, left0);
      var t := LoadByte(Tag(c), Payload(c) + rest);
      ghost var left1, err1 := z.Remaining(), err;
      Next(good, [Tag(c)], Payload(c) + rest, left0, err1, left1);
      if err == Fine {
        if t == 1 {
          var v := LoadByte(if c.Boolean? && -128 <= c.value < 128 then CharByte(c.value) else 0, rest);
          k := Boolean(CharOf(v));
        } else if t == 3 {
          var b := LoadBlock(8, Payload(c), rest);
          k := Number(b);
        } else if t == 4 {
          var s := LoadString(if c.Str? then c.text else Null, rest);
          k := Str(s);
        } else {
          GotNothing(left1);
        }
      }
      Both(good, [Tag(c)], Payload(c), left0, err1, left1, err, z.Remaining());
    }

    method LoadValues(ghost ks: seq<Constant>, ghost rest: seq<byte>) returns (k: seq<Constant>)
      requires z.Valid() && err == Fine
      modifies z, this`err
      ensures z.Valid() && |z.Remaining()| <= |old(z.Remaining())|
      ensures ValuesOk(ks) && old(z.Remaining()) <= Vector(Chunks(ks, ConstantBytes)) + rest ==>
          Got(Vector(Chunks(ks, ConstantBytes)), old(z.Remaining()), err, z.Remaining()) && (err == Fine ==> k == ks)
    {
      hide *;
      k := [];
      ghost var parts, left0, good := Chunks(ks, ConstantBytes), z.Remaining(), ValuesOk(ks)
          && old(z.Remaining()) <= Vector(Chunks(ks, ConstantBytes)) + rest;
      if good { ValuesAre(ks); }
      VectorIs(parts);
      Regroup(good, WordBytes(|ks|), Flat(parts), rest, left0);
      var n := LoadInt(|ks|, Flat(parts) + rest);
      VectorStart(good, parts, left0, err, z.Remaining());
      if err != Fine { return; }
      for i := 0 to n
        invariant z.Valid() && err == Fine && |z.Remaining()| <= |left0|
        invariant good ==> n == |ks| && k == ks[..i] && left0 == Done(parts, i) + z.Remaining()
      {
        ghost var left := z.Remaining();
        VectorNext(good, parts, rest, left0, left, i);
        var c := LoadConstant(if i < |ks| then ks[i] else Nil, Tail(parts, i, rest));
        VectorStep(good, parts, left0, left, i, err, z.Remaining());
        if err != Fine { return; }
        k := k + [c];
      }
      VectorEnd(good, parts, left0, z.Remaining());
    }

    /** The descriptions have no names yet. */
    method LoadUpvalues(ghost us: seq<Upvaldesc>, ghost rest: seq<byte>) returns (r: seq<Upvaldesc>)
      requires z.Valid() && err == Fine
      modifies z, this`err
      ensures z.Valid() && |z.Remaining()| <= |old(z.Remaining())|
      ensures |us| <= MAX_INT && old(z.Remaining()) <= Vector(Chunks(us, UpvalBytes)) + rest ==>
          Got(Vector(Chunks(us, UpvalBytes)), old(z.Remaining()), err, z.Remaining())
          && (err == Fine ==> r == Nameless(us))
    {
      hide *;
      r := [];
      ghost var parts, left0, good := Chunks(us, UpvalBytes), z.Remaining(), |us| <= MAX_INT
          && old(z.Remaining()) <= Vector(Chunks(us, UpvalBytes)) + rest;
      VectorIs(parts);
      Regroup(good, WordBytes(|us|), Flat(parts), rest, left0);
      var n := LoadInt(|us|, Flat(parts) + rest);
      VectorStart(good, parts, left0, err, z.Remaining());
      if err != Fine { return; }
      for i := 0 to n
        invariant z.Valid() && err == Fine && |z.Remaining()| <= |left0|
        invariant good ==> n == |us| && r == Nameless(us)[..i] && left0 == Done(parts, i) + z.Remaining()
      {
        ghost var left := z.Remaining();
        VectorNext(good, parts, rest, left0, left, i);
        var u := LoadUpvalue(if i < |us| then us[i] else Upvaldesc(Null, 0, 0), Tail(parts, i, rest));
        VectorStep(good, parts, left0, left, i, err, z.Remaining());
        if err != Fine { return; }
        r := r + [u];
      }
      VectorEnd(good, parts, left0, z.Remaining());
    }

    method LoadUpvalue(ghost u: Upvaldesc, ghost rest: seq<byte>) returns (r: Upvaldesc)
      requires z.Valid() && err == Fine
      modifies z, this`err
      ensures z.Valid() && |z.Remaining()| <= |old(z.Remaining())|
      ensures old(z.Remaining()) <= UpvalBytes(u) + rest ==>
          Got(UpvalBytes(u), old(z.Remaining()), err, z.Remaining()) && (err == Fine ==> r == u.(name := Null))
    {
      hide Got;
      r := Upvaldesc(Null, 0, 0);
      ghost var left0, good := z.Remaining(), old(z.Remaining()) <= UpvalBytes(u) + rest;
      assert UpvalBytes(u) == [u.instack] + [u.idx];
      Regroup(good, [u.instack], [u.idx], rest, left0);
      var instack := LoadByte(u.instack, [u.idx] + rest);
      ghost var left1, err1 := z.Remaining(), err;
      Next(good, [u.instack], [u.idx] + rest, left0, err1, left1);
      if err == Fine {
        var idx := LoadByte(u.idx, rest);
        r := Upvaldesc(Null, instack, idx);
      }
      Both(good, [u.instack], [u.idx], left0, err1, left1, err, z.Remaining());
    }

    method LoadLocVar(ghost v: LocVar, ghost rest: seq<byte>) returns (r: LocVar)
      requires z.Valid() && err == Fine
      modifies z, this`err
      ensures z.Valid() && |z.Remaining()| <= |old(z.Remaining())|
      ensures LocVarOk(v) && old(z.Remaining()) <= LocVarBytes(v) + rest
          ==> Got(LocVarBytes(v), old(z.Remaining()), err, z.Remaining()) && (err == Fine ==> r == v)
    {
      hide Got, TextBytes, WordBytes, TextOk;
      r := LocVar(Null, 0, 0);
      ghost var left0, good := z.Remaining(), LocVarOk(v) && old(z.Remaining()) <= LocVarBytes(v) + rest;
      ghost var b, c, d := TextBytes(v.varname), WordBytes(v.startpc), WordBytes(v.endpc);
      Regroup(good, b, c + d, rest, left0);
      var varname := LoadString(v.varname, (c + d) + rest);
      ghost var left1, err1 := z.Remaining(), err;
      Next(good, b, (c + d) + rest, left0, err1, left1);
      if err == Fine {
        Regroup(good, c, d, rest, left1);
        var startpc := LoadInt(v.startpc, d + rest);
        ghost var left2, err2 := z.Remaining(), err;
        Next(good, c, d + rest, left1, err2, left2);
        if err == Fine {
          var endpc := LoadInt(v.endpc, rest);
          r := LocVar(varname, startpc, endpc);
        }
        Both(good, c, d, left1, err2, left2, err, z.Remaining());
      }
      Both(good, b, c + d, left0, err1, left1, err, z.Remaining());
    }

    method LoadLocVars(ghost vs: seq<LocVar>, ghost rest: seq<byte>) returns (r: seq<LocVar>)
      requires z.Valid() && err == Fine
      modifies z, this`err
      ensures z.Valid() && |z.Remaining()| <= |old(z.Remaining())|
      ensures LocVarsOk(vs) && old(z.Remaining()) <= Vector(Chunks(vs, LocVarBytes)) + rest
          ==> Got(Vector(Chunks(vs, LocVarBytes)), old(z.Remaining()), err, z.Remaining()) && (err == Fine ==> r == vs)
    {
      hide *;
      r := [];
      ghost var parts, left0, good := Chunks(vs, LocVarBytes), z.Remaining(), LocVarsOk(vs)
          && old(z.Remaining()) <= Vector(Chunks(vs, LocVarBytes)) + rest;
      if good { LocVarsAre(vs); }
      VectorIs(parts);
      Regroup(good, WordBytes(|vs|), Flat(parts), rest, left0);
      var n := LoadInt(|vs|, Flat(parts) + rest);
      VectorStart(good, parts, left0, err, z.Remaining());
      if err != Fine { return; }
      for i := 0 to n
        invariant z.Valid() && err == Fine && |z.Remaining()| <= |left0|
        invariant good ==> n == |vs| && r == vs[..i] && left0 == Done(parts, i) + z.Remaining()
      {
        ghost var left := z.Remaining();
        VectorNext(good, parts, rest, left0, left, i);
        var v := LoadLocVar(if i < |vs| then vs[i] else LocVar(Null, 0, 0), Tail(parts, i, rest));
        VectorStep(good, parts, left0, left, i, err, z.Remaining());
        if err != Fine { return; }
        r := r + [v];
      }
      VectorEnd(good, parts, left0, z.Remaining());
    }

    /**
     * The names of the upvalues, stored in their descriptions. The source does not compare the two counts: the error
     * stands for a store behind the last description, made when one name too many has been read.
     */
    method LoadNames(upvalues: seq<Upvaldesc>, ghost us: seq<Upvaldesc>, ghost rest: seq<byte>)
        returns (r: seq<Upvaldesc>)
      requires z.Valid() && err == Fine
      modifies z, this`err
      ensures z.Valid() && |z.Remaining()| <= |old(z.Remaining())|
      ensures NamesOk(us) && |us| <= |upvalues| && old(z.Remaining()) <= Vector(Chunks(us, NameBytes)) + rest ==>
          Got(Vector(Chunks(us, NameBytes)), old(z.Remaining()), err, z.Remaining())
          && (err == Fine ==> r == Named(upvalues, us, |us|))
      ensures NamesOk(us) && |us| > |upvalues| && old(z.Remaining()) <= Vector(Chunks(us, NameBytes)) + rest ==>
          Over(Done(Chunks(us, NameBytes), |upvalues| + 1), old(z.Remaining()), err)
    {
      hide *;
      r := upvalues;
      ghost var parts, left0, good := Chunks(us, NameBytes), z.Remaining(), NamesOk(us)
          && old(z.Remaining()) <= Vector(Chunks(us, NameBytes)) + rest;
      ghost var over, room := good && |us| > |upvalues|, |upvalues|;
      if good { NamesAre(us); NamedStart(upvalues, us); }
      VectorIs(parts);
      Regroup(good, WordBytes(|us|), Flat(parts), rest, left0);
      var n := LoadInt(|us|, Flat(parts) + rest);
      VectorStart(good, parts, left0, err, z.Remaining());
      OverStart(over, parts, room, left0, err, z.Remaining());
      if err != Fine { return; }
      for i := 0 to n
        invariant z.Valid() && err == Fine && |z.Remaining()| <= |left0| && i <= |r| == |upvalues|
        invariant good ==> n == |us| && r == Named(upvalues, us, i) && left0 == Done(parts, i) + z.Remaining()
      {
        ghost var left := z.Remaining();
        VectorNext(good, parts, rest, left0, left, i);
        var name := LoadString(if i < |us| then us[i].name else Null, Tail(parts, i, rest));
        VectorStep(good, parts, left0, left, i, err, z.Remaining());
        OverStep(over, parts, room, left0, left, i, err, z.Remaining());
        if err != Fine { return; }
        if i >= |r| {
          err := Overrun;
          return;
        }
        if good { NamedStep(upvalues, us, i); }
        r := r[i := r[i].(name := name)];
      }
      VectorEnd(good, parts, left0, z.Remaining());
    }

    /** The nested functions: each is read by a call of its own. */
    method LoadFunctions(ghost f: Proto, ghost strip: bool, ghost rest: seq<byte>) returns (ps: seq<Proto>)
      requires z.Valid() && err == Fine
      modifies z, this`err
      ensures z.Valid() && |z.Remaining()| <= |old(z.Remaining())|
      ensures ProtoOk(f) && old(z.Remaining()) <= Vector(SubParts(f, strip)) + rest ==>
          Got(Vector(SubParts(f, strip)), old(z.Remaining()), err, z.Remaining())
          && (err == Fine ==> ps == KeptAll(f, strip))
      decreases |z.Remaining()|, 0
    {
      hide *;
      ps := [];
      ghost var parts, left0, good := SubParts(f, strip), z.Remaining(), ProtoOk(f)
          && old(z.Remaining()) <= Vector(SubParts(f, strip)) + rest;
      if good { SubsAre(f); }
      VectorIs(parts);
      Regroup(good, WordBytes(|f.p|), Flat(parts), rest, left0);
      var n := LoadInt(|f.p|, Flat(parts) + rest);
      VectorStart(good, parts, left0, err, z.Remaining());
      if err != Fine { return; }
      for i := 0 to n
        invariant z.Valid() && err == Fine && |z.Remaining()| < |left0|
        invariant good ==> n == |f.p| && ps == KeptAll(f, strip)[..i] && left0 == Done(parts, i) + z.Remaining()
      {
        ghost var left := z.Remaining();
        VectorNext(good, parts, rest, left0, left, i);
        var p := LoadFunction(if i < |f.p| then f.p[i] else EmptyProto(), strip, Tail(parts, i, rest));
        VectorStep(good, parts, left0, left, i, err, z.Remaining());
        if err != Fine { return; }
        ps := ps + [p];
      }
      VectorEnd(good, parts, left0, z.Remaining());
    }

    method LoadConstants(ghost f: Proto, ghost strip: bool, ghost rest: seq<byte>)
        returns (k: seq<Constant>, ps: seq<Proto>)
      requires z.Valid() && err == Fine
      modifies z, this`err
      ensures z.Valid() && |z.Remaining()| <= |old(z.Remaining())|
      ensures ProtoOk(f) && old(z.Remaining()) <= ConstantsBytes(f, strip) + rest ==>
          Got(ConstantsBytes(f, strip), old(z.Remaining()), err, z.Remaining())
          && (err == Fine ==> k == f.k && ps == KeptAll(f, strip))
      decreases |z.Remaining()|, 1
    {
      hide *;
      k, ps := [], [];
      ghost var left0, good := z.Remaining(), ProtoOk(f) && old(z.Remaining()) <= ConstantsBytes(f, strip) + rest;
      ghost var b, c := Vector(Chunks(f.k, ConstantBytes)), Vector(SubParts(f, strip));
      if good { PartsOk(f); }
      ConstantsAre(f, strip);
      Regroup(good, b, c, rest, left0);
      k := LoadValues(f.k, c + rest);
      ghost var left1, err1 := z.Remaining(), err;
      Next(good, b, c + rest, left0, err1, left1);
      if err == Fine { ps := LoadFunctions(f, strip, rest); }
      Both(good, b, c, left0, err1, left1, err, z.Remaining());
    }

    method LoadDebug(upvalues: seq<Upvaldesc>, ghost g: Debug, ghost rest: seq<byte>)
        returns (source: Text, lines: seq<int>, locvars: seq<LocVar>, ups: seq<Upvaldesc>)
      requires z.Valid() && err == Fine
      modifies z, this`err
      ensures z.Valid() && |z.Remaining()| <= |old(z.Remaining())|
      ensures DebugOk(g) && |g.names| <= |upvalues| && old(z.Remaining()) <= DebugBytesOf(g) + rest ==>
          Got(DebugBytesOf(g), old(z.Remaining()), err, z.Remaining())
          && (err == Fine ==>
            source == g.source && lines == g.lines && locvars == g.locvars
            && ups == Named(upvalues, g.names, |g.names|))
      ensures DebugOk(g) && |g.names| > |upvalues| && old(z.Remaining()) <= DebugBytesOf(g) + rest ==>
          Over(DebugUpTo(g, |upvalues| + 1), old(z.Remaining()), err)
    {
      hide *;
      lines, locvars, ups := [], [], upvalues;
      ghost var left0, good := z.Remaining(), DebugOk(g) && old(z.Remaining()) <= DebugBytesOf(g) + rest;
      ghost var over, fits := good && |g.names| > |upvalues|, good && |g.names| <= |upvalues|;
      ghost var e := if over then Done(Chunks(g.names, NameBytes), |upvalues| + 1) else [];
      ghost var a, b, c, d := TextBytes(g.source), Vector(Chunks(g.lines, WordBytes)),
          Vector(Chunks(g.locvars, LocVarBytes)), Vector(Chunks(g.names, NameBytes));
      DebugIs(g);
      Regroup(good, a, b + (c + d), rest, left0);
      source := LoadString(g.source, (b + (c + d)) + rest);
      ghost var left1, err1 := z.Remaining(), err;
      Next(good, a, (b + (c + d)) + rest, left0, err1, left1);
      if err == Fine {
        Regroup(good, b, c + d, rest, left1);
        lines := LoadLineInfo(g.lines, (c + d) + rest);
        ghost var left2, err2 := z.Remaining(), err;
        Next(good, b, (c + d) + rest, left1, err2, left2);
        if err == Fine { locvars, ups := LoadLists(upvalues, g, good, rest); }
        Both(fits, b, c + d, left1, err2, left2, err, z.Remaining());
        BothOver(over, b, c + e, left1, err2, left2, err);
      }
      Both(fits, a, b + (c + d), left0, err1, left1, err, z.Remaining());
      BothOver(over, a, b + (c + e), left0, err1, left1, err);
      if over { DebugUpToIs(g, |upvalues| + 1); }
    }

    /** The local variables and the names of the upvalues. */
    method LoadLists(upvalues: seq<Upvaldesc>, ghost g: Debug, ghost good: bool, ghost rest: seq<byte>)
        returns (locvars: seq<LocVar>, ups: seq<Upvaldesc>)
      requires z.Valid() && err == Fine
      requires good ==>
          DebugOk(g)
          && z.Remaining() <= (Vector(Chunks(g.locvars, LocVarBytes)) + Vector(Chunks(g.names, NameBytes))) + rest
      modifies z, this`err
      ensures z.Valid() && |z.Remaining()| <= |old(z.Remaining())|
      ensures good && |g.names| <= |upvalues| ==>
          Got(Vector(Chunks(g.locvars, LocVarBytes)) + Vector(Chunks(g.names, NameBytes)), old(z.Remaining()), err,
              z.Remaining())
          && (err == Fine ==> locvars == g.locvars && ups == Named(upvalues, g.names, |g.names|))
      ensures good && |g.names| > |upvalues| ==>
          Over(Vector(Chunks(g.locvars, LocVarBytes)) + Done(Chunks(g.names, NameBytes), |upvalues| + 1),
              old(z.Remaining()), err)
    {
      hide *;
      ups := upvalues;
      ghost var left0, c, d := z.Remaining(), Vector(Chunks(g.locvars, LocVarBytes)),
          Vector(Chunks(g.names, NameBytes));
      DebugIs(g);
      Regroup(good, c, d, rest, left0);
      locvars := LoadLocVars(g.locvars, d + rest);
      ghost var left1, err1 := z.Remaining(), err;
      Next(good, c, d + rest, left0, err1, left1);
      if err == Fine { ups := LoadNames(upvalues, g.names, rest); }
      Both(good && |g.names| <= |upvalues|, c, d, left0, err1, left1, err, z.Remaining());
      ghost var over := good && |g.names| > |upvalues|;
      BothOver(over, c, if over then Done(Chunks(g.names, NameBytes), |upvalues| + 1) else [], left0, err1, left1, err);
    }

    /** The fields before the code. */
    method LoadHead(ghost f: Proto, ghost rest: seq<byte>) returns (r: Proto)
      requires z.Valid() && err == Fine
      modifies z, this`err
      ensures z.Valid() && |z.Remaining()| <= |old(z.Remaining())|
      ensures ProtoOk(f) && old(z.Remaining()) <= HeadBytes(f) + rest
          ==> Got(HeadBytes(f), old(z.Remaining()), err, z.Remaining()) && (err == Fine ==> r == Headed(f))
    {
      hide *;
      ghost var left0, good := z.Remaining(), ProtoOk(f) && old(z.Remaining()) <= HeadBytes(f) + rest;
      ghost var a, b, c := WordBytes(f.linedefined), WordBytes(f.lastlinedefined),
          [f.numparams, f.isVararg, f.maxstacksize];
      if good { HeadOk(f); }
      HeadIs(f);
      r := EmptyProto();
      Regroup(good, a, b + c, rest, left0);
      var linedefined := LoadInt(f.linedefined, (b + c) + rest);
      ghost var left1, err1 := z.Remaining(), err;
      Next(good, a, (b + c) + rest, left0, err1, left1);
      if err == Fine {
        Regroup(good, b, c, rest, left1);
        var lastlinedefined := LoadInt(f.lastlinedefined, c + rest);
        ghost var left2, err2 := z.Remaining(), err;
        Next(good, b, c + rest, left1, err2, left2);
        if err == Fine {
          var x, y, w := LoadThree(c, rest);
          r := r.(linedefined := linedefined, lastlinedefined := lastlinedefined, numparams := x, isVararg := y,
              maxstacksize := w);
        }
        Both(good, b, c, left1, err2, left2, err, z.Remaining());
      }
      Both(good, a, b + c, left0, err1, left1, err, z.Remaining());
    }

    method LoadThree(ghost b: seq<byte>, ghost rest: seq<byte>) returns (x: byte, y: byte, w: byte)
      requires z.Valid() && err == Fine && |b| == 3
      modifies z, this`err
      ensures z.Valid() && |z.Remaining()| <= |old(z.Remaining())|
      ensures old(z.Remaining()) <= b + rest ==>
          Got(b, old(z.Remaining()), err, z.Remaining()) && (err == Fine ==> b == [x, y, w])
    {
      hide *;
      x, y, w := 0, 0, 0;
      ghost var left0, good := z.Remaining(), old(z.Remaining()) <= b + rest;
      assert b == [b[0]] + ([b[1]] + [b[2]]);
      Regroup(good, [b[0]], [b[1]] + [b[2]], rest, left0);
      x := LoadByte(b[0], ([b[1]] + [b[2]]) + rest);
      ghost var left1, err1 := z.Remaining(), err;
      Next(good, [b[0]], ([b[1]] + [b[2]]) + rest, left0, err1, left1);
      if err == Fine {
        Regroup(good, [b[1]], [b[2]], rest, left1);
        y := LoadByte(b[1], [b[2]] + rest);
        ghost var left2, err2 := z.Remaining(), err;
        Next(good, [b[1]], [b[2]] + rest, left1, err2, left2);
        if err == Fine { w := LoadByte(b[2], rest); }
        Both(good, [b[1]], [b[2]], left1, err2, left2, err, z.Remaining());
      }
      Both(good, [b[0]], [b[1]] + [b[2]], left0, err1, left1, err, z.Remaining());
    }

    /**
     * If the stream begins as the dump of f does, the result is f, without what was stripped; if it ends too early,
     * that is the error.
     */
    method LoadFunction(ghost f: Proto, ghost strip: bool, ghost rest: seq<byte>) returns (r: Proto)
      requires z.Valid() && err == Fine
      modifies z, this`err
      ensures z.Valid() && |z.Remaining()| <= |old(z.Remaining())|
      ensures ProtoOk(f) && old(z.Remaining()) <= FunctionBytes(f, strip) + rest ==>
          Got(FunctionBytes(f, strip), old(z.Remaining()), err, z.Remaining()) && (err == Fine ==> r == Kept(f, strip))
      decreases |z.Remaining()|, 3
    {
      hide *;
      ghost var left0, good := z.Remaining(), ProtoOk(f) && old(z.Remaining()) <= FunctionBytes(f, strip) + rest;
      ghost var a, b, cde := HeadBytes(f), Vector(Chunks(f.code, CodeBytes)), RestBytes(f, strip);
      if good { PartsOk(f); }
      FunctionParts(f, strip);
      Regroup(good, a, b + cde, rest, left0);
      r := LoadHead(f, (b + cde) + rest);
      ghost var left1, err1 := z.Remaining(), err;
      Next(good, a, (b + cde) + rest, left0, err1, left1);
      if err == Fine {
        Regroup(good, b, cde, rest, left1);
        var code := LoadCode(f.code, cde + rest);
        ghost var left2, err2 := z.Remaining(), err;
        Next(good, b, cde + rest, left1, err2, left2);
        if err == Fine { r := LoadRest(r.(code := code), f, strip, good, rest); }
        Both(good, b, cde, left1, err2, left2, err, z.Remaining());
      }
      Both(good, a, b + cde, left0, err1, left1, err, z.Remaining());
    }

    /** What follows the code: constants, nested functions, upvalues, debug information. */
    method LoadRest(h: Proto, ghost f: Proto, ghost strip: bool, ghost good: bool, ghost rest: seq<byte>)
        returns (r: Proto)
      requires z.Valid() && err == Fine
      requires good ==> ProtoOk(f) && z.Remaining() <= RestBytes(f, strip) + rest && h == Headed(f).(code := f.code)
      modifies z, this`err
      ensures z.Valid() && |z.Remaining()| <= |old(z.Remaining())|
      ensures good ==>
          Got(RestBytes(f, strip), old(z.Remaining()), err, z.Remaining()) && (err == Fine ==> r == Kept(f, strip))
      decreases |z.Remaining()|, 2
    {
      hide *;
      r := h;
      ghost var left0, g := z.Remaining(), DebugOf(f, strip);
      ghost var c, d, e := ConstantsBytes(f, strip), Vector(Chunks(f.upvalues, UpvalBytes)), DebugBytesOf(g);
      if good { PartsOk(f); DebugOfOk(f, strip); }
      RestIs(f, strip);
      Regroup(good, c, d + e, rest, left0);
      var k, ps := LoadConstants(f, strip, (d + e) + rest);
      ghost var left1, err1 := z.Remaining(), err;
      Next(good, c, (d + e) + rest, left0, err1, left1);
      if err == Fine {
        Regroup(good, d, e, rest, left1);
        var us := LoadUpvalues(f.upvalues, e + rest);
        ghost var left2, err2 := z.Remaining(), err;
        Next(good, d, e + rest, left1, err2, left2);
        if err == Fine {
          var source, lines, locvars, ups := LoadDebug(us, g, rest);
          r := h.(k := k, p := ps, upvalues := ups, source := source, lineinfo := lines, locvars := locvars);
          if good && err == Fine { KeptIs(f, strip, r); }
        }
        Both(good, d, e, left1, err2, left2, err, z.Remaining());
      }
      Both(good, c, d + e, left0, err1, left1, err, z.Remaining());
    }

    /** LoadHeader: the first byte has been read already. */
    method LoadHeader()
      requires z.Valid() && err == Fine
      modifies z, this`err
      ensures z.Valid()
      ensures if |old(z.Remaining())| < 17 then err == Truncated
          else err == HeaderError([27] + old(z.Remaining())[..17]) && z.Remaining() == old(z.Remaining())[17..]
    {
      ghost var left := z.Remaining();
      var s := LoadBlock(17, [], []);
      if err != Fine { return; }
      assert s == left[..17] && z.Remaining() == left[17..];
      err := HeaderError([27] + s);
    }

    /** luaU_undump, after the first byte has announced a binary chunk. */
    method Undump(ghost f: Proto, ghost strip: bool, ghost rest: seq<byte>) returns (r: Proto)
      requires z.Valid() && err == Fine
      modifies z, this`err
      ensures z.Valid()
      ensures |old(z.Remaining())| < 17 ==> err == Truncated
      ensures |old(z.Remaining())| >= 17 && [27] + old(z.Remaining())[..17] != Header()
          ==> err == HeaderError([27] + old(z.Remaining())[..17]) != Fine
      ensures
          && |old(z.Remaining())| >= 17 && [27] + old(z.Remaining())[..17] == Header() && ProtoOk(f)
          && old(z.Remaining())[17..] <= FunctionBytes(f, strip) + rest ==>
          Got(FunctionBytes(f, strip), old(z.Remaining())[17..], err, z.Remaining())
          && (err == Fine ==> r == Kept(f, strip))
    {
      hide Got, FunctionBytes, ProtoOk, Kept;
      r := EmptyProto();
      LoadHeader();
      if err != Fine { return; }
      r := LoadFunction(f, strip, rest);
    }
  }

  lemma TextParts(t: Text, size0: nat, tail: seq<byte>)
    requires size0 == (if t.Null? then 0 else |t.bytes| + 1) && tail == if t.Null? then [] else t.bytes + [0]
    ensures TextBytes(t) == Little(size0, 8) + tail && |tail| == size0 && |Little(size0, 8)| == 8
    ensures TextOk(t) ==> LittleOf(Little(size0, 8)) == size0
  {
    assert t.Null? ==> Little(0, 8) + [] == Little(0, 8);
    if TextOk(t) {
      Powers();
      LittleBack(size0, 8);
    }
  }

  lemma GotNothing(left: seq<byte>)
    ensures Got([], left, Fine, left)
  {
    assert left == [] + left;
  }

  lemma VectorIs(parts: seq<seq<byte>>)
    ensures Vector(parts) == WordBytes(|parts|) + Flat(parts)
  {
  }

  ghost function Tag(c: Constant): byte { if c.Nil? then 0 else if c.Boolean? then 1 else if c.Number? then 3 else 4 }

  ghost function Payload(c: Constant): seq<byte> {
    match c
    case Nil => []
    case Boolean(v) => if -128 <= v < 128 then [CharByte(v)] else []
    case Number(image) => image
    case Str(text) => TextBytes(text)
  }

  lemma ConstantParts(c: Constant)
    ensures ConstantBytes(c) == [Tag(c)] + Payload(c)
    ensures c.Boolean? && ConstantOk(c) ==> CharOf(CharByte(c.value)) == c.value
  {
  }

  // ---- Vectors

  predicate ValuesOk(ks: seq<Constant>) { |ks| <= MAX_INT && forall i :: 0 <= i < |ks| ==> ConstantOk(ks[i]) }

  predicate LocVarOk(v: LocVar) { TextOk(v.varname) && 0 <= v.startpc <= MAX_INT && 0 <= v.endpc <= MAX_INT }

  predicate LocVarsOk(vs: seq<LocVar>) { |vs| <= MAX_INT && forall i :: 0 <= i < |vs| ==> LocVarOk(vs[i]) }

  predicate NamesOk(us: seq<Upvaldesc>) { |us| <= MAX_INT && forall i :: 0 <= i < |us| ==> TextOk(us[i].name) }

  lemma ValuesAre(ks: seq<Constant>)
    requires ValuesOk(ks)
    ensures |ks| <= MAX_INT && forall i :: 0 <= i < |ks| ==> ConstantOk(ks[i])
  {
  }

  lemma LocVarsAre(vs: seq<LocVar>)
    requires LocVarsOk(vs)
    ensures |vs| <= MAX_INT && forall i :: 0 <= i < |vs| ==> LocVarOk(vs[i])
  {
  }

  lemma NamesAre(us: seq<Upvaldesc>)
    requires NamesOk(us)
    ensures |us| <= MAX_INT && forall i ::
        0 <= i < |us| ==> TextOk(us[i].name) && NameBytes(us[i]) == TextBytes(us[i].name)
  {
  }

  function Nameless(us: seq<Upvaldesc>): (r: seq<Upvaldesc>)
    ensures |r| == |us| && forall i :: 0 <= i < |us| ==> r[i] == us[i].(name := Null)
  {
    seq(|us|, i requires 0 <= i < |us| => us[i].(name := Null))
  }

  /** The first n descriptions of r have the names that us has. */
  function Named(r: seq<Upvaldesc>, us: seq<Upvaldesc>, n: nat): (t: seq<Upvaldesc>)
    ensures |t| == |r| && forall i :: 0 <= i < |r| ==> t[i] == if i < n && i < |us| then r[i].(name := us[i].name)
        else r[i]
  {
    seq(|r|, i requires 0 <= i < |r| => if i < n && i < |us| then r[i].(name := us[i].name) else r[i])
  }

  lemma NamedStart(r: seq<Upvaldesc>, us: seq<Upvaldesc>)
    ensures Named(r, us, 0) == r
  {
  }

  lemma NamedStep(r: seq<Upvaldesc>, us: seq<Upvaldesc>, i: nat)
    requires i < |us| && i < |r|
    ensures Named(r, us, i + 1) == Named(r, us, i)[i := Named(r, us, i)[i].(name := us[i].name)]
  {
  }

  /** What has been read when the first i parts have been. */
  ghost function Done(parts: seq<seq<byte>>, i: nat): seq<byte>
    requires i <= |parts|
  {
    WordBytes(|parts|) + Flat(parts[..i])
  }

  ghost function Tail(parts: seq<seq<byte>>, i: nat, rest: seq<byte>): seq<byte> {
    if i < |parts| then Flat(parts[i + 1..]) + rest else rest
  }

  lemma {:induction false} FlatSplit(parts: seq<seq<byte>>, i: nat)
    requires i <= |parts|
    ensures Flat(parts) == Flat(parts[..i]) + Flat(parts[i..])
  {
    if i > 0 {
      FlatSplit(parts[1..], i - 1);
      assert parts[..i][1..] == parts[1..][..i - 1] && parts[1..][i - 1..] == parts[i..];
    } else {
      assert parts[0..] == parts;
    }
  }

  lemma VectorStart(good: bool, parts: seq<seq<byte>>, left0: seq<byte>, err: Error, left: seq<byte>)
    requires good ==> Got(WordBytes(|parts|), left0, err, left)
    ensures good && err == Fine ==> left0 == Done(parts, 0) + left
    ensures good && err != Fine ==> Got(Vector(parts), left0, err, left)
  {
    assert Done(parts, 0) == WordBytes(|parts|);
  }

  lemma VectorNext(good: bool, parts: seq<seq<byte>>, rest: seq<byte>, left0: seq<byte>, left: seq<byte>, i: nat)
    requires good ==> i < |parts| && left0 <= Vector(parts) + rest && left0 == Done(parts, i) + left
    ensures good ==> left <= parts[i] + Tail(parts, i, rest)
  {
    if good {
      FlatSplit(parts, i);
      Peel(parts, i, rest);
      var d, t := Done(parts, i), Flat(parts[i..]) + rest;
      assert Vector(parts) + rest == d + t;
      assert left0[|d|..] == left && (d + t)[|d|..] == t;
      assert left0[|d|..] <= (d + t)[|d|..];
    }
  }

  lemma VectorStep(good: bool, parts: seq<seq<byte>>, left0: seq<byte>, left: seq<byte>, i: nat, err: Error,
      left1: seq<byte>)
    requires good ==> i < |parts| && left0 == Done(parts, i) + left && Got(parts[i], left, err, left1)
    ensures good && err == Fine ==> left0 == Done(parts, i + 1) + left1
    ensures good && err != Fine ==> Got(Vector(parts), left0, err, left1)
  {
    if good {
      FlatSnoc(parts, i);
      FlatSplit(parts, i + 1);
      Assoc(Done(parts, i), parts[i], left1);
      assert Done(parts, i + 1) == Done(parts, i) + parts[i];
      assert |Vector(parts)| == |Done(parts, i + 1)| + |Flat(parts[i + 1..])|;
    }
  }

  lemma VectorEnd(good: bool, parts: seq<seq<byte>>, left0: seq<byte>, left: seq<byte>)
    requires good ==> left0 == Done(parts, |parts|) + left
    ensures good ==> Got(Vector(parts), left0, Fine, left)
  {
    assert parts[..|parts|] == parts;
  }

  lemma {:induction false} DoneGrows(parts: seq<seq<byte>>, i: nat, j: nat)
    requires i <= j <= |parts|
    ensures |WordBytes(|parts|)| <= |Done(parts, i)| <= |Done(parts, j)|
  {
    FlatSplit(parts[..j], i);
    assert parts[..j][..i] == parts[..i];
  }

  lemma OverStart(over: bool, parts: seq<seq<byte>>, room: nat, left0: seq<byte>, err: Error, left: seq<byte>)
    requires over ==> room < |parts| && Got(WordBytes(|parts|), left0, err, left)
    ensures over && err != Fine ==> Over(Done(parts, room + 1), left0, err)
  {
    if over { DoneGrows(parts, 0, room + 1); }
  }

  lemma OverStep(over: bool, parts: seq<seq<byte>>, room: nat, left0: seq<byte>, left: seq<byte>, i: nat, err: Error,
      left1: seq<byte>)
    requires over ==> i <= room < |parts| && left0 == Done(parts, i) + left && Got(parts[i], left, err, left1)
    ensures over && err != Fine ==> Over(Done(parts, room + 1), left0, err)
    ensures over && err == Fine && i == room ==> Over(Done(parts, room + 1), left0, Overrun)
  {
    if over {
      FlatSnoc(parts, i);
      assert Done(parts, i + 1) == Done(parts, i) + parts[i];
      DoneGrows(parts, i + 1, room + 1);
    }
  }

  // ---- Prototypes

  function EmptyProto(): Proto { Proto(0, 0, 0, 0, 0, [], [], [], [], Null, [], []) }

  /** What a dump keeps of a prototype. */
  function Kept(f: Proto, strip: bool): Proto { if strip then Stripped(f) else f }

  function KeptAll(f: Proto, strip: bool): (r: seq<Proto>)
    ensures |r| == |f.p| && forall i :: 0 <= i < |f.p| ==> r[i] == Kept(f.p[i], strip)
  {
    seq(|f.p|, i requires 0 <= i < |f.p| => Kept(f.p[i], strip))
  }

  function Headed(f: Proto): Proto {
    Proto(f.linedefined, f.lastlinedefined, f.numparams, f.isVararg, f.maxstacksize, [], [], [], [], Null, [], [])
  }

  /** The debug part of a dump. */
  datatype Debug = Debug(source: Text, lines: seq<int>, locvars: seq<LocVar>, names: seq<Upvaldesc>)

  ghost function DebugOf(f: Proto, strip: bool): Debug {
    if strip then Debug(Null, [], [], []) else Debug(f.source, f.lineinfo, f.locvars, f.upvalues)
  }

  ghost function DebugBytesOf(g: Debug): seq<byte> {
    TextBytes(g.source) + (Vector(Chunks(g.lines, WordBytes)) + (Vector(Chunks(g.locvars, LocVarBytes))
        + Vector(Chunks(g.names, NameBytes))))
  }

  /** The same with the first n names only. */
  ghost function DebugUpTo(g: Debug, n: nat): seq<byte>
    requires n <= |g.names|
  {
    TextBytes(g.source) + (Vector(Chunks(g.lines, WordBytes)) + (Vector(Chunks(g.locvars, LocVarBytes))
        + Done(Chunks(g.names, NameBytes), n)))
  }

  lemma DebugUpToIs(g: Debug, n: nat)
    requires n <= |g.names|
    ensures DebugUpTo(g, n) == TextBytes(g.source)
        + (Vector(Chunks(g.lines, WordBytes)) + (Vector(Chunks(g.locvars, LocVarBytes))
        + Done(Chunks(g.names, NameBytes), n)))
  {
  }

  predicate DebugOk(g: Debug) { TextOk(g.source) && LinesOk(g.lines) && LocVarsOk(g.locvars) && NamesOk(g.names) }

  ghost function ConstantsBytes(f: Proto, strip: bool): seq<byte> {
    Vector(Chunks(f.k, ConstantBytes)) + Vector(SubParts(f, strip))
  }

  ghost function RestBytes(f: Proto, strip: bool): seq<byte> {
    ConstantsBytes(f, strip) + (Vector(Chunks(f.upvalues, UpvalBytes)) + DebugBytesOf(DebugOf(f, strip)))
  }

  lemma SubsAre(f: Proto)
    requires ProtoOk(f)
    ensures |f.p| <= MAX_INT && forall i :: 0 <= i < |f.p| ==> ProtoOk(f.p[i])
  {
  }

  lemma PartsOk(f: Proto)
    requires ProtoOk(f)
    ensures CodeOk(f.code) && ValuesOk(f.k) && |f.upvalues| <= MAX_INT
  {
  }

  lemma HeadOk(f: Proto)
    requires ProtoOk(f)
    ensures 0 <= f.linedefined <= MAX_INT && 0 <= f.lastlinedefined <= MAX_INT
  {
  }

  lemma HeadIs(f: Proto)
    ensures HeadBytes(f) == WordBytes(f.linedefined)
        + (WordBytes(f.lastlinedefined) + [f.numparams, f.isVararg, f.maxstacksize])
    ensures EmptyProto().(linedefined := f.linedefined, lastlinedefined := f.lastlinedefined, numparams := f.numparams,
        isVararg := f.isVararg, maxstacksize := f.maxstacksize) == Headed(f)
  {
  }

  lemma ConstantsAre(f: Proto, strip: bool)
    ensures ConstantsBytes(f, strip) == Vector(Chunks(f.k, ConstantBytes)) + Vector(SubParts(f, strip))
  {
  }

  lemma DebugIs(g: Debug)
    ensures DebugBytesOf(g) == TextBytes(g.source)
        + (Vector(Chunks(g.lines, WordBytes)) + (Vector(Chunks(g.locvars, LocVarBytes))
        + Vector(Chunks(g.names, NameBytes))))
    ensures DebugOk(g) ==> TextOk(g.source) && LinesOk(g.lines) && LocVarsOk(g.locvars) && NamesOk(g.names)
  {
  }

  lemma DebugOfOk(f: Proto, strip: bool)
    requires ProtoOk(f)
    ensures DebugOk(DebugOf(f, strip)) && |DebugOf(f, strip).names| <= |f.upvalues|
        && |Nameless(f.upvalues)| == |f.upvalues|
  {
  }

  lemma RestIs(f: Proto, strip: bool)
    ensures RestBytes(f, strip) == ConstantsBytes(f, strip) + (Vector(Chunks(f.upvalues, UpvalBytes))
        + DebugBytesOf(DebugOf(f, strip)))
    ensures |Nameless(f.upvalues)| == |f.upvalues|
  {
  }

  /** A dumped prototype is its head, its code and the rest. */
  lemma FunctionParts(f: Proto, strip: bool)
    ensures FunctionBytes(f, strip) == HeadBytes(f) + (Vector(Chunks(f.code, CodeBytes)) + RestBytes(f, strip))
  {
    if strip {
      var g := DebugOf(f, strip);
      assert Chunks(g.lines, WordBytes) == [] && Chunks(g.locvars, LocVarBytes) == []
          && Chunks(g.names, NameBytes) == [];
    }
  }

  /** All fields have been loaded. */
  lemma KeptIs(f: Proto, strip: bool, r: Proto)
    requires var g := DebugOf(f, strip);
      r == Headed(f).(code := f.code).(k := f.k, p := KeptAll(f, strip),
          upvalues := Named(Nameless(f.upvalues), g.names, |g.names|), source := g.source, lineinfo := g.lines,
          locvars := g.locvars)
    ensures r == Kept(f, strip)
  {
    var t := Kept(f, strip);
    assert r.p == t.p;
    assert r.upvalues == t.upvalues;
  }

  // ---- Whole chunks

  lemma HeaderFirst(all: seq<byte>)
    ensures |all| >= 18 && all[..18] == Header() ==> all[0] == 27
  {
    assert |all| >= 18 ==> all[..18][0] == all[0];
  }

  lemma WholeDump(f: Proto, strip: bool)
    ensures var all := Header() + FunctionBytes(f, strip);
        |all| >= 18 && all[..18] == Header() && all[18..] == FunctionBytes(f, strip)
        && all[18..] <= FunctionBytes(f, strip) + []
  {
  }

  lemma FirstByte(all: seq<byte>, left: seq<byte>)
    requires all != [] && all == [all[0]] + left
    ensures |all| == |left| + 1 && (|left| >= 17 ==> [all[0]] + left[..17] == all[..18] && left[17..] == all[18..])
  {
  }

  /** f_parser, for binary chunks, over a reader with the given pieces. */
  method Load(pieces: seq<seq<byte>>, ghost f: Proto, ghost strip: bool, ghost rest: seq<byte>)
      returns (err: Error, r: Proto)
    ensures Stream(pieces) == [] || Stream(pieces)[0] != 27 ==> err == NotBinary
    ensures Stream(pieces) != [] && Stream(pieces)[0] == 27 && |Stream(pieces)| < 18 ==> err == Truncated
    ensures |Stream(pieces)| >= 18 && Stream(pieces)[0] == 27 && Stream(pieces)[..18] != Header()
        ==> err == HeaderError(Stream(pieces)[..18])
    ensures
        && |Stream(pieces)| >= 18 && Stream(pieces)[..18] == Header() && ProtoOk(f)
        && Stream(pieces)[18..] <= FunctionBytes(f, strip) + rest ==>
        if |FunctionBytes(f, strip)| <= |Stream(pieces)[18..]| then err == Fine && r == Kept(f, strip)
        else err == Truncated
  {
    hide FunctionBytes, ProtoOk, Kept, Stream, HeaderError;
    var z := new Zio(pieces);
    ghost var all := Stream(pieces);
    var c := z.Getc();
    r := EmptyProto();
    HeaderFirst(all);
    if c != 27 { return NotBinary, r; }
    ghost var left := z.Remaining();
    FirstByte(all, left);
    var s := new LoadState(z);
    r := s.Undump(f, strip, rest);
    err := s.err;
  }

  /** A prototype is dumped and loaded again, from whatever pieces the reader cuts the dump into. */
  method RoundTrip(f: Proto, strip: bool, sizes: seq<nat>) returns (r: Proto)
    requires ProtoOk(f)
    ensures r == Kept(f, strip)
  {
    hide *;
    var all := Save(f, strip);
    PiecesJoin(all, sizes);
    WholeDump(f, strip);
    var err;
    err, r := Load(Pieces(all, sizes), f, strip, []);
  }
}
