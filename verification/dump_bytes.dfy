/** Precompiled chunks (ldump.c, lundump.c): function prototypes and their bytes. */
module DumpBytes {

  type byte = b: int | 0 <= b < 256

  const MAX_INT := 0x7fff_ffff
  const MAX_SIZE := 0x1_0000_0000_0000_0000

  /** A string, which may be absent. */
  datatype Text = Null | Text(bytes: seq<byte>)

  datatype Constant = Nil | Boolean(value: int) | Number(image: seq<byte>) | Str(text: Text)

  datatype Upvaldesc = Upvaldesc(name: Text, instack: byte, idx: byte)

  datatype LocVar = LocVar(varname: Text, startpc: int, endpc: int)

  datatype Proto = Proto(
    linedefined: int, lastlinedefined: int, numparams: byte, isVararg: byte, maxstacksize: byte,
    code: seq<int>, k: seq<Constant>, p: seq<Proto>, upvalues: seq<Upvaldesc>,
    source: Text, lineinfo: seq<int>, locvars: seq<LocVar>)

  // ---- Numbers in memory: little-endian

  function Power(n: nat): (p: nat)
    ensures p > 0
  {
    if n == 0 then 1 else 256 * Power(n - 1)
  }

  function Little(x: nat, n: nat): (b: seq<byte>)
    ensures |b| == n
  {
    if n == 0 then [] else [x % 256] + Little(x / 256, n - 1)
  }

  function LittleOf(b: seq<byte>): nat { if b == [] then 0 else b[0] + 256 * LittleOf(b[1..]) }

  lemma {:induction false} LittleBack(x: nat, n: nat)
    requires x < Power(n)
    ensures LittleOf(Little(x, n)) == x
  {
    if n > 0 {
      assert x / 256 < Power(n - 1);
      LittleBack(x / 256, n - 1);
      assert Little(x, n)[1..] == Little(x / 256, n - 1);
    }
  }

  lemma {:induction false} LittleBound(b: seq<byte>)
    ensures LittleOf(b) < Power(|b|)
  {
    if b != [] { LittleBound(b[1..]); }
  }

  lemma Powers()
    ensures Power(4) == 0x1_0000_0000 && Power(8) == MAX_SIZE
  {
    assert Power(1) == 256 && Power(2) == 0x1_0000 && Power(3) == 0x100_0000;
    assert Power(5) == 0x100_0000_0000 && Power(6) == 0x1_0000_0000_0000 && Power(7) == 0x100_0000_0000_0000;
  }

  predicate IsInt(x: int) { -MAX_INT - 1 <= x <= MAX_INT }

  /** An int, in two's complement. */
  function IntBytes(x: int): seq<byte>
    requires IsInt(x)
  {
    Little(if x < 0 then x + 0x1_0000_0000 else x, 4)
  }

  function IntOf(b: seq<byte>): int { if LittleOf(b) <= MAX_INT then LittleOf(b) else LittleOf(b) - 0x1_0000_0000 }

  lemma IntBack(x: int)
    requires IsInt(x)
    ensures IntOf(IntBytes(x)) == x
  {
    Powers();
    LittleBack(if x < 0 then x + 0x1_0000_0000 else x, 4);
  }

  lemma IntRange(b: seq<byte>)
    requires |b| == 4
    ensures IsInt(IntOf(b))
  {
    Powers();
    LittleBound(b);
  }

  function CharOf(b: byte): int { if b < 128 then b else b - 256 }

  function CharByte(c: int): byte
    requires -128 <= c < 128
  {
    if c < 0 then c + 256 else c
  }

  /** luaU_header, for 32-bit int, 64-bit size_t, 32-bit instructions and 64-bit numbers, little-endian. */
  function Header(): (h: seq<byte>)
    ensures |h| == 18
  {
    [27, 76, 117, 97, 0x52, 0, 1, 4, 8, 4, 8, 0, 0x19, 0x93, 13, 10, 26, 10]
  }

  /**
   * The header from its parts: the signature, the version 5.2 and the format, the byte order, the sizes of what is
   * written for ints, lengths, instructions and numbers, that numbers are not integers, and the tail.
   */
  lemma HeaderParts(size: nat, instruction: nat, image: seq<byte>)
    requires |image| == 8
    ensures Header()[..4] == [0x1b, 'L' as int, 'u' as int, 'a' as int] && Header()[4] == 16 * 5 + 2 && Header()[5] == 0
    ensures Header()[6] == IntBytes(1)[0] && Header()[7] == |IntBytes(1)| && Header()[8] == |TextBytes(Null)|
    ensures Header()[9] == |CodeBytes(instruction)| && Header()[10] + 1 == |ConstantBytes(Number(image))|
    ensures Header()[11] == 0 && Header()[12..] == [0x19, 0x93, '\r' as int, '\n' as int, 0x1a, '\n' as int]
  {
  }

  /** Digit i to the base 256, the least first. */
  lemma {:induction false} LittleDigit(x: nat, n: nat, i: nat)
    requires i < n
    ensures Little(x, n)[i] == (x / Power(i)) % 256
  {
    if i > 0 {
      LittleDigit(x / 256, n - 1, i - 1);
      DivideTwice(x, Power(i - 1));
    }
  }

  lemma DivideTwice(x: nat, p: nat)
    requires p > 0
    ensures x / 256 / p == x / (256 * p)
  {
    var q, r := x / 256 / p, x / 256 % p;
    var y := x - 256 * (x / 256);
    assert x == (256 * p) * q + (256 * r + y) && 0 <= 256 * r + y < 256 * p;
    Quotient(x, 256 * p, q, 256 * r + y);
  }

  lemma Quotient(x: nat, d: nat, q: nat, r: nat)
    requires x == d * q + r && r < d
    ensures x / d == q
  {
    var e := x / d;
    assert x == d * e + x % d;
    assert e + 1 <= q ==> d * (e + 1) <= d * q;
    assert q + 1 <= e ==> d * (q + 1) <= d * e;
  }

  // ---- Concatenation

  function Flat(parts: seq<seq<byte>>): seq<byte> { if parts == [] then [] else parts[0] + Flat(parts[1..]) }

  /** The first part not read yet. */
  lemma Peel(parts: seq<seq<byte>>, i: nat, rest: seq<byte>)
    requires i < |parts|
    ensures Flat(parts[i..]) + rest == parts[i] + (Flat(parts[i + 1..]) + rest)
  {
    assert parts[i..][1..] == parts[i + 1..];
  }

  lemma {:induction false} FlatSnoc(parts: seq<seq<byte>>, i: nat)
    requires i < |parts|
    ensures Flat(parts[..i + 1]) == Flat(parts[..i]) + parts[i]
  {
    if i > 0 {
      FlatSnoc(parts[1..], i - 1);
      assert parts[..i + 1][1..] == parts[1..][..i] && parts[..i][1..] == parts[1..][..i - 1];
    } else {
      assert parts[..1][1..] == [];
    }
  }

  // ---- The bytes of a prototype

  function Chunks<T>(xs: seq<T>, f: T -> seq<byte>): (r: seq<seq<byte>>)
    ensures |r| == |xs| && forall i :: 0 <= i < |xs| ==> r[i] == f(xs[i])
  {
    seq(|xs|, i requires 0 <= i < |xs| => f(xs[i]))
  }

  function TextBytes(t: Text): seq<byte> {
    if t.Null? then Little(0, 8) else Little(|t.bytes| + 1, 8) + (t.bytes + [0])
  }

  function WordBytes(x: int): seq<byte> { if IsInt(x) then IntBytes(x) else [] }

  function CodeBytes(x: int): seq<byte> { if 0 <= x then Little(x, 4) else [] }

  function ConstantBytes(c: Constant): seq<byte> {
    match c
    case Nil => [0]
    case Boolean(v) => [1] + if -128 <= v < 128 then [CharByte(v)] else []
    case Number(image) => [3] + image
    case Str(text) => [4] + TextBytes(text)
  }

  function LocVarBytes(v: LocVar): seq<byte> { TextBytes(v.varname) + (WordBytes(v.startpc) + WordBytes(v.endpc)) }

  function Vector(parts: seq<seq<byte>>): seq<byte> { WordBytes(|parts|) + Flat(parts) }

  function NameBytes(u: Upvaldesc): seq<byte> { TextBytes(u.name) }

  function UpvalBytes(u: Upvaldesc): seq<byte> { [u.instack, u.idx] }

  function DebugBytes(f: Proto): seq<byte> {
    TextBytes(f.source) + (Vector(Chunks(f.lineinfo, WordBytes)) + (Vector(Chunks(f.locvars, LocVarBytes))
        + Vector(Chunks(f.upvalues, NameBytes))))
  }

  /** What is left of a prototype when the debug information is not dumped. */
  function Stripped(f: Proto): Proto
    decreases f
  {
    f.(p := seq(|f.p|, i requires 0 <= i < |f.p| => Stripped(f.p[i])), source := Null, lineinfo := [], locvars := [],
       upvalues := seq(|f.upvalues|, i requires 0 <= i < |f.upvalues| => f.upvalues[i].(name := Null)))
  }

  /** The debug part of a stripped dump says that there is nothing. */
  function NoDebugBytes(): seq<byte> { TextBytes(Null) + (Vector([]) + (Vector([]) + Vector([]))) }

  function HeadBytes(f: Proto): seq<byte> {
    WordBytes(f.linedefined) + (WordBytes(f.lastlinedefined) + [f.numparams, f.isVararg, f.maxstacksize])
  }

  function SubParts(f: Proto, strip: bool): (r: seq<seq<byte>>)
    ensures |r| == |f.p| && forall i :: 0 <= i < |f.p| ==> r[i] == FunctionBytes(f.p[i], strip)
    decreases f, 0
  {
    seq(|f.p|, i requires 0 <= i < |f.p| => FunctionBytes(f.p[i], strip))
  }

  function FunctionBytes(f: Proto, strip: bool): seq<byte>
    decreases f, 1
  {
    HeadBytes(f) + (Vector(Chunks(f.code, CodeBytes))
        + ((Vector(Chunks(f.k, ConstantBytes)) + Vector(SubParts(f, strip))) +
    (Vector(Chunks(f.upvalues, UpvalBytes)) + if strip then NoDebugBytes() else DebugBytes(f))))
  }

  /** What comes first in the dump of a prototype, and how constants begin. */
  lemma Layout(f: Proto, strip: bool, c: Constant)
    requires IsInt(f.linedefined) && IsInt(f.lastlinedefined)
    ensures var b := FunctionBytes(f, strip);
      && |b| >= 11 && b[..4] == IntBytes(f.linedefined) && b[4..8] == IntBytes(f.lastlinedefined)
      && b[8] == f.numparams && b[9] == f.isVararg && b[10] == f.maxstacksize
    ensures ConstantBytes(c)[0] == match c case Nil => 0 case Boolean(_) => 1 case Number(_) => 3 case Str(_) => 4
  {
    hide Chunks, Vector, SubParts, NoDebugBytes, DebugBytes;
    var a, b, rest := IntBytes(f.linedefined), IntBytes(f.lastlinedefined), [f.numparams, f.isVararg, f.maxstacksize];
    assert HeadBytes(f) == a + (b + rest) && |a| == |b| == 4;
    hide IntBytes, HeadBytes;
  }

  // ---- Which prototypes there are

  predicate TextOk(t: Text) { t.Text? ==> |t.bytes| + 1 < MAX_SIZE }

  predicate ConstantOk(c: Constant) {
    match c
    case Nil => true
    case Boolean(v) => -128 <= v < 128
    case Number(image) => |image| == 8
    case Str(text) => TextOk(text)
  }

  /** Counts, lines and positions are ints that are not negative. */
  predicate ProtoOk(f: Proto)
    decreases f
  {
    && 0 <= f.linedefined <= MAX_INT && 0 <= f.lastlinedefined <= MAX_INT
    && |f.code| <= MAX_INT && |f.k| <= MAX_INT && |f.p| <= MAX_INT && |f.upvalues| <= MAX_INT && |f.lineinfo| <= MAX_INT
      && |f.locvars| <= MAX_INT
    && (forall i :: 0 <= i < |f.code| ==> 0 <= f.code[i] < 0x1_0000_0000)
    && (forall i :: 0 <= i < |f.k| ==> ConstantOk(f.k[i]))
    && (forall i :: 0 <= i < |f.p| ==> ProtoOk(f.p[i]))
    && (forall i :: 0 <= i < |f.upvalues| ==> TextOk(f.upvalues[i].name))
    && TextOk(f.source) && (forall i :: 0 <= i < |f.lineinfo| ==> IsInt(f.lineinfo[i]))
    && (forall i :: 0 <= i < |f.locvars| ==>
        TextOk(f.locvars[i].varname) && 0 <= f.locvars[i].startpc <= MAX_INT && 0 <= f.locvars[i].endpc <= MAX_INT)
  }
}
