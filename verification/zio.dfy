/** Buffered streams (lzio.c) over a reader that delivers its input in pieces. */
module ZioStream {
  import opened DumpBytes

  const EOZ := -1

  /** What a reader delivers: its pieces, up to the first empty one. */
  ghost function Stream(pieces: seq<seq<byte>>): seq<byte> {
    if pieces == [] || pieces[0] == [] then [] else pieces[0] + Stream(pieces[1..])
  }

  class Zio {
    var n: nat
    var p: nat
    var buff: seq<byte>
    var pieces: seq<seq<byte>>

    ghost predicate Valid()
      reads this
    {
      p + n == |buff|
    }

    /** All bytes still to come: the rest of the buffer, then the pieces not asked for yet. */
    ghost function Remaining(): seq<byte>
      requires Valid()
      reads this
    {
      buff[p..] + Stream(pieces)
    }

    constructor (pieces: seq<seq<byte>>)
      ensures Valid() && Remaining() == Stream(pieces)
    {
      n, p, buff, this.pieces := 0, 0, [], pieces;
    }

    /** luaZ_fill: the next piece replaces the buffer, less its first byte, which is returned. */
    method Fill() returns (c: int)
      requires Valid() && n == 0
      modifies this
      ensures c == EOZ ==> old(Remaining()) == [] && Valid() && n == 0 && Remaining() == []
      ensures c != EOZ ==> p == 1 && p + n == |buff| && c == buff[0] && buff + Stream(pieces) == old(Remaining())
    {
      assert buff[p..] == [];
      if pieces == [] || pieces[0] == [] { return EOZ; }
      buff, pieces := pieces[0], pieces[1..];
      n := |buff| - 1;
      p := 1;
      c := buff[0];
    }

    /** zgetc */
    method Getc() returns (c: int)
      requires Valid()
      modifies this
      ensures Valid()
      ensures if old(Remaining()) == [] then c == EOZ && Remaining() == []
              else c == old(Remaining())[0] && old(Remaining()) == [old(Remaining())[0]] + Remaining()
    {
      if n > 0 {
        n := n - 1;
        c := buff[p];
        assert buff[p..] == [buff[p]] + buff[p + 1..];
        p := p + 1;
      } else {
        c := Fill();
        assert c != EOZ ==> buff == [buff[0]] + buff[1..];
      }
    }

    /** luaZ_read: some of the bytes asked for, and how many are missing. */
    method Read(size: nat) returns (missing: nat, b: seq<byte>)
      requires Valid()
      modifies this
      ensures Valid() && |b| + missing == size && old(Remaining()) == b + Remaining()
      ensures missing > 0 ==> Remaining() == []
    {
      hide *;
      var todo: nat := size;
      b := [];
      while todo > 0
        invariant Valid() && |b| + todo == size && old(Remaining()) == b + Remaining()
      {
        ghost var left := Remaining();
        Refill();
        if n == 0 { return todo, b; }
        var part := Take(if todo <= n then todo else n);
        Assoc(b, part, Remaining());
        assert b + left == (b + part) + Remaining();
        b := b + part;
        todo := todo - |part|;
      }
      missing := 0;
    }

    /** The first m bytes of the buffer. */
    method Take(m: nat) returns (part: seq<byte>)
      requires Valid() && m <= n
      modifies this`n, this`p
      ensures Valid() && |part| == m && old(Remaining()) == part + Remaining()
    {
      Advance(buff, p, m, Stream(pieces));
      part := buff[p..p + m];
      n := n - m;
      p := p + m;
    }

    /** The buffer is filled when it is empty: the byte that Fill takes is put back. */
    method Refill()
      requires Valid()
      modifies this
      ensures Valid() && Remaining() == old(Remaining()) && (n == 0 ==> Remaining() == [])
    {
      if n == 0 {
        var c := Fill();
        if c != EOZ {
          n := n + 1;
          p := p - 1;
          assert buff[p..] == buff;
        }
      }
    }
  }

  lemma Advance(buff: seq<byte>, p: nat, m: nat, s: seq<byte>)
    requires p + m <= |buff|
    ensures buff[p..p + m] + (buff[p + m..] + s) == buff[p..] + s
  {
    assert buff[p..] == buff[p..p + m] + buff[p + m..];
  }

  lemma Assoc(a: seq<byte>, b: seq<byte>, c: seq<byte>)
    ensures (a + b) + c == a + (b + c)
  {
  }

  /** A byte sequence, cut into non-empty pieces of the given sizes; what is left over is one more piece. */
  function Pieces(b: seq<byte>, sizes: seq<nat>): seq<seq<byte>> {
    if b == [] then [] else if sizes == [] then [b] else
      var k := if sizes[0] == 0 then 1 else if sizes[0] < |b| then sizes[0] else |b|;
      [b[..k]] + Pieces(b[k..], sizes[1..])
  }

  /** However it is cut, the stream is the same. */
  lemma {:induction false} PiecesJoin(b: seq<byte>, sizes: seq<nat>)
    ensures Stream(Pieces(b, sizes)) == b
  {
    if b == [] {
    } else if sizes == [] {
      assert [b][1..] == [];
    } else {
      var k := if sizes[0] == 0 then 1 else if sizes[0] < |b| then sizes[0] else |b|;
      PiecesJoin(b[k..], sizes[1..]);
      assert Pieces(b, sizes)[1..] == Pieces(b[k..], sizes[1..]);
      assert b == b[..k] + b[k..];
    }
  }
}
