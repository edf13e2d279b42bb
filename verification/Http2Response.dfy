/** The body of a response as nghttp2 pulls it, piece by piece, from Code/http2/HttpResponse.cpp: out of
    a buffer, or out of a mapped file. */
module Http2Responses {
  import opened Buffers

  /** One call of a data callback: the bytes it copies, whether it reports the end, and what is left. */
  datatype Piece = Piece(bytes: string, eof: bool, rest: string)

  function Pull(rest: string, length: nat): Piece {
    var n := if |rest| < length then |rest| else length;
    Piece(rest[..n], n == |rest|, rest[n..])
  }

  /** data_read_callback. */
  method ReadBuffer(data: Buffer, length: nat) returns (bytes: string, eof: bool)
    requires data.Valid()
    modifies data`read_index_
    ensures data.Valid() && Piece(bytes, eof, data.Contents()) == Pull(old(data.Contents()), length)
    ensures |bytes| == (if |old(data.Contents())| < length then |old(data.Contents())| else length)
    ensures bytes + data.Contents() == old(data.Contents()) && (eof <==> data.Contents() == "")
  {
    var readable := data.ReadableBytes();
    var n := if readable < length then readable else length;
    ghost var before := data.Contents();
    bytes := data.RetrieveAsString(n);
    assert bytes == (bytes + data.Contents())[..n] && data.Contents() == (bytes + data.Contents())[n..];
    readable := data.ReadableBytes();
    eof := readable == 0;
  }

  class MmapRead {
    const addr: array<char>
    var offset: nat

    ghost predicate Valid()
      reads this
    {
      offset <= addr.Length
    }

    ghost function Left(): string
      requires Valid()
      reads this, addr
    {
      addr[offset..]
    }

    constructor (addr: array<char>)
      ensures Valid() && this.addr == addr && Left() == addr[..]
    {
      this.addr, offset := addr, 0;
    }

    /** data_read_callback_file; `buf` has room for `length` bytes. */
    method ReadFile(buf: array<char>, length: nat) returns (n: nat, eof: bool)
      requires Valid() && buf != addr && length <= buf.Length
      modifies this`offset, buf
      ensures Valid() && n <= length && Piece(buf[..n], eof, Left()) == Pull(old(Left()), length)
      ensures n == (if |old(Left())| < length then |old(Left())| else length)
      ensures buf[..n] + Left() == old(Left()) && (eof <==> Left() == "")
      ensures buf[n..] == old(buf[..])[n..]
    {
      n := if addr.Length - offset < length then addr.Length - offset else length;
      for i := 0 to n
        invariant offset == old(offset) && addr[..] == old(addr[..])
        invariant forall k :: 0 <= k < i ==> buf[k] == addr[offset + k]
        invariant forall k :: i <= k < buf.Length ==> buf[k] == old(buf[k])
      {
        buf[i] := addr[offset + i];
      }
      ghost var all := addr[offset..];
      assert buf[..n] == all[..n];
      assert buf[n..] == old(buf[..])[n..];
      offset := offset + n;
      assert Left() == all[n..];
      CutInTwo(all, n);
      eof := offset == addr.Length;
    }
  }

  lemma CutInTwo(s: string, n: nat)
    requires n <= |s|
    ensures s[..n] + s[n..] == s && (n == |s| <==> s[n..] == "")
  {
  }

  /** All pieces for these lengths, up to the one that reports the end. */
  function Pieces(body: string, lengths: seq<nat>): seq<Piece>
    decreases |lengths|
  {
    if lengths == [] then []
    else
      var p := Pull(body, lengths[0]);
      [p] + if p.eof then [] else Pieces(p.rest, lengths[1..])
  }

  function Joined(ps: seq<Piece>): string {
    if ps == [] then "" else ps[0].bytes + Joined(ps[1..])
  }

  function Remainder(body: string, ps: seq<Piece>): string {
    if ps == [] then body else ps[|ps| - 1].rest
  }

  /** A piece takes all the room there is, unless it takes all that is left. */
  ghost predicate Full(p: Piece, length: nat) {
    |p.bytes| == length || (|p.bytes| < length && p.rest == "")
  }

  /** Nothing is lost, repeated or reordered: the pieces so far and what is left make the body, and each is as
      long as it can be. The end is reported with the piece that empties the source and with no other. */
  lemma {:induction false} PiecesMakeBody(body: string, lengths: seq<nat>)
    ensures var ps := Pieces(body, lengths);
            && Joined(ps) + Remainder(body, ps) == body
            && |ps| <= |lengths| && (forall i :: 0 <= i < |ps| ==> Full(ps[i], lengths[i]))
            && forall i :: 0 <= i < |ps| ==> (ps[i].eof <==> ps[i].rest == "") && (ps[i].eof ==> i == |ps| - 1)
    decreases |lengths|
  {
    if lengths != [] {
      var p := Pull(body, lengths[0]);
      assert p.bytes + p.rest == body;
      var ps := Pieces(body, lengths);
      if p.eof {
        assert ps == [p] && [p][1..] == [] && Joined(ps) == p.bytes + "";
      } else {
        var more := Pieces(p.rest, lengths[1..]);
        PiecesMakeBody(p.rest, lengths[1..]);
        assert ps == [p] + more && ps[1..] == more;
        assert Remainder(body, ps) == Remainder(p.rest, more);
        assert p.bytes + (Joined(more) + Remainder(p.rest, more)) == p.bytes + Joined(more) + Remainder(p.rest, more);
        forall i | 0 <= i < |ps|
          ensures Full(ps[i], lengths[i]) && (ps[i].eof <==> ps[i].rest == "") && (ps[i].eof ==> i == |ps| - 1)
        {
          if i > 0 {
            assert ps[i] == more[i - 1];
          }
        }
      }
    }
  }

  /** With room for at least one byte in each call the whole body goes out. */
  lemma {:induction false} WholeBodyGoesOut(body: string, lengths: seq<nat>)
    requires forall i :: 0 <= i < |lengths| ==> lengths[i] > 0
    requires |lengths| > 0 && |lengths| >= |body|
    ensures var ps := Pieces(body, lengths);
            ps != [] && ps[|ps| - 1].eof && Joined(ps) == body
    decreases |lengths|
  {
    PiecesMakeBody(body, lengths);
    var p := Pull(body, lengths[0]);
    var ps := Pieces(body, lengths);
    if !p.eof {
      assert |p.rest| < |body|;
      WholeBodyGoesOut(p.rest, lengths[1..]);
      var more := Pieces(p.rest, lengths[1..]);
      assert ps[|ps| - 1] == more[|more| - 1];
    }
    assert Joined(ps) + "" == Joined(ps);
  }
}
