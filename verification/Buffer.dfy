/** The growable byte queue of Code/tcp/Buffer.cpp: a vector with two cursors, read and
    write, and a spare area of PREPEND_INDEX bytes in front. */
module Buffers {

  const INITIAL_SIZE: nat := 1024
  const PREPEND_INDEX: nat := 8

  /** The cursors of a buffer, without its bytes: all that decides when it moves or grows. */
  datatype Shape = Shape(size: nat, read: nat, write: nat) {
    ghost predicate Ok() {
      PREPEND_INDEX <= read <= write <= size
    }

    function Readable(): nat
      requires Ok()
    {
      write - read
    }

    function Writable(): nat
      requires Ok()
    {
      size - write
    }
  }

  const FRESH := Shape(INITIAL_SIZE, PREPEND_INDEX, PREPEND_INDEX)

  /** Room for `len` more bytes: as it is, after moving the content to the front, or by growing. */
  function Reserve(s: Shape, len: nat): Shape
    requires s.Ok()
  {
    if s.Writable() >= len then s
    else if s.Writable() + s.read >= PREPEND_INDEX + len then
      Shape(s.size, PREPEND_INDEX, PREPEND_INDEX + s.Readable())
    else
      Shape(s.write + len, s.read, s.write)
  }

  datatype Op = Append(len: nat) | Retrieve(len: nat) | RetrieveAll

  ghost predicate Enabled(s: Shape, op: Op) {
    s.Ok() && (op.Retrieve? ==> op.len <= s.Readable())
  }

  ghost function Apply(s: Shape, op: Op): Shape
    requires Enabled(s, op)
  {
    match op
    case Append(len) => var t := Reserve(s, len); t.(write := t.write + len)
    case Retrieve(len) => s.(read := s.read + len)
    case RetrieveAll => s.(read := PREPEND_INDEX, write := PREPEND_INDEX)
  }

  /** Every operation of the run is allowed where it happens. */
  ghost predicate Legal(s: Shape, ops: seq<Op>)
    decreases |ops|
  {
    s.Ok() && (ops != [] ==> Enabled(s, ops[0]) && Legal(Apply(s, ops[0]), ops[1..]))
  }

  ghost function Run(s: Shape, ops: seq<Op>): Shape
    requires Legal(s, ops)
    decreases |ops|
  {
    if ops == [] then s else Run(Apply(s, ops[0]), ops[1..])
  }

  ghost function Max(a: int, b: int): int {
    if a < b then b else a
  }

  /** The largest readable length the run goes through. */
  ghost function Peak(s: Shape, ops: seq<Op>): nat
    requires Legal(s, ops)
    decreases |ops|
  {
    if ops == [] then s.Readable() else Max(s.Readable(), Peak(Apply(s, ops[0]), ops[1..]))
  }

  /** A step keeps the cursors in order, and grows the vector only up to twice the new content. */
  lemma StepBound(s: Shape, op: Op)
    requires Enabled(s, op)
    ensures Apply(s, op).Ok()
    ensures Apply(s, op).size <= Max(s.size, 2 * Apply(s, op).Readable() + 7)
    ensures s.size <= Apply(s, op).size
  {
  }

  /** However long the run, the vector never outgrows twice the peak content. */
  lemma {:induction false} CapacityFrom(s: Shape, ops: seq<Op>)
    requires Legal(s, ops)
    ensures Run(s, ops).Ok()
    ensures Run(s, ops).size <= Max(s.size, 2 * Peak(s, ops) + 7)
    decreases |ops|
  {
    if ops != [] {
      StepBound(s, ops[0]);
      CapacityFrom(Apply(s, ops[0]), ops[1..]);
      var t := Apply(s, ops[0]);
      assert t.Readable() <= Peak(t, ops[1..]) by {
        if |ops| > 1 {
          assert Peak(t, ops[1..]) == Max(t.Readable(), Peak(Apply(t, ops[1..][0]), ops[1..][1..]));
        }
      }
    }
  }

  lemma CapacityBound(ops: seq<Op>)
    requires Legal(FRESH, ops)
    ensures Run(FRESH, ops).Ok()
    ensures Run(FRESH, ops).size <= Max(INITIAL_SIZE, 2 * Peak(FRESH, ops) + 7)
  {
    CapacityFrom(FRESH, ops);
  }

  /** Two neighbouring stretches make one. */
  lemma JoinStretches(bytes: seq<char>, from: nat, mid: nat, to: nat)
    requires from <= mid <= to <= |bytes|
    ensures bytes[from..to] == bytes[from..mid] + bytes[mid..to]
  {
  }

  class Buffer {
    var buffer_: array<char>
    var read_index_: nat
    var write_index_: nat

    ghost function Layout(): Shape
      reads this
    {
      Shape(buffer_.Length, read_index_, write_index_)
    }

    ghost predicate Valid()
      reads this
    {
      Layout().Ok()
    }

    /** The queued bytes, oldest first. */
    ghost function Contents(): seq<char>
      requires Valid()
      reads this, buffer_
    {
      buffer_[read_index_..write_index_]
    }

    constructor ()
      ensures Valid() && fresh(buffer_)
      ensures Layout() == FRESH == Shape(1024, 8, 8) && Contents() == []
    {
      buffer_ := new char[INITIAL_SIZE](_ => '\0');
      read_index_ := PREPEND_INDEX;
      write_index_ := PREPEND_INDEX;
    }

    method ReadableBytes() returns (n: nat)
      requires Valid()
      ensures n == |Contents()| == Layout().Readable()
    {
      n := write_index_ - read_index_;
    }

    method PeekAsString(len: nat) returns (s: string)
      requires Valid() && len <= |Contents()|
      ensures s == Contents()[..len]
    {
      s := buffer_[read_index_..read_index_ + len];
    }

    method Retrieve(len: nat)
      requires Valid() && len <= |Contents()|
      modifies this`read_index_
      ensures Valid() && Layout() == Apply(old(Layout()), Op.Retrieve(len))
      ensures Contents() == old(Contents())[len..]
    {
      read_index_ := read_index_ + len;
    }

    method RetrieveAsString(len: nat) returns (s: string)
      requires Valid() && len <= |Contents()|
      modifies this`read_index_
      ensures Valid() && Layout() == Apply(old(Layout()), Op.Retrieve(len))
      ensures s + Contents() == old(Contents()) && |s| == len
    {
      s := PeekAsString(len);
      Retrieve(len);
    }

    method RetrieveAll()
      requires Valid()
      modifies this`read_index_, this`write_index_
      ensures Valid() && Layout() == Apply(old(Layout()), Op.RetrieveAll)
      ensures Contents() == []
    {
      write_index_ := PREPEND_INDEX;
      read_index_ := write_index_;
    }

    method RetrieveAllAsString() returns (s: string)
      requires Valid()
      modifies this`read_index_, this`write_index_
      ensures Valid() && Layout() == Apply(old(Layout()), Op.RetrieveAll)
      ensures s == old(Contents()) && Contents() == []
    {
      s := buffer_[read_index_..write_index_];
      RetrieveAll();
    }

    method EnsureWritableBytes(len: nat)
      requires Valid()
      modifies this, buffer_
      ensures Valid() && Layout() == Reserve(old(Layout()), len)
      ensures buffer_ == old(buffer_) || fresh(buffer_)
      ensures Contents() == old(Contents()) && Layout().Writable() >= len
    {
      if buffer_.Length - write_index_ >= len {
        return;
      }
      if buffer_.Length - write_index_ + read_index_ >= PREPEND_INDEX + len {
        MoveToFront();
      } else {
        var grown := new char[write_index_ + len](i requires 0 <= i reads this, buffer_ =>
                                                     if i < buffer_.Length then buffer_[i] else '\0');
        buffer_ := grown;
      }
    }

    /** The overlapping copy, byte by byte from the lowest address. */
    method MoveToFront()
      requires Valid()
      modifies this, buffer_
      ensures buffer_ == old(buffer_) && Valid()
      ensures Layout() == Shape(buffer_.Length, PREPEND_INDEX, PREPEND_INDEX + old(|Contents()|))
      ensures Contents() == old(Contents())
    {
      var n := write_index_ - read_index_;
      for i := 0 to n
        invariant buffer_ == old(buffer_) && read_index_ == old(read_index_) && write_index_ == old(write_index_)
        invariant buffer_[PREPEND_INDEX..PREPEND_INDEX + i] == old(Contents())[..i]
        invariant buffer_[read_index_ + i..write_index_] == old(Contents())[i..]
      {
        assert buffer_[read_index_ + i] == buffer_[read_index_ + i..write_index_][0];
        buffer_[PREPEND_INDEX + i] := buffer_[read_index_ + i];
      }
      write_index_ := PREPEND_INDEX + n;
      read_index_ := PREPEND_INDEX;
    }

    /** Copies the bytes behind the content, where room was made for them. */
    method CopyIn(msg: string)
      requires Valid() && Layout().Writable() >= |msg|
      modifies buffer_
      ensures Contents() == old(Contents())
      ensures buffer_[write_index_..write_index_ + |msg|] == msg
    {
      for i := 0 to |msg|
        invariant forall k :: 0 <= k < write_index_ ==> buffer_[k] == old(buffer_[k])
        invariant forall k :: write_index_ <= k < write_index_ + i ==> buffer_[k] == msg[k - write_index_]
      {
        buffer_[write_index_ + i] := msg[i];
      }
    }

    method Append(msg: string)
      requires Valid()
      modifies this, buffer_
      ensures Valid() && Layout() == Apply(old(Layout()), Op.Append(|msg|))
      ensures buffer_ == old(buffer_) || fresh(buffer_)
      ensures Contents() == old(Contents()) + msg
    {
      hide Reserve;
      EnsureWritableBytes(|msg|);
      CopyIn(msg);
      ghost var bytes, from, mid := buffer_[..], read_index_, write_index_;
      JoinStretches(bytes, from, mid, mid + |msg|);
      write_index_ := write_index_ + |msg|;
      assert Contents() == bytes[from..mid + |msg|];
    }
  }
}
