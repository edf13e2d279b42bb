/** The interest set of one descriptor, after Code/tcp/Channel.cpp. The set is kept in a
    16-bit `short`, although the epoll flags are 32 bits wide. */
module Channels {

  const EPOLLIN: bv16 := 0x0001
  const EPOLLPRI: bv16 := 0x0002
  const EPOLLOUT: bv16 := 0x0004
  const EPOLLRDHUP: bv16 := 0x2000
  const EPOLLET: bv32 := 0x8000_0000

  /** Storing a 32-bit flag word in a `short` keeps its low half. */
  function ToShort(flags: bv32): bv16 {
    (flags & 0xFFFF) as bv16
  }

  /** The 32-bit word an `short` promotes to in the low half; the high half is lost again on storing. */
  function Widen(flags: bv16): bv32 {
    flags as bv32
  }

  /** The edge-trigger flag lies above the 16 bits that are kept: asking for it changes nothing,
      so every channel stays level-triggered. */
  lemma EdgeTriggerIsLost(flags: bv16)
    ensures ToShort(Widen(flags) | EPOLLET) == flags
  {
    assert (Widen(flags) | EPOLLET) & 0xFFFF == Widen(flags);
  }

  predicate Wants(flags: bv16, event: bv16) {
    flags & event != 0
  }

  lemma SplitMask(flags: bv16)
    ensures Wants(flags, EPOLLIN | EPOLLPRI | EPOLLRDHUP)
            <==> Wants(flags, EPOLLIN) || Wants(flags, EPOLLPRI) || Wants(flags, EPOLLRDHUP)
  {
  }

  class Channel {
    var listen_events_: bv16
    var ready_events_: bv16
    /** The set last handed to the poller. */
    var polled_: bv16
    var exist_: bool

    constructor ()
      ensures listen_events_ == 0 && ready_events_ == 0 && polled_ == 0 && !exist_
    {
      listen_events_, ready_events_, polled_, exist_ := 0, 0, 0, false;
    }

    method Update()
      modifies this`polled_, this`exist_
      ensures polled_ == listen_events_ && exist_
    {
      polled_ := listen_events_;
      exist_ := true;
    }

    method EnableRead()
      modifies this
      ensures polled_ == listen_events_ && exist_
      ensures Wants(listen_events_, EPOLLIN)
      ensures listen_events_ & !EPOLLIN == old(listen_events_) & !EPOLLIN
      ensures Wants(listen_events_, EPOLLOUT) == old(Wants(listen_events_, EPOLLOUT))
    {
      listen_events_ := listen_events_ | EPOLLIN;
      Update();
    }

    method EnableWrite()
      modifies this
      ensures polled_ == listen_events_ && exist_
      ensures Wants(listen_events_, EPOLLOUT)
      ensures listen_events_ & !EPOLLOUT == old(listen_events_) & !EPOLLOUT
      ensures Wants(listen_events_, EPOLLIN) == old(Wants(listen_events_, EPOLLIN))
    {
      listen_events_ := listen_events_ | EPOLLOUT;
      Update();
    }

    /** The guard matters: the flag is flipped, not cleared. */
    method DisableWrite()
      modifies this
      ensures !Wants(listen_events_, EPOLLOUT)
      ensures listen_events_ & !EPOLLOUT == old(listen_events_) & !EPOLLOUT
      ensures Wants(listen_events_, EPOLLIN) == old(Wants(listen_events_, EPOLLIN))
      ensures old(polled_ == listen_events_) ==> polled_ == listen_events_
      ensures old(exist_) ==> exist_
    {
      if listen_events_ & EPOLLOUT != 0 {
        listen_events_ := listen_events_ ^ EPOLLOUT;
        Update();
      }
    }

    method DisableAll()
      modifies this
      ensures polled_ == listen_events_ == 0 && exist_
    {
      listen_events_ := 0;
      Update();
    }

    method EnableET()
      modifies this
      ensures listen_events_ == old(listen_events_)
      ensures polled_ == listen_events_ && exist_
    {
      EdgeTriggerIsLost(listen_events_);
      listen_events_ := ToShort(Widen(listen_events_) | EPOLLET);
      Update();
    }

    method SetReadyEvents(events: bv16)
      modifies this`ready_events_
      ensures ready_events_ == events
    {
      ready_events_ := events;
    }

    /** Tells whether the read and the write callback are called: data, urgent data or a half-closed
        peer are for the reader, room in the socket for the writer, and nothing else is looked at. */
    method HandleEventWithGaurd() returns (reading: bool, writing: bool)
      ensures reading <==> Wants(ready_events_, EPOLLIN) || Wants(ready_events_, EPOLLPRI) || Wants(ready_events_, EPOLLRDHUP)
      ensures writing <==> Wants(ready_events_, EPOLLOUT)
    {
      SplitMask(ready_events_);
      reading := ready_events_ & (EPOLLIN | EPOLLPRI | EPOLLRDHUP) != 0;
      writing := ready_events_ & EPOLLOUT != 0;
    }

    method IsWriting() returns (b: bool)
      ensures b == Wants(listen_events_, EPOLLOUT)
    {
      b := listen_events_ & EPOLLOUT != 0;
    }
  }
}
