/** The timer queue of one event loop, after Code/timer/TimerQueue.cpp and Code/timer/Timer.cpp:
    an ordered set of (time, pointer) pairs, batch expiry, timers made and freed by hand, and a
    one-shot timerfd. Times are microseconds. */
module TimerQueues {

  type Address = nat

  const SECOND: int := 1_000_000       // kSecond2MicroSecond
  const SHORTEST: int := 100

  datatype Timer = Timer(expiration: int, callback: nat, interval: real, repeat: bool)

  /** A pair of the ordered set. */
  datatype Entry = Entry(time: int, ptr: Address)

  /** A conversion to int64_t drops the fraction, towards zero. */
  function Truncate(x: real): int {
    if x >= 0.0 then x.Floor else -((-x).Floor)
  }

  /** TimeStamp::AddTime. */
  function AddTime(time: int, seconds: real): int {
    time + Truncate(seconds * (SECOND as real))
  }

  // ---- the ordered set

  predicate Less(e: Entry, f: Entry) {
    e.time < f.time || (e.time == f.time && e.ptr < f.ptr)
  }

  ghost predicate Sorted(es: seq<Entry>) {
    forall i, j :: 0 <= i < j < |es| ==> es[i].time < es[j].time || (es[i].time == es[j].time && es[i].ptr < es[j].ptr)
  }

  /** std::set::insert. */
  function Inserted(es: seq<Entry>, e: Entry): seq<Entry> {
    if es == [] || Less(e, es[0]) then [e] + es
    else if e == es[0] then es
    else [es[0]] + Inserted(es[1..], e)
  }

  lemma {:induction false} InsertedIsSorted(es: seq<Entry>, e: Entry)
    requires Sorted(es)
    ensures Sorted(Inserted(es, e))
    ensures forall f :: f in Inserted(es, e) <==> f in es || f == e
    ensures Inserted(es, e)[0] == if es == [] || Less(e, es[0]) then e else es[0]
  {
    if es != [] && !Less(e, es[0]) && e != es[0] {
      InsertedIsSorted(es[1..], e);
      var rest := Inserted(es[1..], e);
      assert forall f :: f in es <==> f == es[0] || f in es[1..];
      forall k | 0 <= k < |rest| ensures Less(es[0], rest[k]) {
        assert rest[k] in rest;
      }
    }
  }

  /** std::set::lower_bound of (now, the highest address): how many entries come before it. */
  function LowerBound(es: seq<Entry>, now: int): (n: nat)
    ensures n <= |es|
  {
    if es == [] || es[0].time > now then 0 else 1 + LowerBound(es[1..], now)
  }

  /** The bound cuts off exactly the entries that are due. */
  lemma {:induction false} LowerBoundCutsDue(es: seq<Entry>, now: int)
    requires Sorted(es)
    ensures forall i :: 0 <= i < |es| ==> (i < LowerBound(es, now) <==> es[i].time <= now)
  {
    if es != [] && es[0].time <= now {
      LowerBoundCutsDue(es[1..], now);
      forall i | 0 <= i < |es| ensures i < LowerBound(es, now) <==> es[i].time <= now {
        if i > 0 {
          assert es[i] == es[1..][i - 1];
        }
      }
    } else if es != [] {
      forall i | 0 <= i < |es| ensures es[i].time > now {
        assert i > 0 ==> Less(es[0], es[i]);
      }
    }
  }

  // ---- who owns which timer

  ghost function Ptrs(es: seq<Entry>): set<Address> {
    set e | e in es :: e.ptr
  }

  ghost predicate NoTwice(es: seq<Entry>) {
    forall i, j :: 0 <= i < j < |es| ==> es[i].ptr != es[j].ptr
  }

  /** Every timer that is allocated and not freed is in the set, under its own expiration, or it
      is one of the batch being worked on, and never both. */
  ghost predicate Owned(heap: map<Address, Timer>, timers: seq<Entry>, busy: seq<Entry>) {
    && Sorted(timers)
    && (forall e :: e in timers ==> e.ptr in heap && heap[e.ptr].expiration == e.time)
    && NoTwice(busy)
    && Ptrs(timers) !! Ptrs(busy)
    && heap.Keys == Ptrs(timers) + Ptrs(busy)
    && forall a :: a in heap ==> Proper(heap[a])
  }

  /** The constructor makes exactly the timers with an interval repeat. */
  ghost predicate Proper(timer: Timer) {
    timer.repeat <==> timer.interval > 0.0
  }

  lemma OwnedOnce(heap: map<Address, Timer>, timers: seq<Entry>, busy: seq<Entry>)
    requires Owned(heap, timers, busy)
    ensures NoTwice(timers)
  {
    forall i, j | 0 <= i < j < |timers| ensures timers[i].ptr != timers[j].ptr {
      assert Less(timers[i], timers[j]) && timers[i] in timers && timers[j] in timers;
    }
  }

  /** Between calls each timer is in the set exactly once, under a key equal to its expiration. */
  lemma EachTimerOnce(heap: map<Address, Timer>, timers: seq<Entry>, a: Address)
    requires Owned(heap, timers, []) && a in heap
    ensures exists i :: 0 <= i < |timers| && timers[i] == Entry(heap[a].expiration, a)
                        && forall j :: 0 <= j < |timers| && timers[j].ptr == a ==> j == i
  {
    assert a in Ptrs(timers);
    var e :| e in timers && e.ptr == a;
    var i :| 0 <= i < |timers| && timers[i] == e;
    OwnedOnce(heap, timers, []);
  }

  lemma AddedIsOwned(heap: map<Address, Timer>, timers: seq<Entry>, busy: seq<Entry>, timer: Timer, a: Address)
    requires Owned(heap, timers, busy) && a !in heap && Proper(timer)
    ensures Sorted(timers) && Owned(heap[a := timer], Inserted(timers, Entry(timer.expiration, a)), busy)
  {
    NewIsNobodys(heap, timers, busy, a);
    hide Owned;
    InsertKeepsOwned(heap, timers, busy, a, timer);
  }

  /** The timerfd was armed for a new first timer, or stays as it is. */
  lemma AddedIsTimely(timers: seq<Entry>, e: Entry, fd: TimerFd, armed: int, fd': TimerFd, armed': int)
    requires Sorted(timers)
    requires if timers == [] || e.time < timers[0].time then fd' == Armed(Max(e.time, armed' + SHORTEST))
             else fd' == fd && armed' == armed
    ensures Timely(timers, fd, armed) ==> Timely(Inserted(timers, e), fd', armed')
  {
    InsertedIsSorted(timers, e);
  }

  lemma NewIsNobodys(heap: map<Address, Timer>, timers: seq<Entry>, busy: seq<Entry>, a: Address)
    requires Owned(heap, timers, busy) && a !in heap
    ensures a !in Ptrs(timers) && a !in Ptrs(busy) && Sorted(timers)
  {
    hide Ptrs, Sorted;
  }

  /** A timer that no one owns yet is put into the set. */
  lemma InsertKeepsOwned(heap: map<Address, Timer>, timers: seq<Entry>, busy: seq<Entry>, a: Address, timer: Timer)
    requires Owned(heap, timers, busy) && a !in Ptrs(timers) && a !in Ptrs(busy) && Proper(timer)
    ensures Owned(heap[a := timer], Inserted(timers, Entry(timer.expiration, a)), busy)
  {
    var e := Entry(timer.expiration, a);
    InsertedIsSorted(timers, e);
    hide Sorted, Inserted;
    var after := Inserted(timers, e);
    assert Ptrs(after) == Ptrs(timers) + {a} by {
      assert e in after;
      forall b | b in Ptrs(timers) ensures b in Ptrs(after) {
        var f :| f in timers && f.ptr == b;
        assert f in after;
      }
    }
    forall f | f in after ensures f.ptr in heap[a := timer] && heap[a := timer][f.ptr].expiration == f.time {
      if f != e {
        assert f in timers;
        assert f.ptr in Ptrs(timers);
      }
    }
  }

  lemma PartsAreApart(timers: seq<Entry>, n: nat)
    requires NoTwice(timers) && n <= |timers|
    ensures Ptrs(timers) == Ptrs(timers[..n]) + Ptrs(timers[n..]) && Ptrs(timers[..n]) !! Ptrs(timers[n..])
    ensures NoTwice(timers[..n])
  {
    assert timers == timers[..n] + timers[n..];
    assert forall e :: e in timers <==> e in timers[..n] || e in timers[n..];
    forall e, f | e in timers[..n] && f in timers[n..] ensures e.ptr != f.ptr {
      var i :| 0 <= i < n && timers[i] == e;
      var j :| n <= j < |timers| && timers[j] == f;
    }
  }

  /** The due entries move from the set to the batch. */
  lemma BatchKeepsOwned(heap: map<Address, Timer>, timers: seq<Entry>, n: nat)
    requires Owned(heap, timers, []) && n <= |timers|
    ensures Owned(heap, timers[n..], timers[..n])
  {
    OwnedOnce(heap, timers, []);
    PartsAreApart(timers, n);
  }

  /** The first timer of the batch is let go of: it may then be freed or inserted again. */
  lemma ReleaseFirst(heap: map<Address, Timer>, timers: seq<Entry>, busy: seq<Entry>)
    requires Owned(heap, timers, busy) && busy != []
    ensures busy[0].ptr in heap
    ensures busy[0].ptr !in Ptrs(timers) && busy[0].ptr !in Ptrs(busy[1..])
    ensures Owned(heap - {busy[0].ptr}, timers, busy[1..])
  {
    var a := busy[0].ptr;
    assert busy[0] in busy;
    assert a in Ptrs(busy);
    assert forall e :: e in busy <==> e == busy[0] || e in busy[1..];
    assert Ptrs(busy) == {a} + Ptrs(busy[1..]);
    forall e | e in busy[1..] ensures e.ptr != a {
      var i :| 0 < i < |busy| && busy[i] == e;
    }
    forall e | e in timers ensures e.ptr in heap - {a} {
      assert e.ptr in Ptrs(timers);
    }
  }

  // ---- the timerfd

  datatype TimerFd = Disarmed | Armed(at: int)

  /** The relative time written to the timerfd: the parts of an itimerspec. */
  function Spec(diff: int): (spec: (int, int))
    requires diff >= SHORTEST
    ensures spec.0 * 1_000_000_000 + spec.1 == 1000 * diff
    ensures 0 <= spec.1 < 1_000_000_000 && spec != (0, 0)
  {
    (diff / SECOND, diff % SECOND * 1000)
  }

  ghost function Max(a: int, b: int): int {
    if a < b then b else a
  }

  /** While a timer waits, the timerfd is armed for (or has already reached) the earliest
      expiration, or 100 microseconds after it was last armed if that is later. */
  ghost predicate Timely(timers: seq<Entry>, fd: TimerFd, lastArmed: int) {
    timers != [] ==> fd.Armed? && fd.at == Max(timers[0].time, lastArmed + SHORTEST)
  }

  /** So a timer that is due is never slept over for longer than that: the timerfd is readable,
      and the batch it starts is not empty. */
  lemma DueMeansReadable(timers: seq<Entry>, fd: TimerFd, lastArmed: int, now: int)
    requires Sorted(timers) && Timely(timers, fd, lastArmed)
    requires (exists e :: e in timers && e.time <= now) && lastArmed + SHORTEST <= now
    ensures fd.Armed? && fd.at <= now && LowerBound(timers, now) > 0
  {
    var e :| e in timers && e.time <= now;
    var i :| 0 <= i < |timers| && timers[i] == e;
    LowerBoundCutsDue(timers, now);
  }

  ghost function Addresses(es: seq<Entry>): seq<Address> {
    if es == [] then [] else [es[0].ptr] + Addresses(es[1..])
  }

  lemma {:induction false} AddressesAre(es: seq<Entry>)
    ensures |Addresses(es)| == |es| && forall i :: 0 <= i < |es| ==> Addresses(es)[i] == es[i].ptr
  {
    if es != [] {
      AddressesAre(es[1..]);
    }
  }

  ghost predicate AllIn(heap: map<Address, Timer>, es: seq<Entry>) {
    forall e :: e in es ==> e.ptr in heap
  }

  /** Timer::ReStart. */
  function Restarted(timer: Timer, now: int): Timer {
    timer.(expiration := AddTime(now, timer.interval))
  }

  /** A repeating timer is due again its interval after the clock reading, in whole microseconds, and is
      the same timer otherwise. */
  ghost predicate DueAgain(before: Timer, after: Timer, reading: int) {
    var wait := (after.expiration - reading) as real;
    && wait <= 1_000_000.0 * before.interval < wait + 1.0
    && after.callback == before.callback && after.interval == before.interval && after.repeat == before.repeat
  }

  lemma RestartedIsDueAgain(timer: Timer, now: int)
    requires timer.interval > 0.0
    ensures DueAgain(timer, Restarted(timer, now), now)
  {
  }

  /** What became of the timers of a batch: a one-shot is gone, a repeating one is due again its
      interval after some clock reading in between; all other timers are as they were. */
  ghost predicate Settled(before: map<Address, Timer>, after: map<Address, Timer>, es: seq<Entry>, from: int, to: int)
    requires AllIn(before, es)
  {
    && (forall a :: a !in Ptrs(es) ==> (a in before <==> a in after) && (a in before ==> after[a] == before[a]))
    && (forall e :: e in es ==>
          if before[e.ptr].repeat then e.ptr in after && exists t :: from <= t <= to && DueAgain(before[e.ptr], after[e.ptr], t)
          else e.ptr !in after)
  }

  lemma DoneIsApart(es: seq<Entry>, i: nat)
    requires NoTwice(es) && i < |es|
    ensures es[i].ptr !in Ptrs(es[..i])
    ensures es[i..][0] == es[i] && es[i..][1..] == es[i + 1..] && es[..i + 1] == es[..i] + [es[i]]
  {
    forall e | e in es[..i] ensures e.ptr != es[i].ptr {
      var j :| 0 <= j < i && es[j] == e;
    }
  }

  /** Settling one more timer. */
  lemma SettledSnoc(before: map<Address, Timer>, heap: map<Address, Timer>, done: seq<Entry>, e: Entry,
                    start: int, from: int, at: int, to: int, timer: Timer)
    requires AllIn(before, done) && Settled(before, heap, done, start, from)
    requires e.ptr in before && e.ptr !in Ptrs(done) && start <= from <= at <= to
    requires before[e.ptr].repeat ==> DueAgain(before[e.ptr], timer, at)
    ensures AllIn(before, done + [e])
    ensures var after := if before[e.ptr].repeat then heap[e.ptr := timer] else heap - {e.ptr};
            heap[e.ptr] == before[e.ptr] && Settled(before, after, done + [e], start, to)
  {
    hide DueAgain;
    var after := if before[e.ptr].repeat then heap[e.ptr := timer] else heap - {e.ptr};
    assert Ptrs(done + [e]) == Ptrs(done) + {e.ptr} by {
      assert forall f :: f in done + [e] <==> f in done || f == e;
    }
    forall f | f in done + [e]
      ensures if before[f.ptr].repeat then
                f.ptr in after && exists t :: start <= t <= to && DueAgain(before[f.ptr], after[f.ptr], t)
              else f.ptr !in after
    {
      if f in done {
        assert f.ptr in Ptrs(done);
        if before[f.ptr].repeat {
          var t :| start <= t <= from && DueAgain(before[f.ptr], heap[f.ptr], t);
          assert DueAgain(before[f.ptr], after[f.ptr], t);
        }
      }
    }
  }

  /** The batch up to its i-th timer is settled, and its one-shots are freed. */
  ghost predicate Partway(was: map<Address, Timer>, heap: map<Address, Timer>, es: seq<Entry>, i: nat,
                          from: int, to: int, before: seq<Address>, freed: seq<Address>) {
    && i <= |es| && from <= to && AllIn(was, es[..i])
    && Settled(was, heap, es[..i], from, to)
    && freed == before + OneShots(was, es[..i])
  }

  lemma NothingSettled(heap: map<Address, Timer>, es: seq<Entry>, now: int, freed: seq<Address>)
    ensures Partway(heap, heap, es, 0, now, now, freed, freed)
  {
    assert es[..0] == [];
  }

  lemma AllSettled(was: map<Address, Timer>, heap: map<Address, Timer>, es: seq<Entry>,
                   from: int, to: int, before: seq<Address>, freed: seq<Address>)
    requires Partway(was, heap, es, |es|, from, to, before, freed)
    ensures from <= to && AllIn(was, es) && Settled(was, heap, es, from, to) && freed == before + OneShots(was, es)
  {
    assert es[..|es|] == es;
  }

  lemma OneMore(was: map<Address, Timer>, heap: map<Address, Timer>, es: seq<Entry>, i: nat,
                from: int, to: int, before: seq<Address>, freed: seq<Address>, at: int, later: int, timer: Timer)
    requires Partway(was, heap, es, i, from, to, before, freed)
    requires i < |es| && NoTwice(es) && es[i].ptr in heap && to <= at <= later
    requires heap[es[i].ptr].repeat ==> DueAgain(heap[es[i].ptr], timer, at)
    ensures var a := es[i].ptr;
            if heap[a].repeat then Partway(was, heap[a := timer], es, i + 1, from, later, before, freed)
            else Partway(was, heap - {a}, es, i + 1, from, later, before, freed + [a])
  {
    hide OneShots, DueAgain;
    DoneIsApart(es, i);
    assert es[i].ptr in was && heap[es[i].ptr] == was[es[i].ptr];
    SettledSnoc(was, heap, es[..i], es[i], from, to, at, later, timer);
    OneShotsSnoc(was, es[..i], es[i], before);
  }

  lemma SettledLater(before: map<Address, Timer>, after: map<Address, Timer>, es: seq<Entry>, from: int, to: int, later: int)
    requires AllIn(before, es) && Settled(before, after, es, from, to) && to <= later
    ensures Settled(before, after, es, from, later)
  {
  }

  /** The same for a whole call, during which callbacks may add timers too. */
  ghost predicate Handled(before: map<Address, Timer>, after: map<Address, Timer>, due: seq<Entry>, cut: int, to: int)
    requires AllIn(before, due)
  {
    && (forall a :: a in before && a !in Ptrs(due) ==> a in after && after[a] == before[a])
    && (forall e :: e in due ==>
          if before[e.ptr].repeat then e.ptr in after && exists t :: cut <= t <= to && DueAgain(before[e.ptr], after[e.ptr], t)
          else e.ptr !in after)
  }

  /** The callbacks only added timers before the batch was settled. */
  lemma SettledThrough(before: map<Address, Timer>, between: map<Address, Timer>, after: map<Address, Timer>,
                       due: seq<Entry>, cut: int, from: int, to: int)
    requires AllIn(before, due) && AllIn(between, due) && cut <= from
    requires forall b :: b in before ==> b in between && between[b] == before[b]
    requires Settled(between, after, due, from, to)
    ensures OneShots(between, due) == OneShots(before, due)
    ensures Handled(before, after, due, cut, to)
  {
    SameOneShots(before, between, due);
    forall e | e in due && before[e.ptr].repeat
      ensures e.ptr in after && exists t :: cut <= t <= to && DueAgain(before[e.ptr], after[e.ptr], t)
    {
      var t :| from <= t <= to && DueAgain(between[e.ptr], after[e.ptr], t);
      assert cut <= t <= to && DueAgain(before[e.ptr], after[e.ptr], t);
    }
  }

  lemma {:induction false} SameOneShots(before: map<Address, Timer>, between: map<Address, Timer>, es: seq<Entry>)
    requires AllIn(before, es) && AllIn(between, es)
    requires forall b :: b in before ==> b in between && between[b] == before[b]
    ensures OneShots(between, es) == OneShots(before, es)
  {
    if es != [] {
      SameOneShots(before, between, es[1..]);
    }
  }

  lemma FirstIsOwned(heap: map<Address, Timer>, timers: seq<Entry>, busy: seq<Entry>)
    requires Owned(heap, timers, busy) && timers != []
    ensures timers[0].ptr in heap && heap[timers[0].ptr].expiration == timers[0].time
  {
    assert timers[0] in timers;
  }

  lemma BusyIsAllocated(heap: map<Address, Timer>, timers: seq<Entry>, busy: seq<Entry>)
    requires Owned(heap, timers, busy)
    ensures AllIn(heap, busy)
  {
    forall e | e in busy ensures e.ptr in heap {
      assert e.ptr in Ptrs(busy);
    }
  }

  ghost function OneShots(heap: map<Address, Timer>, es: seq<Entry>): seq<Address>
    requires AllIn(heap, es)
  {
    if es == [] then []
    else (if heap[es[0].ptr].repeat then [] else [es[0].ptr]) + OneShots(heap, es[1..])
  }

  lemma FirstIsApart(es: seq<Entry>)
    requires NoTwice(es) && es != []
    ensures Ptrs(es) == {es[0].ptr} + Ptrs(es[1..]) && es[0].ptr !in Ptrs(es[1..]) && NoTwice(es[1..])
  {
    assert forall i :: 0 < i < |es| ==> es[i].ptr != es[0].ptr;
    assert forall e :: e in es <==> e == es[0] || e in es[1..];
  }

  /** Freed are the timers of the batch that do not repeat, each once. */
  lemma {:induction false} OneShotsAre(heap: map<Address, Timer>, es: seq<Entry>, a: Address)
    requires AllIn(heap, es) && NoTwice(es)
    ensures multiset(OneShots(heap, es))[a] == if a in Ptrs(es) && !heap[a].repeat then 1 else 0
  {
    if es != [] {
      FirstIsApart(es);
      OneShotsAre(heap, es[1..], a);
      hide Ptrs, NoTwice, AllIn;
    }
  }

  lemma {:induction false} AddressesSnoc(es: seq<Entry>, e: Entry)
    ensures Addresses(es + [e]) == Addresses(es) + [e.ptr]
  {
    if es == [] {
      assert es + [e] == [e];
    } else {
      assert (es + [e])[1..] == es[1..] + [e];
      AddressesSnoc(es[1..], e);
    }
  }

  lemma {:induction false} OneShotsSnoc(heap: map<Address, Timer>, es: seq<Entry>, e: Entry, prefix: seq<Address>)
    requires AllIn(heap, es) && e.ptr in heap
    ensures AllIn(heap, es + [e])
    ensures prefix + OneShots(heap, es + [e])
         == if heap[e.ptr].repeat then prefix + OneShots(heap, es) else prefix + OneShots(heap, es) + [e.ptr]
  {
    if es == [] {
      assert es + [e] == [e];
    } else {
      assert (es + [e])[1..] == es[1..] + [e];
      var head := if heap[es[0].ptr].repeat then [] else [es[0].ptr];
      OneShotsSnoc(heap, es[1..], e, prefix + head);
      AddressesAssociate(prefix, head, OneShots(heap, es[1..]));
      AddressesAssociate(prefix, head, OneShots(heap, (es + [e])[1..]));
    }
  }

  lemma AddressesAssociate(a: seq<Address>, b: seq<Address>, c: seq<Address>)
    ensures a + (b + c) == a + b + c
  {
  }

  lemma UnboundedAddresses(used: set<Address>) returns (a: Address)
    ensures a !in used
  {
    var top: nat := 0;
    var rest := used;
    while rest != {}
      invariant forall b :: b in used && b !in rest ==> b < top
      decreases rest
    {
      var b :| b in rest;
      rest := rest - {b};
      top := if b < top then top else b + 1;
    }
    a := top;
  }

  class TimerQueue {
    /** The timers made with `new` and not deleted. */
    var heap: map<Address, Timer>
    var timers_: seq<Entry>
    var active_timers_: seq<Entry>
    var timer_fd_: TimerFd
    var clock: int
    ghost var lastArmed: int
    /** The part of active_timers_ that the call in progress still has to deal with. */
    ghost var busy: seq<Entry>
    ghost var ran: seq<Address>
    ghost var freed: seq<Address>

    ghost predicate Owns()
      reads this
    {
      Owned(heap, timers_, busy)
    }

    /** Between top-level calls. */
    ghost predicate Valid()
      reads this
    {
      Owns() && busy == [] && Timely(timers_, timer_fd_, lastArmed)
    }

    constructor (now: int)
      ensures Valid() && heap == map[] && ran == [] && freed == []
    {
      heap, timers_, active_timers_, timer_fd_, clock := map[], [], [], Disarmed, now;
      lastArmed, busy, ran, freed := now, [], [], [];
    }

    /** Any later reading of the clock. */
    method Now() returns (t: int)
      modifies this`clock
      ensures t == clock >= old(clock)
    {
      var passed :| passed >= 0;
      clock := clock + passed;
      t := clock;
    }

    /** `new`: any address that is not in use. */
    method NewAddress() returns (a: Address)
      ensures a !in heap
    {
      ghost var free := UnboundedAddresses(heap.Keys);
      a :| a !in heap;
    }

    method ReadTimerFd()
      modifies this`timer_fd_
      ensures timer_fd_ == if old(timer_fd_).Armed? && old(timer_fd_).at <= clock then Disarmed else old(timer_fd_)
    {
      if timer_fd_.Armed? && timer_fd_.at <= clock {
        timer_fd_ := Disarmed;
      }
    }

    method ResetTimerFd(a: Address)
      requires a in heap
      modifies this`timer_fd_, this`clock, this`lastArmed
      ensures old(clock) <= lastArmed == clock
      ensures timer_fd_ == Armed(Max(heap[a].expiration, lastArmed + SHORTEST))
      ensures timer_fd_.at == if heap[a].expiration - clock < 100 then clock + 100 else heap[a].expiration
    {
      var now := Now();
      var diff := heap[a].expiration - now;
      if diff < SHORTEST {
        diff := SHORTEST;
      }
      var (sec, nsec) := Spec(diff);
      timer_fd_ := if sec == 0 && nsec == 0 then Disarmed else Armed(now + (sec * 1_000_000_000 + nsec) / 1000);
      lastArmed := now;
    }

    method Insert(a: Address) returns (instantly: bool)
      requires a in heap
      modifies this`timers_
      ensures timers_ == Inserted(old(timers_), Entry(heap[a].expiration, a))
      ensures instantly == (old(timers_) == [] || heap[a].expiration < old(timers_)[0].time)
    {
      instantly := timers_ == [] || heap[a].expiration < timers_[0].time;
      timers_ := Inserted(timers_, Entry(heap[a].expiration, a));
    }

    method AddTimer(timestamp: int, callback: nat, interval: real) returns (a: Address)
      requires Owns()
      modifies this`heap, this`timers_, this`timer_fd_, this`clock, this`lastArmed
      ensures Owns() && a !in old(heap)
      ensures heap == old(heap)[a := Timer(timestamp, callback, interval, interval > 0.0)]
      ensures timers_ == Inserted(old(timers_), Entry(timestamp, a))
      ensures old(Timely(timers_, timer_fd_, lastArmed)) ==> Timely(timers_, timer_fd_, lastArmed)
      ensures old(clock) <= clock
    {
      hide Owned, Timely, Inserted, Sorted;
      a := NewAddress();
      ghost var timer, e := Timer(timestamp, callback, interval, interval > 0.0), Entry(timestamp, a);
      ghost var heap0, timers0 := heap, timers_;
      AddedIsOwned(heap0, timers0, busy, timer, a);
      heap := heap[a := Timer(timestamp, callback, interval, interval > 0.0)];
      var instantly := Insert(a);
      if instantly {
        ResetTimerFd(a);
      }
      AddedIsTimely(timers0, e, old(timer_fd_), old(lastArmed), timer_fd_, lastArmed);
    }

    /** A callback may do anything with the queue that it can do from outside: add timers. */
    method RunCallback(a: Address)
      requires Owns()
      modifies this`heap, this`timers_, this`timer_fd_, this`clock, this`lastArmed, this`ran
      ensures Owns() && ran == old(ran) + [a]
      ensures forall b :: b in old(heap) ==> b in heap && heap[b] == old(heap)[b]
      ensures old(clock) <= clock
    {
      ran := ran + [a];
      var count :| count >= 0;
      for i := 0 to count
        invariant Owns() && ran == old(ran) + [a] && old(clock) <= clock
        invariant forall b :: b in old(heap) ==> b in heap && heap[b] == old(heap)[b]
      {
        var timestamp: int, interval: real := *, *;
        var callback :| callback >= 0;
        var added := AddTimer(timestamp, callback, interval);
      }
    }

    /** The batch runs in the order of the set, whatever its callbacks add meanwhile. */
    method RunActive()
      requires Owns() && busy == active_timers_
      modifies this`heap, this`timers_, this`timer_fd_, this`clock, this`lastArmed, this`ran
      ensures Owns() && ran == old(ran) + Addresses(active_timers_)
      ensures forall b :: b in old(heap) ==> b in heap && heap[b] == old(heap)[b]
      ensures old(clock) <= clock
    {
      for i := 0 to |active_timers_|
        invariant Owns() && ran == old(ran) + Addresses(active_timers_[..i]) && old(clock) <= clock
        invariant forall b :: b in old(heap) ==> b in heap && heap[b] == old(heap)[b]
      {
        AddressesSnoc(active_timers_[..i], active_timers_[i]);
        assert active_timers_[..i + 1] == active_timers_[..i] + [active_timers_[i]];
        RunCallback(active_timers_[i].ptr);
      }
      assert active_timers_[..|active_timers_|] == active_timers_;
    }

    /** The batch lets go of its first timer. */
    method LetGo(a: Address) returns (timer: Timer)
      requires Owns() && busy != [] && busy[0].ptr == a
      modifies this`heap, this`busy
      ensures a in old(heap) && timer == old(heap)[a] && Proper(timer)
      ensures a !in Ptrs(timers_) && a !in Ptrs(busy)
      ensures Owns() && busy == old(busy)[1..] && heap == old(heap) - {a}
    {
      ReleaseFirst(heap, timers_, busy);
      timer := heap[a];
      heap := heap - {a};
      busy := busy[1..];
    }

    /** A restarted timer goes back into the set at its address. */
    method PutBack(a: Address, timer: Timer)
      requires Owns() && a !in Ptrs(timers_) && a !in Ptrs(busy) && Proper(timer)
      modifies this`heap, this`timers_
      ensures Owns() && heap == old(heap)[a := timer]
    {
      InsertKeepsOwned(heap, timers_, busy, a, timer);
      heap := heap[a := timer];
      var instantly := Insert(a);
    }

    /** One timer of the batch: restarted and put back, or freed. */
    method SettleFirst(a: Address) returns (ghost at: int, ghost restarted: Timer)
      requires Owns() && busy != [] && busy[0].ptr == a
      modifies this`heap, this`timers_, this`busy, this`freed, this`clock
      ensures a in old(heap) && Owns() && busy == old(busy)[1..]
      ensures old(heap)[a].repeat ==> DueAgain(old(heap)[a], restarted, at)
      ensures heap == if old(heap)[a].repeat then old(heap)[a := restarted] else old(heap) - {a}
      ensures freed == if old(heap)[a].repeat then old(freed) else old(freed) + [a]
      ensures old(clock) <= at <= clock
    {
      hide Owned, Ptrs, DueAgain, Restarted;
      var timer := LetGo(a);
      if timer.repeat {
        var now := Now();
        at := now;
        restarted := Restarted(timer, now);
        RestartedIsDueAgain(timer, now);
        PutBack(a, Restarted(timer, now));
      } else {
        at, restarted := clock, timer;
        freed := freed + [a];
      }
    }

    /** One round of the loop: the i-th timer of the batch. */
    method SettleNext(i: nat, ghost was: map<Address, Timer>, ghost start: int, ghost before: seq<Address>)
      requires Owns() && i < |active_timers_| && busy == active_timers_[i..] && NoTwice(active_timers_)
      requires Partway(was, heap, active_timers_, i, start, clock, before, freed)
      modifies this`heap, this`timers_, this`busy, this`freed, this`clock
      ensures Owns() && busy == active_timers_[i + 1..]
      ensures Partway(was, heap, active_timers_, i + 1, start, clock, before, freed)
    {
      hide Owned, Partway, DueAgain, NoTwice;
      assert busy[0] == active_timers_[i] && busy[1..] == active_timers_[i + 1..];
      ghost var heap0, clock0, freed0 := heap, clock, freed;
      ghost var at, restarted := SettleFirst(active_timers_[i].ptr);
      OneMore(was, heap0, active_timers_, i, start, clock0, before, freed0, at, clock, restarted);
    }

    /** The loop over the batch: repeating timers go back into the set, the others are freed. */
    method SettleAll()
      requires Owns() && busy == active_timers_
      modifies this`heap, this`timers_, this`busy, this`freed, this`clock
      ensures Owns() && busy == []
      ensures old(clock) <= clock && AllIn(old(heap), active_timers_)
      ensures freed == old(freed) + OneShots(old(heap), active_timers_)
      ensures Settled(old(heap), heap, active_timers_, old(clock), clock)
    {
      ghost var was, start, before := heap, clock, freed;
      NothingSettled(heap, active_timers_, clock, freed);
      assert NoTwice(active_timers_);
      hide *;
      for i := 0 to |active_timers_|
        invariant Owns() && busy == active_timers_[i..]
        invariant Partway(was, heap, active_timers_, i, start, clock, before, freed)
      {
        SettleNext(i, was, start, before);
      }
      AllSettled(was, heap, active_timers_, start, clock, before, freed);
    }

    /** The batch is settled, and the timerfd armed again. */
    method ResetTimers()
      requires Owns() && busy == active_timers_
      modifies this`heap, this`timers_, this`busy, this`freed, this`clock, this`timer_fd_, this`lastArmed
      ensures Owns() && busy == [] && Timely(timers_, timer_fd_, lastArmed)
      ensures old(clock) <= clock && AllIn(old(heap), active_timers_)
      ensures freed == old(freed) + OneShots(old(heap), active_timers_)
      ensures Settled(old(heap), heap, active_timers_, old(clock), clock)
    {
      hide Owned, OneShots, Settled, DueAgain, AllIn;
      SettleAll();
      ghost var settled := clock;
      assert Settled(old(heap), heap, active_timers_, old(clock), settled);
      if timers_ != [] {
        FirstIsOwned(heap, timers_, busy);
        ResetTimerFd(timers_[0].ptr);
      }
      SettledLater(old(heap), heap, active_timers_, old(clock), settled, clock);
    }

    /** The due entries leave the set for the batch. */
    method TakeDue() returns (cut: int)
      requires Owns() && busy == []
      modifies this`timers_, this`active_timers_, this`clock, this`busy
      ensures old(clock) <= cut == clock
      ensures active_timers_ == old(timers_)[..LowerBound(old(timers_), cut)]
      ensures Owns() && busy == active_timers_
    {
      hide Owned, LowerBound;
      active_timers_ := [];
      cut := Now();
      var end := LowerBound(timers_, cut);
      BatchKeepsOwned(heap, timers_, end);
      active_timers_ := timers_[..end];
      timers_ := timers_[end..];
      busy := active_timers_;
    }

    /** The timerfd is readable. The batch is what is due at the clock reading `cut`; it runs in
        (time, address) order, each timer once; then the repeating ones are due again, the
        one-shots are freed, each once, and the timers that were not due are as they were. */
    method HandleRead() returns (ghost cut: int)
      requires Valid()
      modifies this
      ensures Valid() && old(clock) <= cut <= clock
      ensures active_timers_ == old(timers_)[..LowerBound(old(timers_), cut)]
      ensures ran == old(ran) + Addresses(active_timers_)
      ensures AllIn(old(heap), active_timers_) && freed == old(freed) + OneShots(old(heap), active_timers_)
      ensures Handled(old(heap), heap, active_timers_, cut, clock)
    {
      hide Owned, Settled, Handled, OneShots, Addresses, LowerBound, Timely;
      ReadTimerFd();
      cut := TakeDue();
      BusyIsAllocated(heap, timers_, busy);
      RunActive();
      ghost var between, from := heap, clock;
      ResetTimers();
      SettledThrough(old(heap), between, heap, active_timers_, cut, from, clock);
    }
  }
}
