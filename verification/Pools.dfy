/** The two connection pools and the threads that nest them, after Code/database/RedisPool.cpp,
    Code/database/MysqlPool.cpp and their WithConnection brackets: condition-variable queues,
    any number of threads, Redis connections taken before MySQL ones. */
module Pools {

  type Thread = nat
  type ConnId = nat

  datatype Which = Redis | Mysql

  /** Where a thread is. The first argument of a state is the Redis connection it holds, if any:
      MySQL connections are also taken by threads that hold none. */
  datatype Place =
    | Outside
    | Finished
    | AtRedis                                            // in Get, before the lock
    | AsleepRedis                                        // in cv_.wait
    | WokenRedis                                         // out of cv_.wait, the queue not yet looked at again
    | InRedis(r: ConnId)                                 // in the callback
    | PutRedis                                           // after the push, before notify_one
    | AtMysql(outer: Held)
    | AsleepMysql(outer: Held)
    | WokenMysql(outer: Held)
    | InBoth(outer: Held, m: ConnId)
    | PutMysql(outer: Held)

  datatype Held = Nothing | Holding(r: ConnId)

  datatype State = State(threads: map<Thread, Place>, redis: seq<ConnId>, mysql: seq<ConnId>)

  datatype Action =
    | Begin(t: Thread, w: Which)       // WithConnection starts
    | Finish(t: Thread)
    | Look(t: Thread)                  // under the lock: take the front, or go to sleep
    | Return(t: Thread)                // the callback is over: push under the lock
    | Notify(t: Thread, woken: Woken)  // notify_one wakes one sleeper, any, if there is one
    | Spurious(t: Thread)              // a wake-up that nobody asked for

  datatype Woken = Nobody | Somebody(u: Thread)

  ghost predicate Asleep(p: Place, w: Which) {
    if w.Redis? then p.AsleepRedis? else p.AsleepMysql?
  }

  /** Threads that will look at the queue again, or are about to wake someone who will. */
  ghost predicate Stirring(p: Place, w: Which) {
    if w.Redis? then p.WokenRedis? || p.PutRedis? else p.WokenMysql? || p.PutMysql?
  }

  ghost function OuterOf(p: Place): Held {
    match p
    case AtMysql(o) => o
    case AsleepMysql(o) => o
    case WokenMysql(o) => o
    case InBoth(o, _) => o
    case PutMysql(o) => o
    case InRedis(r) => Holding(r)
    case _ => Nothing
  }

  ghost function Wake(p: Place): Place
    requires p.AsleepRedis? || p.AsleepMysql?
  {
    if p.AsleepRedis? then WokenRedis else WokenMysql(p.outer)
  }

  /** Back in the callback of the outer bracket, or outside of both. */
  ghost function Back(outer: Held): Place {
    if outer.Holding? then InRedis(outer.r) else Outside
  }

  ghost predicate Enabled(s: State, a: Action) {
    a.t in s.threads &&
    var p := s.threads[a.t];
    match a
    case Begin(_, w) => p.Outside? || (w.Mysql? && p.InRedis?)
    case Finish(_) => p.Outside?
    case Look(_) => p.AtRedis? || p.WokenRedis? || p.AtMysql? || p.WokenMysql?
    case Return(_) => p.InRedis? || p.InBoth?
    case Notify(_, woken) =>
      && (p.PutRedis? || p.PutMysql?)
      && var w := if p.PutRedis? then Redis else Mysql;
         if woken.Nobody? then forall u :: u in s.threads ==> !Asleep(s.threads[u], w)
         else woken.u in s.threads && Asleep(s.threads[woken.u], w)
    case Spurious(_) => p.AsleepRedis? || p.AsleepMysql?
  }

  ghost function At(s: State, t: Thread, p: Place): State {
    s.(threads := s.threads[t := p])
  }

  ghost function Do(s: State, a: Action): State
    requires Enabled(s, a)
  {
    var t := a.t;
    var p := s.threads[t];
    match a
    case Begin(_, w) => At(s, t, if w.Redis? then AtRedis else AtMysql(OuterOf(p)))
    case Finish(_) => At(s, t, Finished)
    case Look(_) =>
      if p.AtRedis? || p.WokenRedis? then
        if s.redis == [] then At(s, t, AsleepRedis)
        else At(s, t, InRedis(s.redis[0])).(redis := s.redis[1..])
      else
        if s.mysql == [] then At(s, t, AsleepMysql(p.outer))
        else At(s, t, InBoth(p.outer, s.mysql[0])).(mysql := s.mysql[1..])
    case Return(_) =>
      if p.InRedis? then At(s, t, PutRedis).(redis := s.redis + [p.r])
      else At(s, t, PutMysql(p.outer)).(mysql := s.mysql + [p.m])
    case Notify(_, woken) =>
      var s' := At(s, t, if p.PutRedis? then Outside else Back(p.outer));
      if woken.Nobody? then s' else At(s', woken.u, Wake(s.threads[woken.u]))
    case Spurious(_) => At(s, t, Wake(p))
  }

  ghost predicate Start(s: State) {
    s.redis != [] && s.mysql != [] && forall t :: t in s.threads ==> s.threads[t].Outside?
  }

  ghost predicate Legal(s: State, run: seq<Action>)
    decreases |run|
  {
    run != [] ==> Enabled(s, run[0]) && Legal(Do(s, run[0]), run[1..])
  }

  ghost function Exec(s: State, run: seq<Action>): State
    requires Legal(s, run)
    decreases |run|
  {
    if run == [] then s else Exec(Do(s, run[0]), run[1..])
  }

  // ---- conservation

  ghost predicate InHand(p: Place, w: Which, c: ConnId) {
    if w.Redis? then OuterOf(p) == Holding(c) else p.InBoth? && p.m == c
  }

  ghost function One(b: bool): nat {
    if b then 1 else 0
  }

  /** How many of the threads 0 .. n have the connection in their hands. */
  ghost function Lent(threads: map<Thread, Place>, w: Which, c: ConnId, n: nat): nat {
    if n == 0 then 0
    else Lent(threads, w, c, n - 1) + One(n - 1 in threads && InHand(threads[n - 1], w, c))
  }

  ghost predicate Below(threads: map<Thread, Place>, n: nat) {
    forall t :: t in threads ==> t < n
  }

  ghost function Queue(s: State, w: Which): seq<ConnId> {
    if w.Redis? then s.redis else s.mysql
  }

  ghost function Occurs(q: seq<ConnId>, c: ConnId): nat {
    if q == [] then 0 else One(q[0] == c) + Occurs(q[1..], c)
  }

  ghost function Idle(s: State, w: Which, c: ConnId): nat {
    Occurs(Queue(s, w), c)
  }

  lemma {:induction false} LentUpdate(threads: map<Thread, Place>, w: Which, c: ConnId, n: nat, t: Thread, p: Place)
    requires t in threads && t < n
    ensures Lent(threads[t := p], w, c, n) + One(InHand(threads[t], w, c)) == Lent(threads, w, c, n) + One(InHand(p, w, c))
  {
    if n - 1 != t {
      LentUpdate(threads, w, c, n - 1, t, p);
    } else {
      LentFrame(threads, w, c, n - 1, t, p);
    }
  }

  lemma {:induction false} LentFrame(threads: map<Thread, Place>, w: Which, c: ConnId, n: nat, t: Thread, p: Place)
    requires n <= t
    ensures Lent(threads[t := p], w, c, n) == Lent(threads, w, c, n)
  {
    if n > 0 {
      LentFrame(threads, w, c, n - 1, t, p);
    }
  }

  lemma {:induction false} OccursPushed(q: seq<ConnId>, d: ConnId, c: ConnId)
    ensures Occurs(q + [d], c) == Occurs(q, c) + One(d == c)
  {
    if q == [] {
      assert q + [d] == [d];
    } else {
      assert (q + [d])[1..] == q[1..] + [d];
      OccursPushed(q[1..], d, c);
    }
  }

  /** What a step puts into the thread's hands comes out of the queue, and the other way round. */
  lemma QueueAndHand(s: State, a: Action, w: Which, c: ConnId)
    requires Enabled(s, a) && !(a.Notify? && a.woken.Somebody?)
    ensures Idle(Do(s, a), w, c) + One(InHand(Do(s, a).threads[a.t], w, c)) == Idle(s, w, c) + One(InHand(s.threads[a.t], w, c))
  {
    var p := s.threads[a.t];
    if a.Return? {
      if p.InRedis? {
        OccursPushed(s.redis, p.r, c);
      } else {
        OccursPushed(s.mysql, p.m, c);
      }
    }
  }

  /** Waking a sleeper moves no connection. */
  lemma NotifyConserves(s: State, a: Action, w: Which, c: ConnId, n: nat)
    requires Enabled(s, a) && a.Notify? && a.woken.Somebody? && Below(s.threads, n)
    ensures Do(s, a).threads.Keys == s.threads.Keys && Queue(Do(s, a), w) == Queue(s, w)
    ensures Lent(Do(s, a).threads, w, c, n) == Lent(s.threads, w, c, n)
  {
    hide Lent;
    var p, u := s.threads[a.t], a.woken.u;
    var q := if p.PutRedis? then Outside else Back(p.outer);
    assert InHand(q, w, c) == InHand(p, w, c) && InHand(Wake(s.threads[u]), w, c) == InHand(s.threads[u], w, c);
    LentUpdate(s.threads, w, c, n, a.t, q);
    LentUpdate(s.threads[a.t := q], w, c, n, u, Wake(s.threads[u]));
  }

  /** Every other step changes its own thread only. */
  lemma OwnStep(s: State, a: Action)
    requires Enabled(s, a) && !(a.Notify? && a.woken.Somebody?)
    ensures a.t in Do(s, a).threads && Do(s, a).threads == s.threads[a.t := Do(s, a).threads[a.t]]
  {
  }

  /** Every step moves connections between the queues and the threads and loses none. */
  lemma StepConserves(s: State, a: Action, w: Which, c: ConnId, n: nat)
    requires Enabled(s, a) && Below(s.threads, n)
    ensures Do(s, a).threads.Keys == s.threads.Keys
    ensures Idle(Do(s, a), w, c) + Lent(Do(s, a).threads, w, c, n) == Idle(s, w, c) + Lent(s.threads, w, c, n)
  {
    hide Do, Lent, Occurs, InHand;
    if a.Notify? && a.woken.Somebody? {
      NotifyConserves(s, a, w, c, n);
    } else {
      OwnStep(s, a);
      LentUpdate(s.threads, w, c, n, a.t, Do(s, a).threads[a.t]);
      QueueAndHand(s, a, w, c);
    }
  }

  /** No connection is ever lost, made up, or lent twice: over any run, the queue and the hands of
      the threads together hold it exactly as often as at the start. */
  lemma {:induction false} ConnectionsConserved(s: State, run: seq<Action>, w: Which, c: ConnId, n: nat)
    requires Legal(s, run) && Below(s.threads, n)
    ensures Idle(Exec(s, run), w, c) + Lent(Exec(s, run).threads, w, c, n) == Idle(s, w, c) + Lent(s.threads, w, c, n)
    ensures Exec(s, run).threads.Keys == s.threads.Keys
    decreases |run|
  {
    if run != [] {
      StepConserves(s, run[0], w, c, n);
      ConnectionsConserved(Do(s, run[0]), run[1..], w, c, n);
    }
  }

  // ---- first in, first out

  /** The connections that the steps of a run take out of a pool, in order. */
  ghost function HandedOut(s: State, run: seq<Action>, w: Which): seq<ConnId>
    requires Legal(s, run)
    decreases |run|
  {
    if run == [] then []
    else
      var t := Do(s, run[0]);
      var p := t.threads[run[0].t];
      (if !run[0].Look? then [] else if w.Redis? && p.InRedis? then [p.r] else if w.Mysql? && p.InBoth? then [p.m] else [])
      + HandedOut(t, run[1..], w)
  }

  /** Those that they put back. */
  ghost function PutBack(s: State, run: seq<Action>, w: Which): seq<ConnId>
    requires Legal(s, run)
    decreases |run|
  {
    if run == [] then []
    else
      var p := s.threads[run[0].t];
      (if !run[0].Return? then [] else if w.Redis? && p.InRedis? then [p.r] else if w.Mysql? && p.InBoth? then [p.m] else [])
      + PutBack(Do(s, run[0]), run[1..], w)
  }

  lemma Associate(a: seq<ConnId>, b: seq<ConnId>, c: seq<ConnId>)
    ensures a + b + c == a + (b + c)
  {
  }

  /** A step takes from the front or puts at the end, and nothing else touches the queue. */
  lemma StepQueues(s: State, a: Action, w: Which)
    requires Enabled(s, a)
    ensures Legal(s, [a])
    ensures Queue(s, w) + PutBack(s, [a], w) == HandedOut(s, [a], w) + Queue(Do(s, a), w)
    ensures HandedOut(s, [a], w) == [] || PutBack(s, [a], w) == []
  {
    assert [a][1..] == [];
  }

  lemma ConsQueues(s: State, run: seq<Action>, w: Which)
    requires Legal(s, run) && run != []
    ensures Legal(s, [run[0]])
    ensures PutBack(s, run, w) == PutBack(s, [run[0]], w) + PutBack(Do(s, run[0]), run[1..], w)
    ensures HandedOut(s, run, w) == HandedOut(s, [run[0]], w) + HandedOut(Do(s, run[0]), run[1..], w)
  {
    hide Do, Enabled;
    assert [run[0]][1..] == [];
    assert PutBack(Do(s, run[0]), [], w) == [] && HandedOut(Do(s, run[0]), [], w) == [];
  }

  /** Over any run each pool is a queue: what was in it and what came back goes out in this order. */
  lemma {:induction false} PoolIsQueue(s: State, run: seq<Action>, w: Which)
    requires Legal(s, run)
    ensures Queue(s, w) + PutBack(s, run, w) == HandedOut(s, run, w) + Queue(Exec(s, run), w)
    decreases |run|
  {
    if run == [] {
      assert Queue(s, w) + [] == [] + Queue(s, w);
    } else {
      hide Do, Enabled, PutBack, HandedOut, Queue;
      var a, rest, t := run[0], run[1..], Do(s, run[0]);
      StepQueues(s, a, w);
      ConsQueues(s, run, w);
      PoolIsQueue(t, rest, w);
      var back, out := PutBack(s, [a], w), HandedOut(s, [a], w);
      Associate(Queue(s, w), back, PutBack(t, rest, w));
      Associate(out, Queue(t, w), PutBack(t, rest, w));
      Associate(out, HandedOut(t, rest, w), Queue(Exec(s, run), w));
    }
  }

  // ---- no lost wake-up, for each of the two pools

  ghost function StirringSet(threads: map<Thread, Place>, w: Which): set<Thread> {
    set t | t in threads && Stirring(threads[t], w)
  }

  ghost predicate SomeoneAsleep(threads: map<Thread, Place>, w: Which) {
    exists t :: t in threads && Asleep(threads[t], w)
  }

  /** Whenever a thread sleeps, every idle connection has a thread that will come for it. */
  ghost predicate NoLostWakeup(s: State, w: Which) {
    SomeoneAsleep(s.threads, w) ==> |Queue(s, w)| <= |StirringSet(s.threads, w)|
  }

  /** Changing one thread changes the count by that thread alone. */
  lemma StirringUpdate(threads: map<Thread, Place>, w: Which, t: Thread, p: Place)
    requires t in threads
    ensures |StirringSet(threads[t := p], w)| + (if Stirring(threads[t], w) then 1 else 0)
         == |StirringSet(threads, w)| + (if Stirring(p, w) then 1 else 0)
  {
    var rest := StirringSet(threads, w) - {t};
    assert StirringSet(threads[t := p], w) == if Stirring(p, w) then rest + {t} else rest;
    assert StirringSet(threads, w) == if Stirring(threads[t], w) then rest + {t} else rest;
  }

  lemma StepKeepsWakeup(s: State, a: Action, w: Which)
    requires Enabled(s, a) && NoLostWakeup(s, w)
    ensures NoLostWakeup(Do(s, a), w)
  {
    var v := Do(s, a);
    var p := s.threads[a.t];
    if a.Notify? && a.woken.Somebody? {
      var q := if p.PutRedis? then Outside else Back(p.outer);
      StirringUpdate(s.threads, w, a.t, q);
      StirringUpdate(s.threads[a.t := q], w, a.woken.u, Wake(s.threads[a.woken.u]));
    } else {
      StirringUpdate(s.threads, w, a.t, v.threads[a.t]);
    }
    if SomeoneAsleep(v.threads, w) {
      var u :| u in v.threads && Asleep(v.threads[u], w);
      if u != a.t {
        assert u in s.threads && Asleep(s.threads[u], w);
      }
    }
  }

  lemma {:induction false} ExecKeepsWakeup(s: State, run: seq<Action>, w: Which)
    requires Legal(s, run) && NoLostWakeup(s, w)
    ensures NoLostWakeup(Exec(s, run), w)
    decreases |run|
  {
    if run != [] {
      StepKeepsWakeup(s, run[0], w);
      ExecKeepsWakeup(Do(s, run[0]), run[1..], w);
    }
  }

  lemma WakeupsNotLost(s: State, run: seq<Action>, w: Which)
    requires Start(s) && Legal(s, run)
    ensures NoLostWakeup(Exec(s, run), w)
  {
    assert !SomeoneAsleep(s.threads, w);
    ExecKeepsWakeup(s, run, w);
  }

  // ---- no deadlock

  /** A thread that can go on by itself, not counting spurious wake-ups. */
  ghost predicate CanMove(s: State, t: Thread) {
    exists a: Action :: a.t == t && !a.Spurious? && Enabled(s, a)
  }

  lemma AwakeCanMove(s: State, t: Thread)
    requires t in s.threads && !s.threads[t].Finished?
    requires !s.threads[t].AsleepRedis? && !s.threads[t].AsleepMysql?
    ensures CanMove(s, t)
  {
    var p := s.threads[t];
    if p.Outside? {
      assert Enabled(s, Finish(t));
    } else if p.InRedis? || p.InBoth? {
      assert Enabled(s, Return(t));
    } else if p.PutRedis? || p.PutMysql? {
      var w := if p.PutRedis? then Redis else Mysql;
      if u :| u in s.threads && Asleep(s.threads[u], w) {
        assert Enabled(s, Notify(t, Somebody(u)));
      } else {
        assert Enabled(s, Notify(t, Nobody));
      }
    } else {
      assert Enabled(s, Look(t));
    }
  }

  /** A connection that is lent is in the hands of some thread. */
  lemma {:induction false} LentHasHolder(threads: map<Thread, Place>, w: Which, c: ConnId, n: nat) returns (t: Thread)
    requires Lent(threads, w, c, n) > 0
    ensures t in threads && InHand(threads[t], w, c)
  {
    if n - 1 in threads && InHand(threads[n - 1], w, c) {
      t := n - 1;
    } else {
      t := LentHasHolder(threads, w, c, n - 1);
    }
  }

  /** If someone sleeps at a pool that has a connection at all, then a thread is stirring there or
      some thread has that connection in its hands. */
  lemma SleeperIsServed(s: State, w: Which, c: ConnId, n: nat) returns (t: Thread)
    requires NoLostWakeup(s, w) && SomeoneAsleep(s.threads, w)
    requires Idle(s, w, c) + Lent(s.threads, w, c, n) > 0
    ensures t in s.threads && (Stirring(s.threads[t], w) || InHand(s.threads[t], w, c))
  {
    if t' :| t' in StirringSet(s.threads, w) {
      t := t';
    } else {
      assert StirringSet(s.threads, w) == {};
      assert Queue(s, w) == [];
      t := LentHasHolder(s.threads, w, c, n);
    }
  }

  /** With both pools non-empty at the start, in every reachable state with an unfinished thread
      some thread can move: the nesting never deadlocks and no wake-up is missing. */
  lemma DeadlockFree(s: State, run: seq<Action>)
    requires Start(s) && Legal(s, run)
    requires exists t :: t in Exec(s, run).threads && !Exec(s, run).threads[t].Finished?
    ensures exists t :: t in Exec(s, run).threads && CanMove(Exec(s, run), t)
  {
    var v := Exec(s, run);
    var n := Bound(s.threads);
    WakeupsNotLost(s, run, Redis);
    WakeupsNotLost(s, run, Mysql);
    ConnectionsConserved(s, run, Redis, s.redis[0], n);
    ConnectionsConserved(s, run, Mysql, s.mysql[0], n);
    assert Idle(s, Redis, s.redis[0]) > 0 && Idle(s, Mysql, s.mysql[0]) > 0;
    var t :| t in v.threads && !v.threads[t].Finished?;
    if v.threads[t].AsleepRedis? {
      assert Asleep(v.threads[t], Redis);
      t := SleeperIsServed(v, Redis, s.redis[0], n);
    }
    if v.threads[t].AsleepMysql? {
      assert Asleep(v.threads[t], Mysql);
      t := SleeperIsServed(v, Mysql, s.mysql[0], n);
    }
    AwakeCanMove(v, t);
  }

  // ---- and the condition is exact

  ghost predicate AllOutside(s: State) {
    forall t :: t in s.threads ==> s.threads[t].Outside?
  }

  /** Some thread is not finished, and none can go on. */
  ghost predicate Stuck(s: State) {
    (exists t :: t in s.threads && !s.threads[t].Finished?) && forall t :: t in s.threads ==> !CanMove(s, t)
  }

  ghost predicate NeverStuck(s: State) {
    forall run :: Legal(s, run) ==> !Stuck(Exec(s, run))
  }

  /** MySQL connections are asked for only with a Redis connection in hand. */
  ghost predicate Nested(s: State, run: seq<Action>)
    requires Legal(s, run)
    decreases |run|
  {
    run != [] ==>
      && (run[0].Begin? && run[0].w.Mysql? ==> s.threads[run[0].t].InRedis?)
      && Nested(Do(s, run[0]), run[1..])
  }

  ghost predicate NestedNeverStuck(s: State) {
    forall run :: Legal(s, run) && Nested(s, run) ==> !Stuck(Exec(s, run))
  }

  lemma ConsRun(s: State, a: Action, rest: seq<Action>)
    requires Enabled(s, a) && (a.Begin? && a.w.Mysql? ==> s.threads[a.t].InRedis?)
    requires Legal(Do(s, a), rest) && Nested(Do(s, a), rest)
    ensures Legal(s, [a] + rest) && Nested(s, [a] + rest) && Exec(s, [a] + rest) == Exec(Do(s, a), rest)
  {
    hide Do, Enabled;
    assert ([a] + rest)[1..] == rest;
  }

  lemma AsleepAlone(s: State, t: Thread)
    requires t in s.threads && (s.threads[t].AsleepRedis? || s.threads[t].AsleepMysql?)
    requires forall u :: u in s.threads && u != t ==> s.threads[u].Finished?
    ensures Stuck(s)
  {
  }

  /** One thread is left. It gets as far as the empty pool, by way of a Redis connection if there is one. */
  lemma LastCaller(s: State, t: Thread) returns (run: seq<Action>)
    requires t in s.threads && s.threads[t].Outside? && (s.redis == [] || s.mysql == [])
    requires forall u :: u in s.threads && u != t ==> s.threads[u].Finished?
    ensures Legal(s, run) && Nested(s, run) && Stuck(Exec(s, run))
  {
    hide Stuck, Legal, Nested, Exec;
    var s1 := Do(s, Begin(t, Redis));
    var s2 := Do(s1, Look(t));
    var end, rest := s2, [];
    if s.redis != [] {
      var s3 := Do(s2, Begin(t, Mysql));
      end := Do(s3, Look(t));
      NoRun(end);
      ConsRun(s3, Look(t), []);
      ConsRun(s2, Begin(t, Mysql), [Look(t)] + []);
      rest := [Begin(t, Mysql)] + ([Look(t)] + []);
    } else {
      NoRun(end);
    }
    AsleepAlone(end, t);
    ConsRun(s1, Look(t), rest);
    ConsRun(s, Begin(t, Redis), [Look(t)] + rest);
    run := [Begin(t, Redis)] + ([Look(t)] + rest);
  }

  lemma NoRun(s: State)
    ensures Legal(s, []) && Nested(s, []) && Exec(s, []) == s
  {
  }

  /** The other threads finish without ever calling; then the last one calls. */
  lemma {:induction false} BlockingRun(s: State, t: Thread, others: set<Thread>) returns (run: seq<Action>)
    requires t in s.threads && s.threads[t].Outside? && (s.redis == [] || s.mysql == [])
    requires t !in others && others <= s.threads.Keys
    requires forall u :: u in s.threads && u != t ==> if u in others then s.threads[u].Outside? else s.threads[u].Finished?
    ensures Legal(s, run) && Nested(s, run) && Stuck(Exec(s, run))
    decreases |others|
  {
    hide Stuck, Legal, Nested, Exec;
    if u :| u in others {
      var rest := BlockingRun(Do(s, Finish(u)), t, others - {u});
      ConsRun(s, Finish(u), rest);
      run := [Finish(u)] + rest;
    } else {
      run := LastCaller(s, t);
    }
  }

  /** Whatever the number of threads and connections: no run gets stuck exactly when both pools have
      a connection at the start; and so it is for the runs that take the pools in their order. */
  lemma NeverStuckIff(s: State)
    requires AllOutside(s) && s.threads != map[]
    ensures NeverStuck(s) <==> s.redis != [] && s.mysql != []
    ensures NestedNeverStuck(s) <==> s.redis != [] && s.mysql != []
  {
    hide Legal, Nested, Exec, Enabled;
    if s.redis != [] && s.mysql != [] {
      forall run | Legal(s, run) ensures !Stuck(Exec(s, run)) {
        if exists t :: t in Exec(s, run).threads && !Exec(s, run).threads[t].Finished? {
          DeadlockFree(s, run);
        }
      }
    } else {
      var t :| t in s.threads;
      var run := BlockingRun(s, t, s.threads.Keys - {t});
    }
  }

  /** A pool without connections serves nobody, in no run: whoever calls it never gets in. */
  lemma EmptyPoolServesNobody(s: State, run: seq<Action>, w: Which, t: Thread, c: ConnId)
    requires AllOutside(s) && Queue(s, w) == [] && Legal(s, run)
    ensures Queue(Exec(s, run), w) == []
    ensures t in Exec(s, run).threads ==> !InHand(Exec(s, run).threads[t], w, c)
  {
    var v := Exec(s, run);
    var n := Bound(s.threads);
    forall d: ConnId ensures Occurs(Queue(v, w), d) == 0 && Lent(v.threads, w, d, n) == 0 {
      NothingLent(s.threads, w, d, n);
      ConnectionsConserved(s, run, w, d, n);
    }
    assert Queue(v, w) != [] ==> Occurs(Queue(v, w), Queue(v, w)[0]) > 0;
    ConnectionsConserved(s, run, w, c, n);
    if t in v.threads && InHand(v.threads[t], w, c) {
      HolderIsLent(v.threads, w, c, n, t);
    }
  }

  lemma {:induction false} NothingLent(threads: map<Thread, Place>, w: Which, c: ConnId, n: nat)
    requires forall t :: t in threads ==> threads[t].Outside?
    ensures Lent(threads, w, c, n) == 0
  {
    if n > 0 {
      NothingLent(threads, w, c, n - 1);
    }
  }

  lemma {:induction false} HolderIsLent(threads: map<Thread, Place>, w: Which, c: ConnId, n: nat, t: Thread)
    requires t in threads && t < n && InHand(threads[t], w, c)
    ensures Lent(threads, w, c, n) > 0
  {
    if t < n - 1 {
      HolderIsLent(threads, w, c, n - 1, t);
    }
  }

  lemma {:induction false} Bound(threads: map<Thread, Place>) returns (n: nat)
    ensures Below(threads, n)
    decreases |threads|
  {
    if t :| t in threads {
      var m := Bound(threads - {t});
      n := if t < m then m else t + 1;
      assert forall u :: u in threads && u != t ==> u in threads - {t};
    } else {
      n := 0;
    }
  }

  /** The queue of one pool; each method is one locked section. */
  class ConnectionPool {
    var conns_: seq<ConnId>

    constructor ()
      ensures conns_ == []
    {
      conns_ := [];
    }

    /** Numbers stand for the new connections; `first` and those above it are not in use. */
    method CreateConns(n: nat, first: ConnId)
      modifies this
      ensures |conns_| == |old(conns_)| + n && old(conns_) <= conns_
      ensures forall c: ConnId :: Occurs(conns_, c) == Occurs(old(conns_), c) + (if first <= c < first + n then 1 else 0)
    {
      ghost var before := conns_;
      var i := 0;
      while i < n
        invariant i <= n && |conns_| == |before| + i && before <= conns_
        invariant forall c: ConnId ::
          Occurs(conns_, c) == Occurs(before, c) + (if first <= c < first + i then 1 else 0)
      {
        forall c: ConnId ensures Occurs(conns_ + [first + i], c) == Occurs(conns_, c) + One(c == first + i) {
          OccursPushed(conns_, first + i, c);
        }
        conns_ := conns_ + [first + i];
        i := i + 1;
      }
    }

    /** The part of Get behind the wait: the front, or back to sleep when there is none. */
    method TryGet() returns (conn: Held)
      modifies this
      ensures conn.Nothing? <==> old(conns_) == []
      ensures old(conns_) == (if conn.Holding? then [conn.r] else []) + conns_
    {
      if conns_ == [] {
        return Nothing;
      }
      conn := Holding(conns_[0]);
      conns_ := conns_[1..];
    }

    method Put(c: ConnId)
      modifies this
      ensures conns_ == old(conns_) + [c]
    {
      conns_ := conns_ + [c];
    }
  }
}
