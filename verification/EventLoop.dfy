/** The task queue of one event loop and its wake-up descriptor, after Code/tcp/EventLoop.cpp,
    as a step relation: any number of other threads push tasks while the loop runs. */
module EventLoops {

  /** A queued closure: who queued it, and which one it is. */
  datatype Task = Task(producer: nat, id: nat)

  /** Where the loop thread is in Loop() and DoToDoList(). */
  datatype Place =
    | Idle                     // the object exists, Loop() has not been called yet
    | Polling                  // in Poll, or about to enter it
    | Handling(wakeup: bool)   // in the batch Poll returned; `wakeup`: its own descriptor is still to be read
    | Swapping                 // calling_funcs_ is set, the swap is not done yet
    | Running                  // in the batch of tasks

  datatype Loop = Loop(
    todo: seq<Task>,           // to_do_list_
    batch: seq<Task>,          // the rest of `funcs`
    counter: nat,              // of the eventfd
    calling: bool,             // calling_funcs_
    place: Place,
    unsent: nat,               // other threads between their push and their write
    selfUnsent: bool,          // the loop thread between its push and its write
    executed: seq<Task>,
    enqueued: seq<Task>,       // every push ever made, in order
    failed: bool)              // an assertion of the source was violated

  datatype Action =
    | EnterLoop
    | Push(task: Task)         // QueueOneFunc on another thread, under the lock
    | Write                    // ... and its write to the eventfd
    | SelfPush(task: Task)     // QueueOneFunc on the loop thread: before Loop(), from a handler, from a task
    | SelfWrite
    | PollReturns(others: bool, wakeup: bool)
    | ReadWakeup               // EventLoop::Read
    | EndHandling              // DoToDoList begins
    | Swap
    | RunTask
    | EndTasks

  ghost predicate Created(s: Loop) {
    s == Loop([], [], 0, false, Idle, 0, false, [], [], false)
  }

  /** A running loop with an empty queue. */
  ghost predicate Start(s: Loop) {
    s == Loop([], [], 0, false, Polling, 0, false, [], [], false)
  }

  /** Poll blocks without an event; it reports the wake-up descriptor only when it is readable. */
  ghost predicate Enabled(s: Loop, a: Action) {
    match a
    case EnterLoop => s.place.Idle?
    case Push(_) => true
    case Write => s.unsent > 0
    case SelfPush(_) => (s.place.Idle? || s.place.Handling? || s.place.Running?) && !s.selfUnsent
    case SelfWrite => s.selfUnsent
    case PollReturns(others, wakeup) => s.place.Polling? && (others || wakeup) && (wakeup ==> s.counter > 0)
    case ReadWakeup => s.place.Handling? && s.place.wakeup && !s.selfUnsent
    case EndHandling => s.place.Handling? && !s.place.wakeup && !s.selfUnsent
    case Swap => s.place.Swapping?
    case RunTask => s.place.Running? && s.batch != [] && !s.selfUnsent
    case EndTasks => s.place.Running? && s.batch == [] && !s.selfUnsent
  }

  ghost function Do(s: Loop, a: Action): Loop
    requires Enabled(s, a)
  {
    match a
    case EnterLoop => s.(place := Polling)
    case Push(t) => s.(todo := s.todo + [t], enqueued := s.enqueued + [t], unsent := s.unsent + 1)
    case Write => s.(unsent := s.unsent - 1, counter := s.counter + 1)
    case SelfPush(t) => s.(todo := s.todo + [t], enqueued := s.enqueued + [t], selfUnsent := s.calling)
    case SelfWrite => s.(selfUnsent := false, counter := s.counter + 1)
    case PollReturns(_, wakeup) => s.(place := Handling(wakeup))
    case ReadWakeup => s.(place := Handling(false), counter := 0, failed := s.failed || s.counter == 0)
    case EndHandling => s.(place := Swapping, calling := true)
    case Swap => s.(place := Running, batch := s.todo, todo := [])
    case RunTask => s.(executed := s.executed + [s.batch[0]], batch := s.batch[1..])
    case EndTasks => s.(place := Polling, calling := false)
  }

  ghost predicate Legal(s: Loop, run: seq<Action>)
    decreases |run|
  {
    run != [] ==> Enabled(s, run[0]) && Legal(Do(s, run[0]), run[1..])
  }

  ghost function Exec(s: Loop, run: seq<Action>): Loop
    requires Legal(s, run)
    decreases |run|
  {
    if run == [] then s else Exec(Do(s, run[0]), run[1..])
  }

  /** The loop is running or about to be woken. */
  ghost predicate Announced(s: Loop) {
    s.todo != [] ==> s.counter > 0 || s.unsent > 0
  }

  /** A task waits in the list of a running loop only while something will make the loop come round:
      the counter is positive, someone is about to raise it, or the loop itself is on its way to the
      swap. */
  ghost predicate NoLostWakeup(s: Loop) {
    s.todo != [] ==>
      s.counter > 0 || s.unsent > 0 || s.selfUnsent || s.place.Idle? || s.place.Handling? || s.place.Swapping?
  }

  ghost predicate Conserved(s: Loop) {
    s.executed + s.batch + s.todo == s.enqueued
  }

  ghost predicate Inv(s: Loop) {
    && NoLostWakeup(s)
    && Conserved(s)
    && (s.batch != [] ==> s.place.Running?)
    && (s.calling <==> s.place.Swapping? || s.place.Running?)
    && (s.selfUnsent ==> s.place.Running?)
    && (s.place.Handling? && s.place.wakeup ==> s.counter > 0)
    && !s.failed
  }

  lemma StepKeepsInv(s: Loop, a: Action)
    requires Inv(s) && Enabled(s, a) && (a.EnterLoop? ==> Announced(s))
    ensures Inv(Do(s, a)) && (!s.place.Idle? ==> !Do(s, a).place.Idle?)
  {
    match a
    case Push(t) => Regroup(s.executed + s.batch, s.todo, t);
    case SelfPush(t) => Regroup(s.executed + s.batch, s.todo, t);
    case Swap =>
      assert s.batch == [] && s.executed + [] == s.executed;
      assert s.executed + s.todo + [] == s.executed + s.todo;
    case RunTask =>
      assert s.batch == [s.batch[0]] + s.batch[1..];
      assert s.executed + [s.batch[0]] + s.batch[1..] == s.executed + s.batch;
    case _ =>
  }

  lemma Regroup(before: seq<Task>, todo: seq<Task>, t: Task)
    ensures before + (todo + [t]) == before + todo + [t]
  {
  }

  lemma {:induction false} ExecKeepsInv(s: Loop, run: seq<Action>)
    requires Inv(s) && !s.place.Idle? && Legal(s, run)
    ensures Inv(Exec(s, run)) && !Exec(s, run).place.Idle?
    decreases |run|
  {
    if run != [] {
      StepKeepsInv(s, run[0]);
      ExecKeepsInv(Do(s, run[0]), run[1..]);
    }
  }

  /** Starting from a running loop with an empty queue, no reachable state has lost a wake-up,
      and reading the descriptor never fails its assertion. */
  lemma WakeupProtocol(s: Loop, run: seq<Action>)
    requires Start(s) && Legal(s, run)
    ensures NoLostWakeup(Exec(s, run)) && !Exec(s, run).failed
  {
    ExecKeepsInv(s, run);
  }

  /** In particular the loop never sleeps over a task: with tasks waiting and no push half
      done, Poll returns at once. */
  lemma NeverSleepsOverTask(s: Loop, run: seq<Action>)
    requires Start(s) && Legal(s, run)
    ensures var t := Exec(s, run);
            t.todo != [] && t.place.Polling? && t.unsent == 0 ==> Enabled(t, PollReturns(false, true))
  {
    ExecKeepsInv(s, run);
  }

  /** What may happen before Loop() is called. */
  ghost predicate IsSetup(setup: seq<Action>) {
    forall i :: 0 <= i < |setup| ==> setup[i].Push? || setup[i].Write? || setup[i].SelfPush?
  }

  ghost predicate AnyPush(setup: seq<Action>) {
    exists i :: 0 <= i < |setup| && setup[i].Push?
  }

  ghost predicate AnySelfPush(setup: seq<Action>) {
    exists i :: 0 <= i < |setup| && setup[i].SelfPush?
  }

  /** During the setup only other threads announce what they queue. */
  lemma {:induction false} SetupState(s: Loop, setup: seq<Action>)
    requires Inv(s) && s.place.Idle? && IsSetup(setup) && Legal(s, setup)
    ensures var t := Exec(s, setup);
            && Inv(t) && t.place.Idle?
            && (t.todo != [] <==> s.todo != [] || AnyPush(setup) || AnySelfPush(setup))
            && (t.counter > 0 || t.unsent > 0 <==> s.counter > 0 || s.unsent > 0 || AnyPush(setup))
    decreases |setup|
  {
    if setup != [] {
      StepKeepsInv(s, setup[0]);
      SetupState(Do(s, setup[0]), setup[1..]);
      FirstPush(setup);
    }
  }

  lemma FirstPush(setup: seq<Action>)
    requires setup != []
    ensures AnyPush(setup) <==> setup[0].Push? || AnyPush(setup[1..])
    ensures AnySelfPush(setup) <==> setup[0].SelfPush? || AnySelfPush(setup[1..])
  {
    assert forall i :: 0 < i < |setup| ==> setup[i] == setup[1..][i - 1];
  }

  ghost predicate NeverLosesWakeup(s: Loop) {
    forall run :: Legal(s, run) ==> NoLostWakeup(Exec(s, run))
  }

  lemma LostAlready(s: Loop)
    requires !NoLostWakeup(s)
    ensures !NeverLosesWakeup(s)
  {
    assert Legal(s, []) && !NoLostWakeup(Exec(s, []));
  }

  /** A wake-up is lost in some run of the loop exactly when its own thread queued something before
      Loop() and no other thread did: that task is not announced. */
  lemma QueuedBeforeLoop(s: Loop, setup: seq<Action>)
    requires Created(s) && IsSetup(setup) && Legal(s, setup)
    ensures Enabled(Exec(s, setup), EnterLoop)
    ensures NeverLosesWakeup(Do(Exec(s, setup), EnterLoop)) <==> !AnySelfPush(setup) || AnyPush(setup)
  {
    SetupState(s, setup);
    var idle := Exec(s, setup);
    var t := Do(idle, EnterLoop);
    if !AnySelfPush(setup) || AnyPush(setup) {
      StepKeepsInv(idle, EnterLoop);
      forall run | Legal(t, run) ensures NoLostWakeup(Exec(t, run)) {
        ExecKeepsInv(t, run);
      }
    } else {
      LostAlready(t);
    }
  }

  /** Tasks run, then the rest of the batch, then the list: exactly the pushes, in order. */
  lemma TaskOrder(s: Loop, run: seq<Action>)
    requires Start(s) && Legal(s, run)
    ensures Conserved(Exec(s, run))
    ensures Exec(s, run).executed <= Exec(s, run).enqueued
  {
    ExecKeepsInv(s, run);
    var t := Exec(s, run);
    assert t.executed + t.batch + t.todo == t.executed + (t.batch + t.todo);
  }

  ghost function OfProducer(tasks: seq<Task>, p: nat): seq<Task> {
    if tasks == [] then [] else IfOf(tasks[0], p) + OfProducer(tasks[1..], p)
  }

  ghost function IfOf(t: Task, p: nat): seq<Task> {
    if t.producer == p then [t] else []
  }

  lemma Associate(a: seq<Task>, b: seq<Task>, c: seq<Task>)
    ensures a + (b + c) == a + b + c
  {
  }

  lemma {:induction false} OfProducerOfPrefix(a: seq<Task>, b: seq<Task>, p: nat)
    ensures OfProducer(a + b, p) == OfProducer(a, p) + OfProducer(b, p)
  {
    if a == [] {
      assert [] + b == b;
    } else {
      var rest := a[1..] + b;
      assert a + b == [a[0]] + rest;
      OfProducerOfPrefix(a[1..], b, p);
      Associate(IfOf(a[0], p), OfProducer(a[1..], p), OfProducer(b, p));
    }
  }

  /** Each producer's tasks run in the order it queued them, none skipped and none twice. */
  lemma ProducerOrder(s: Loop, run: seq<Action>, p: nat)
    requires Start(s) && Legal(s, run)
    ensures OfProducer(Exec(s, run).executed, p) <= OfProducer(Exec(s, run).enqueued, p)
  {
    TaskOrder(s, run);
    var t := Exec(s, run);
    OfProducerOfPrefix(t.executed, t.enqueued[|t.executed|..], p);
    assert t.executed + t.enqueued[|t.executed|..] == t.enqueued;
  }

  // ---- progress: a continuation that needs no new event from outside runs every waiting task

  /** The step the loop thread, or a producer that is half done, can take next. */
  ghost function NextStep(s: Loop): Action {
    if s.unsent > 0 then Write
    else if s.selfUnsent then SelfWrite
    else match s.place
      case Idle => EnterLoop
      case Polling => PollReturns(false, true)
      case Handling(wakeup) => if wakeup then ReadWakeup else EndHandling
      case Swapping => Swap
      case Running => if s.batch != [] then RunTask else EndTasks
  }

  ghost function PlaceRank(s: Loop): nat {
    match s.place
    case Idle => 0
    case Running => 4
    case Polling => 3
    case Handling(wakeup) => if wakeup then 2 else 1
    case Swapping => 0
  }

  /** Steps left before the last waiting task has run: half-done pushes, tasks in the list
      (each will be moved and run), and the way round to the swap. */
  ghost function Distance(s: Loop): nat {
    s.unsent + (if s.selfUnsent then 1 else 0) + |s.batch| + 6 * (|s.todo| + (if s.todo != [] then PlaceRank(s) else 0))
  }

  lemma NextStepAdvances(s: Loop)
    requires Inv(s) && !s.place.Idle? && s.executed != s.enqueued
    ensures Enabled(s, NextStep(s))
    ensures Do(s, NextStep(s)).enqueued == s.enqueued
    ensures Distance(Do(s, NextStep(s))) < Distance(s)
  {
    assert s.executed + [] + [] == s.executed;
  }

  /** From every reachable state the loop can finish: a run without new pushes exists, no longer
      than Distance, after which every task pushed so far has run. */
  lemma {:induction false} EveryTaskRuns(s: Loop) returns (run: seq<Action>)
    requires Inv(s) && !s.place.Idle?
    ensures Legal(s, run) && |run| <= Distance(s)
    ensures Exec(s, run).executed == s.enqueued
    ensures forall a :: a in run ==> !a.Push? && !a.SelfPush?
    decreases Distance(s)
  {
    if s.executed == s.enqueued {
      run := [];
    } else {
      NextStepAdvances(s);
      StepKeepsInv(s, NextStep(s));
      var rest := EveryTaskRuns(Do(s, NextStep(s)));
      run := [NextStep(s)] + rest;
      assert run[0] == NextStep(s) && run[1..] == rest;
    }
  }

  // ---- and in every run

  /** The steps of the loop itself, apart from what its handlers and tasks queue. */
  ghost predicate IsLoopStep(a: Action) {
    a.PollReturns? || a.ReadWakeup? || a.EndHandling? || a.Swap? || a.RunTask? || a.EndTasks?
  }

  ghost function LoopSteps(run: seq<Action>): nat {
    if run == [] then 0 else (if IsLoopStep(run[0]) then 1 else 0) + LoopSteps(run[1..])
  }

  /** How many of them it takes until the first k tasks ever queued have run. */
  ghost function StepsTo(s: Loop, k: nat): nat {
    if k <= |s.executed| then 0
    else if k <= |s.executed| + |s.batch| then k - |s.executed|
    else
      k - |s.executed| + match s.place
                         case Idle => 0
                         case Polling => 4
                         case Handling(wakeup) => if wakeup then 3 else 2
                         case Swapping => 1
                         case Running => 5
  }

  /** Each of them brings the loop closer, and nothing else that happens sets it back. */
  lemma StepComesCloser(s: Loop, a: Action, k: nat)
    requires Inv(s) && !s.place.Idle? && Enabled(s, a) && k <= |s.enqueued|
    ensures |s.executed| <= |Do(s, a).executed| && |s.enqueued| <= |Do(s, a).enqueued|
    ensures s.enqueued == Do(s, a).enqueued[..|s.enqueued|]
    ensures if IsLoopStep(a) && k > |s.executed| then StepsTo(Do(s, a), k) < StepsTo(s, k)
            else StepsTo(Do(s, a), k) <= StepsTo(s, k)
  {
    assert |s.executed| + |s.batch| + |s.todo| == |s.enqueued|;
  }

  lemma {:induction false} EveryRunComesTo(s: Loop, run: seq<Action>, k: nat)
    requires Inv(s) && !s.place.Idle? && Legal(s, run) && k <= |s.enqueued|
    requires LoopSteps(run) >= StepsTo(s, k)
    ensures k <= |Exec(s, run).executed| && s.enqueued <= Exec(s, run).enqueued
    decreases |run|
  {
    hide Inv, Do;
    if run != [] {
      StepKeepsInv(s, run[0]);
      StepComesCloser(s, run[0], k);
      EveryRunComesTo(Do(s, run[0]), run[1..], k);
    }
  }

  /** In every run, whatever is queued meanwhile and by whomever: once the loop has taken one step for each
      task that was waiting, and five more to come round, all of them have run. */
  lemma EveryRunRunsTasks(s: Loop, run: seq<Action>)
    requires Inv(s) && !s.place.Idle? && Legal(s, run)
    requires LoopSteps(run) >= |s.batch| + |s.todo| + 5
    ensures s.enqueued <= Exec(s, run).executed
  {
    hide Inv, Legal, Exec;
    WaitingLength(s);
    EveryRunComesTo(s, run, |s.enqueued|);
    ExecKeepsInv(s, run);
    ExecutedFirst(Exec(s, run));
    ShorterPrefix(s.enqueued, Exec(s, run).executed, Exec(s, run).enqueued);
  }

  lemma WaitingLength(s: Loop)
    requires Inv(s)
    ensures |s.executed| + |s.batch| + |s.todo| == |s.enqueued|
    ensures !s.place.Idle? ==> StepsTo(s, |s.enqueued|) <= |s.batch| + |s.todo| + 5
  {
  }

  lemma ExecutedFirst(s: Loop)
    requires Inv(s)
    ensures s.executed <= s.enqueued
  {
    Regrouped(s.executed, s.batch, s.todo);
  }

  lemma ShorterPrefix(x: seq<Task>, y: seq<Task>, z: seq<Task>)
    requires x <= z && y <= z && |x| <= |y|
    ensures x <= y
  {
  }

  /** How often Poll reports the wake-up descriptor. */
  ghost function Wakeups(run: seq<Action>): nat {
    if run == [] then 0 else (if run[0].PollReturns? && run[0].wakeup then 1 else 0) + Wakeups(run[1..])
  }

  /** How often the descriptor is written to. */
  ghost function Writes(run: seq<Action>): nat {
    if run == [] then 0 else (if run[0].Write? || run[0].SelfWrite? then 1 else 0) + Writes(run[1..])
  }

  /** The loop does not spin: Poll reports the descriptor at most once for each write to it, and once more if
      it is readable at the start. */
  lemma {:induction false} NeverSpins(s: Loop, run: seq<Action>)
    requires Legal(s, run)
    ensures Wakeups(run) <= Writes(run) + if s.counter > 0 && s.place != Handling(true) then 1 else 0
    decreases |run|
  {
    if run != [] {
      NeverSpins(Do(s, run[0]), run[1..]);
    }
  }

  function Flat(ss: seq<seq<Task>>): seq<Task> {
    if ss == [] then [] else Flat(ss[..|ss| - 1]) + ss[|ss| - 1]
  }

  /** The object itself, when no other thread comes in between: a push with its announcement, and a
      whole round of tasks, are the steps above in sequence. */
  class EventLoop {
    var to_do_list_: seq<Task>
    var calling_funcs_: bool
    var wakeups: nat
    ghost var place: Place
    ghost var funcs: seq<Task>
    ghost var unsent: nat
    ghost var selfUnsent: bool
    ghost var executed: seq<Task>
    ghost var enqueued: seq<Task>
    ghost var failed: bool

    ghost function View(): Loop
      reads this
    {
      Loop(to_do_list_, funcs, wakeups, calling_funcs_, place, unsent, selfUnsent, executed, enqueued, failed)
    }

    constructor ()
      ensures Created(View()) && Inv(View())
    {
      to_do_list_, calling_funcs_, wakeups, place, funcs := [], false, 0, Idle, [];
      unsent, selfUnsent, executed, enqueued, failed := 0, false, [], [], false;
    }

    /** `inLoop`: called on the loop's own thread. */
    method QueueOneFunc(t: Task, inLoop: bool)
      requires Inv(View()) && (inLoop ==> Enabled(View(), SelfPush(t)))
      modifies this
      ensures Inv(View())
      ensures var s := Do(old(View()), if inLoop then SelfPush(t) else Push(t));
              View() == if inLoop && !old(calling_funcs_) then s else Do(s, if inLoop then SelfWrite else Write)
      ensures to_do_list_ == old(to_do_list_) + [t] && enqueued == old(enqueued) + [t] && executed == old(executed)
      ensures wakeups == old(wakeups) + if inLoop && !old(calling_funcs_) then 0 else 1
      ensures calling_funcs_ == old(calling_funcs_) && place == old(place) && funcs == old(funcs)
    {
      ghost var pushed := Do(View(), if inLoop then SelfPush(t) else Push(t));
      StepKeepsInv(View(), if inLoop then SelfPush(t) else Push(t));
      to_do_list_ := to_do_list_ + [t];
      enqueued := enqueued + [t];
      if !inLoop || calling_funcs_ {
        StepKeepsInv(pushed, if inLoop then SelfWrite else Write);
        wakeups := wakeups + 1;
      }
    }

    /** The wake-up descriptor is read empty; reading it when it is not readable would fail. */
    method Read() returns (ok: bool)
      requires Inv(View()) && Enabled(View(), ReadWakeup)
      modifies this
      ensures ok && Inv(View()) && View() == Do(old(View()), ReadWakeup)
      ensures wakeups == 0 && place == Handling(false) && to_do_list_ == old(to_do_list_)
    {
      StepKeepsInv(View(), ReadWakeup);
      ok := wakeups > 0;
      wakeups, place := 0, Handling(false);
    }

    /** A task of the batch queues further tasks, one after the other. */
    method RunOne(t: Task, spawned: seq<Task>)
      requires Inv(View()) && place == Running && !selfUnsent && funcs != [] && funcs[0] == t
      modifies this
      ensures Inv(View()) && place == Running && !selfUnsent && calling_funcs_
      ensures executed == old(executed) + [t] && funcs == old(funcs)[1..]
      ensures to_do_list_ == old(to_do_list_) + spawned && enqueued == old(enqueued) + spawned
      ensures wakeups == old(wakeups) + |spawned| && unsent == old(unsent) && failed == old(failed)
    {
      StepKeepsInv(View(), RunTask);
      executed, funcs := executed + [t], funcs[1..];
      ghost var before, sent := to_do_list_, enqueued;
      assert before + [] == before && sent + [] == sent;
      for j := 0 to |spawned|
        invariant Inv(View()) && place == Running && !selfUnsent && calling_funcs_
        invariant executed == old(executed) + [t] && funcs == old(funcs)[1..]
        invariant to_do_list_ == before + spawned[..j] && enqueued == sent + spawned[..j]
        invariant wakeups == old(wakeups) + j && unsent == old(unsent) && failed == old(failed)
      {
        QueueOneFunc(spawned[j], true);
        Snoc(before, spawned, j);
        Snoc(sent, spawned, j);
      }
      assert spawned[..|spawned|] == spawned;
    }

    /** The swap under the lock. */
    method TakeBatch() returns (batch: seq<Task>)
      requires Inv(View()) && Enabled(View(), EndHandling)
      modifies this
      ensures Inv(View()) && calling_funcs_ && place == Running && !selfUnsent
      ensures batch == funcs == old(to_do_list_) && to_do_list_ == []
      ensures executed == old(executed) && enqueued == old(enqueued) && wakeups == old(wakeups)
    {
      StepKeepsInv(View(), EndHandling);
      calling_funcs_, place := true, Swapping;
      StepKeepsInv(View(), Swap);
      batch := to_do_list_;
      funcs, to_do_list_, place := batch, [], Running;
    }

    /** The last task has run. */
    method EndBatch()
      requires Inv(View()) && Enabled(View(), EndTasks)
      modifies this`calling_funcs_, this`place
      ensures Inv(View()) && !calling_funcs_ && place == Polling
    {
      StepKeepsInv(View(), EndTasks);
      calling_funcs_, place := false, Polling;
    }

    /** All tasks that are queued run once, in order; `spawned` are those that each of them queues, which
        are left for the next round and announced. */
    method DoToDoList(spawned: seq<seq<Task>>)
      requires Inv(View()) && Enabled(View(), EndHandling) && |spawned| == |to_do_list_|
      modifies this
      ensures Inv(View()) && !calling_funcs_ && place == Polling
      ensures executed == old(executed) + old(to_do_list_) && to_do_list_ == Flat(spawned)
      ensures enqueued == old(enqueued) + Flat(spawned) && wakeups == old(wakeups) + |Flat(spawned)|
    {
      hide Inv;
      var batch := TakeBatch();
      ghost var before, sent := executed, enqueued;
      assert before + [] == before && sent + [] == sent;
      for i := 0 to |batch|
        invariant Inv(View()) && place == Running && !selfUnsent && calling_funcs_
        invariant funcs == batch[i..] && executed == before + batch[..i]
        invariant to_do_list_ == Flat(spawned[..i]) && enqueued == sent + Flat(spawned[..i])
        invariant wakeups == old(wakeups) + |Flat(spawned[..i])|
      {
        RunOne(batch[i], spawned[i]);
        Snoc(before, batch, i);
        FlatSnoc(spawned, i);
        Regrouped(sent, Flat(spawned[..i]), spawned[i]);
      }
      assert batch[..|batch|] == batch && spawned[..|spawned|] == spawned;
      EndBatch();
    }
  }

  lemma Snoc(before: seq<Task>, tasks: seq<Task>, j: nat)
    requires j < |tasks|
    ensures before + tasks[..j] + [tasks[j]] == before + tasks[..j + 1]
  {
  }

  lemma FlatSnoc(ss: seq<seq<Task>>, i: nat)
    requires i < |ss|
    ensures Flat(ss[..i + 1]) == Flat(ss[..i]) + ss[i]
  {
    assert ss[..i + 1][..i] == ss[..i];
  }

  lemma Regrouped(a: seq<Task>, b: seq<Task>, c: seq<Task>)
    ensures a + b + c == a + (b + c)
  {
  }
}
