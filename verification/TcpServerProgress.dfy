/** Every connection that was closed can be finished: the tasks that are queued for it lead to its
    erasure and its destruction, without any new event from outside. */
module TcpServerProgress {
  import opened TcpServers

  /** What the loops do by themselves: come round and run their tasks. */
  ghost predicate Serves(a: Action) {
    a.PollReturns? || a.Swap? || a.RunTask? || a.EndTasks?
  }

  ghost predicate Serving(run: seq<Action>) {
    forall i :: 0 <= i < |run| ==> Serves(run[i])
  }

  /** No connection is new or newly closed, and none goes back. */
  ghost predicate Further(s: Server, t: Server) {
    && |t.conns| == |s.conns| && t.loops.Keys == s.loops.Keys
    && forall c :: 0 <= c < |s.conns| ==>
         && t.conns[c].loop == s.conns[c].loop && t.conns[c].closed == s.conns[c].closed
         && (s.conns[c].erased ==> t.conns[c].erased) && (s.conns[c].destroyed ==> t.conns[c].destroyed)
  }

  lemma RunOneGoesFurther(s: Server, t: Task)
    requires t.c < |s.conns| && s.conns[t.c].loop in s.loops
    ensures Further(s, RunOne(s, t))
  {
    var v := RunOne(s, t);
    assert |v.conns| == |s.conns| && v.loops.Keys == s.loops.Keys;
    assert forall c :: 0 <= c < |s.conns| && c != t.c ==> v.conns[c] == s.conns[c];
  }

  lemma ServingGoesFurther(s: Server, a: Action)
    requires Enabled(s, a) && Serves(a)
    ensures Further(s, Do(s, a))
  {
    if a.RunTask? {
      var t := s.loops[a.loop].phase.rest[0];
      var taken := s.(loops := Taken(s.loops, a.loop), log := s.log + [Ran(t)]);
      assert taken.loops.Keys == s.loops.Keys;
      hide RunOne;
      RunOneGoesFurther(taken, t);
    }
  }

  lemma StepGoesFurther(s: Server, a: Action)
    requires Inv(s) && Enabled(s, a) && Serves(a)
    ensures Inv(Do(s, a)) && Further(s, Do(s, a))
  {
    hide Inv, Do, Enabled, Further;
    StepKeepsInv(s, a);
    ServingGoesFurther(s, a);
  }

  lemma {:induction false} RunGoesFurther(s: Server, run: seq<Action>)
    requires Inv(s) && Legal(s, run) && Serving(run)
    ensures Inv(Exec(s, run)) && Further(s, Exec(s, run))
    decreases |run|
  {
    hide Inv, Do, Enabled;
    if run != [] {
      StepGoesFurther(s, run[0]);
      RunGoesFurther(Do(s, run[0]), run[1..]);
    }
  }

  lemma {:induction false} ExecConcat(s: Server, x: seq<Action>, y: seq<Action>)
    requires Legal(s, x) && Legal(Exec(s, x), y)
    ensures Legal(s, x + y) && Exec(s, x + y) == Exec(Exec(s, x), y)
    decreases |x|
  {
    hide Do, Enabled;
    if x == [] {
      assert x + y == y;
    } else {
      assert (x + y)[1..] == x[1..] + y;
      ExecConcat(Do(s, x[0]), x[1..], y);
    }
  }

  lemma ConsRun(s: Server, a: Action, rest: seq<Action>)
    requires Enabled(s, a) && Legal(Do(s, a), rest)
    ensures Legal(s, [a] + rest) && Exec(s, [a] + rest) == Exec(Do(s, a), rest)
  {
    hide Do, Enabled;
    assert ([a] + rest)[1..] == rest;
  }

  // ---- one task

  /** The way of a loop to its next task. */
  ghost function Rank(l: Loop): nat {
    match l.phase
    case Tasks(_, rest) => if rest == [] then 3 else 0
    case Polling => 2
    case Handling(_) => 1
  }

  /** The next step of a loop that has tasks. */
  ghost function NextStep(s: Server, l: LoopId): Action
    requires l in s.loops
  {
    match s.loops[l].phase
    case Polling => PollReturns(l, {})
    case Handling(_) => Swap(l)
    case Tasks(_, rest) => if rest == [] then EndTasks(l) else RunTask(l)
  }

  /** It is one closer to every task that waits on the loop, or runs it. */
  lemma NextStepComesCloser(s: Server, l: LoopId, i: nat)
    requires Inv(s) && l in s.loops && i < |Pending(s.loops[l])|
    ensures Enabled(s, NextStep(s, l)) && Serves(NextStep(s, l)) && l in Do(s, NextStep(s, l)).loops
    ensures var t, v := Pending(s.loops[l])[i], Do(s, NextStep(s, l));
            var p := Pending(v.loops[l]);
            if Rank(s.loops[l]) > 0 then p == Pending(s.loops[l]) && Rank(v.loops[l]) < Rank(s.loops[l])
            else if i > 0 then i - 1 < |p| && p[i - 1] == t
            else t.c < |v.conns| && !DueFor(v.conns[t.c], l, t)
  {
    if Rank(s.loops[l]) == 0 {
      FirstIsDue(s, l);
    }
  }

  /** A task that waits on a loop will have run. */
  lemma {:induction false} RunUntil(s: Server, l: LoopId, i: nat) returns (run: seq<Action>)
    requires Inv(s) && l in s.loops && i < |Pending(s.loops[l])|
    ensures Legal(s, run) && Serving(run)
    ensures var t, v := Pending(s.loops[l])[i], Exec(s, run);
            t.c < |v.conns| && !DueFor(v.conns[t.c], l, t)
    decreases i, Rank(s.loops[l])
  {
    hide Inv, Do, Enabled, DueFor;
    NextStepComesCloser(s, l, i);
    var a := NextStep(s, l);
    StepGoesFurther(s, a);
    var rest := [];
    if Rank(s.loops[l]) > 0 {
      rest := RunUntil(Do(s, a), l, i);
    } else if i > 0 {
      rest := RunUntil(Do(s, a), l, i - 1);
    }
    ConsRun(s, a, rest);
    run := [a] + rest;
  }

  /** What is due has a task that waits. */
  lemma DueWaits(s: Server, l: LoopId, t: Task) returns (i: nat)
    requires Inv(s) && l in s.loops && t.c < |s.conns| && DueFor(s.conns[t.c], l, t)
    ensures i < |Pending(s.loops[l])| && Pending(s.loops[l])[i] == t
  {
    assert Count(s.loops, l, t) == Due(s.conns, l, t);
    assert t in Pending(s.loops[l]);
    i :| 0 <= i < |Pending(s.loops[l])| && Pending(s.loops[l])[i] == t;
  }

  // ---- one connection, then all

  lemma Erases(s: Server, c: ConnId) returns (run: seq<Action>)
    requires Inv(s) && c < |s.conns| && s.conns[c].closed
    ensures Legal(s, run) && Serving(run) && c < |Exec(s, run).conns| && Exec(s, run).conns[c].erased
  {
    if s.conns[c].erased {
      run := [];
    } else {
      var i := DueWaits(s, MAIN, CloseInMain(c));
      run := RunUntil(s, MAIN, i);
      RunGoesFurther(s, run);
    }
  }

  lemma Destroys(s: Server, c: ConnId) returns (run: seq<Action>)
    requires Inv(s) && c < |s.conns| && s.conns[c].erased
    ensures Legal(s, run) && Serving(run) && c < |Exec(s, run).conns| && Exec(s, run).conns[c].destroyed
  {
    if s.conns[c].destroyed {
      run := [];
    } else {
      assert ConnRight(s.conns[c], c, s.connections, s.loops.Keys);
      var l := s.conns[c].loop;
      var i := DueWaits(s, l, Destroy(c));
      run := RunUntil(s, l, i);
      RunGoesFurther(s, run);
    }
  }

  lemma Finishes(s: Server, c: ConnId) returns (run: seq<Action>)
    requires Inv(s) && c < |s.conns| && s.conns[c].closed
    ensures Legal(s, run) && Serving(run) && c < |Exec(s, run).conns| && Exec(s, run).conns[c].destroyed
  {
    hide Inv;
    var x := Erases(s, c);
    RunGoesFurther(s, x);
    var y := Destroys(Exec(s, x), c);
    ExecConcat(s, x, y);
    run := x + y;
  }

  ghost function Unfinished(s: Server): set<ConnId> {
    set c: ConnId | 0 <= c < |s.conns| && s.conns[c].closed && !s.conns[c].destroyed
  }

  lemma {:induction false} FinishesAll(s: Server) returns (run: seq<Action>)
    requires Inv(s)
    ensures Legal(s, run) && Serving(run) && Unfinished(Exec(s, run)) == {}
    decreases |Unfinished(s)|
  {
    hide Inv;
    if c :| c in Unfinished(s) {
      var x := Finishes(s, c);
      RunGoesFurther(s, x);
      var t := Exec(s, x);
      assert Unfinished(t) <= Unfinished(s) - {c};
      Smaller(Unfinished(t), Unfinished(s), c);
      var y := FinishesAll(t);
      ExecConcat(s, x, y);
      run := x + y;
    } else {
      run := [];
    }
  }

  lemma Smaller(t: set<ConnId>, s: set<ConnId>, c: ConnId)
    requires c in s && t <= s - {c}
    ensures |t| < |s|
  {
    assert |s - {c}| == |s| - 1;
    SubsetSize(t, s - {c});
  }

  lemma {:induction false} SubsetSize(t: set<ConnId>, s: set<ConnId>)
    requires t <= s
    ensures |t| <= |s|
  {
    if c :| c in t {
      SubsetSize(t - {c}, s - {c});
    }
  }

  /** From every reachable state a run of the loops alone, without new connections, reads or closes,
      leads every connection that was closed to its erasure and its destruction. */
  lemma EveryCloseFinishes(s: Server, run: seq<Action>) returns (more: seq<Action>)
    requires Start(s) && Legal(s, run)
    ensures Legal(Exec(s, run), more) && Serving(more)
    ensures var t, v := Exec(s, run), Exec(Exec(s, run), more);
            |v.conns| == |t.conns|
            && forall c :: 0 <= c < |t.conns| && t.conns[c].closed ==> v.conns[c].erased && v.conns[c].destroyed
  {
    StartHasInv(s);
    ExecKeepsInv(s, run);
    var t := Exec(s, run);
    more := FinishesAll(t);
    RunGoesFurther(t, more);
    var v := Exec(t, more);
    forall c | 0 <= c < |t.conns| && t.conns[c].closed ensures v.conns[c].erased && v.conns[c].destroyed {
      assert c !in Unfinished(v);
      assert ConnRight(v.conns[c], c, v.connections, v.loops.Keys);
    }
  }

  // ---- not one run, but every run

  /** A step that the loop takes itself. */
  ghost predicate IsStepOf(a: Action, l: LoopId) {
    match a
    case PollReturns(k, _) => k == l
    case Swap(k) => k == l
    case RunTask(k) => k == l
    case EndTasks(k) => k == l
    case _ => false
  }

  ghost function StepsOf(run: seq<Action>, l: LoopId): nat {
    if run == [] then 0 else (if IsStepOf(run[0], l) then 1 else 0) + StepsOf(run[1..], l)
  }

  /** How many of its own steps a loop takes until the i-th waiting task has run. */
  ghost function StepsTo(l: Loop, i: nat): nat {
    i + 1 + match l.phase
            case Tasks(_, rest) => if i < |rest| then 0 else 3
            case Polling => 2
            case Handling(_) => 1
  }

  /** Steps that are not the loop's own leave its phase alone and only append to its list. */
  lemma OthersOnlyPush(s: Server, a: Action, l: LoopId)
    requires Enabled(s, a) && l in s.loops && !IsStepOf(a, l)
    ensures l in Do(s, a).loops && Do(s, a).loops[l].phase == s.loops[l].phase
    ensures s.loops[l].queue <= Do(s, a).loops[l].queue
  {
  }

  lemma PushedKeepsTurn(x: Loop, y: Loop, i: nat)
    requires x.phase == y.phase && x.queue <= y.queue && i < |Pending(x)|
    ensures i < |Pending(y)| && Pending(y)[i] == Pending(x)[i] && StepsTo(y, i) == StepsTo(x, i)
  {
  }

  lemma RunOnePushes(s: Server, t: Task, l: LoopId)
    requires t.c < |s.conns| && s.conns[t.c].loop in s.loops && l in s.loops
    ensures l in RunOne(s, t).loops && RunOne(s, t).loops[l].phase == s.loops[l].phase
    ensures s.loops[l].queue <= RunOne(s, t).loops[l].queue
  {
  }

  lemma TakenAdvances(loops: map<LoopId, Loop>, l: LoopId, i: nat)
    requires l in loops && loops[l].phase.Tasks? && loops[l].phase.rest != [] && 0 < i < |Pending(loops[l])|
    ensures l in Taken(loops, l)
    ensures var x, y := loops[l], Taken(loops, l)[l];
            i - 1 < |Pending(y)| && Pending(y)[i - 1] == Pending(x)[i] && StepsTo(y, i - 1) < StepsTo(x, i)
  {
    PendingTaken(loops, l);
  }

  /** The loop's own step runs the first waiting task or moves on to the next phase. */
  lemma OwnStepAdvances(s: Server, a: Action, l: LoopId, i: nat)
    requires Enabled(s, a) && l in s.loops && IsStepOf(a, l) && i < |Pending(s.loops[l])|
    ensures l in Do(s, a).loops
    ensures var t, p, v := Pending(s.loops[l])[i], Pending(Do(s, a).loops[l]), Do(s, a).loops[l];
            if a.RunTask? then i > 0 ==> i - 1 < |p| && p[i - 1] == t && StepsTo(v, i - 1) < StepsTo(s.loops[l], i)
            else p == Pending(s.loops[l]) && StepsTo(v, i) < StepsTo(s.loops[l], i)
  {
    if a.RunTask? {
      var t := s.loops[l].phase.rest[0];
      var taken := s.(loops := Taken(s.loops, l), log := s.log + [Ran(t)]);
      hide RunOne, StepsTo, Pending;
      RunOnePushes(taken, t, l);
      if i > 0 {
        TakenAdvances(s.loops, l, i);
        PushedKeepsTurn(taken.loops[l], Do(s, a).loops[l], i - 1);
      }
    }
  }

  lemma FirstRuns(s: Server, l: LoopId)
    requires Inv(s) && Enabled(s, RunTask(l))
    ensures HasRun(Do(s, RunTask(l)), Pending(s.loops[l])[0])
  {
    FirstIsDue(s, l);
  }

  /** A connection never goes back, whatever happens. */
  ghost predicate Later(s: Server, t: Server) {
    && |s.conns| <= |t.conns| && s.loops.Keys == t.loops.Keys
    && forall c :: 0 <= c < |s.conns| ==>
         && t.conns[c].loop == s.conns[c].loop && (s.conns[c].established ==> t.conns[c].established)
         && (s.conns[c].closed ==> t.conns[c].closed) && (s.conns[c].erased ==> t.conns[c].erased)
         && (s.conns[c].destroyed ==> t.conns[c].destroyed)
  }

  lemma RunOneIsLater(s: Server, t: Task)
    requires t.c < |s.conns| && s.conns[t.c].loop in s.loops
    ensures Later(s, RunOne(s, t))
  {
    var v := RunOne(s, t);
    assert |v.conns| == |s.conns| && v.loops.Keys == s.loops.Keys;
    assert forall c :: 0 <= c < |s.conns| && c != t.c ==> v.conns[c] == s.conns[c];
  }

  /** One record goes forward, the others stay. */
  lemma RecordIsLater(s: Server, v: Server, c: ConnId)
    requires c < |s.conns| && |v.conns| == |s.conns| && v.loops.Keys == s.loops.Keys
    requires v.conns == s.conns[c := v.conns[c]]
    requires var x, y := s.conns[c], v.conns[c];
             && y.loop == x.loop && (x.established ==> y.established) && (x.closed ==> y.closed)
             && (x.erased ==> y.erased) && (x.destroyed ==> y.destroyed)
    ensures Later(s, v)
  {
  }

  lemma CloseIsLater(s: Server, c: ConnId)
    requires Enabled(s, Close(c))
    ensures Later(s, Do(s, Close(c)))
  {
    hide Later;
    var v := Do(s, Close(c));
    assert v.loops.Keys == s.loops.Keys;
    RecordIsLater(s, v, c);
  }

  lemma StepIsLater(s: Server, a: Action)
    requires Enabled(s, a)
    ensures Later(s, Do(s, a))
  {
    if a.RunTask? {
      var t := s.loops[a.loop].phase.rest[0];
      var taken := s.(loops := Taken(s.loops, a.loop), log := s.log + [Ran(t)]);
      assert taken.loops.Keys == s.loops.Keys;
      hide RunOne;
      RunOneIsLater(taken, t);
    } else if a.Close? {
      hide Do, Later;
      CloseIsLater(s, a.c);
    }
  }

  lemma {:induction false} RunIsLater(s: Server, run: seq<Action>)
    requires Inv(s) && Legal(s, run)
    ensures Inv(Exec(s, run)) && Later(s, Exec(s, run))
    decreases |run|
  {
    hide Inv, Do, Enabled;
    if run != [] {
      StepKeepsInv(s, run[0]);
      StepIsLater(s, run[0]);
      RunIsLater(Do(s, run[0]), run[1..]);
    }
  }

  /** The task has run: it is not due any more and never will be. */
  ghost predicate HasRun(s: Server, t: Task) {
    t.c < |s.conns| &&
    match t
    case Establish(c) => s.conns[c].established
    case CloseInMain(c) => s.conns[c].erased
    case Destroy(c) => s.conns[c].destroyed
  }

  lemma HasRunStays(s: Server, v: Server, t: Task)
    requires Later(s, v) && HasRun(s, t)
    ensures HasRun(v, t)
  {
  }

  /** In every legal run, whatever else happens in it, a task that waits on a loop has run once that loop
      has taken enough steps of its own: one for each task up to it, and at most three to come round. */
  lemma {:induction false} EveryRunComesTo(s: Server, run: seq<Action>, l: LoopId, i: nat)
    requires Inv(s) && Legal(s, run) && l in s.loops && i < |Pending(s.loops[l])|
    requires StepsOf(run, l) >= StepsTo(s.loops[l], i)
    ensures HasRun(Exec(s, run), Pending(s.loops[l])[i])
    decreases |run|
  {
    assert StepsTo(s.loops[l], i) > 0;
    hide Inv, Do, Enabled, DueFor, StepsTo, Later, HasRun, Pending;
    var t, a := Pending(s.loops[l])[i], run[0];
    var v, rest := Do(s, a), run[1..];
    StepKeepsInv(s, a);
    if !IsStepOf(a, l) {
      OthersOnlyPush(s, a, l);
      PushedKeepsTurn(s.loops[l], v.loops[l], i);
      EveryRunComesTo(v, rest, l, i);
    } else if a.RunTask? && i == 0 {
      FirstRuns(s, l);
      RunIsLater(v, rest);
      HasRunStays(v, Exec(v, rest), t);
    } else {
      OwnStepAdvances(s, a, l, i);
      EveryRunComesTo(v, rest, l, if a.RunTask? then i - 1 else i);
    }
  }

  lemma LongEnough(l: Loop, i: nat)
    requires i < |Pending(l)|
    ensures StepsTo(l, i) <= |Pending(l)| + 3
  {
  }

  lemma ErasedLater(s: Server, v: Server, c: ConnId)
    requires Later(s, v) && c < |s.conns|
    ensures c < |v.conns| && (s.conns[c].erased ==> v.conns[c].erased) && (s.conns[c].destroyed ==> v.conns[c].destroyed)
  {
  }

  /** Every run erases a closed connection once the main loop has taken one step for each closure that
      waits there, and three more. */
  lemma EveryRunErases(s: Server, run: seq<Action>, c: ConnId)
    requires Inv(s) && Legal(s, run) && c < |s.conns| && s.conns[c].closed
    requires StepsOf(run, MAIN) >= |Pending(s.loops[MAIN])| + 3
    ensures c < |Exec(s, run).conns| && Exec(s, run).conns[c].erased
  {
    hide Later;
    RunIsLater(s, run);
    ErasedLater(s, Exec(s, run), c);
    if !s.conns[c].erased {
      var i := DueWaits(s, MAIN, CloseInMain(c));
      LongEnough(s.loops[MAIN], i);
      EveryRunComesTo(s, run, MAIN, i);
    }
  }

  /** And it destroys an erased connection once the connection's own loop has done the same. */
  lemma EveryRunDestroys(s: Server, run: seq<Action>, c: ConnId)
    requires Inv(s) && Legal(s, run) && c < |s.conns| && s.conns[c].erased
    requires s.conns[c].loop in s.loops ==>
               StepsOf(run, s.conns[c].loop) >= |Pending(s.loops[s.conns[c].loop])| + 3
    ensures c < |Exec(s, run).conns| && Exec(s, run).conns[c].destroyed
  {
    hide Later;
    RunIsLater(s, run);
    ErasedLater(s, Exec(s, run), c);
    if !s.conns[c].destroyed {
      assert ConnRight(s.conns[c], c, s.connections, s.loops.Keys);
      var l := s.conns[c].loop;
      var i := DueWaits(s, l, Destroy(c));
      LongEnough(s.loops[l], i);
      EveryRunComesTo(s, run, l, i);
    }
  }

  /** From every reachable state: a closed connection is destroyed in every run in which first the main
      loop and then the connection's own loop take that many steps, whatever happens meanwhile. */
  lemma EveryRunFinishes(start: Server, before: seq<Action>, x: seq<Action>, y: seq<Action>, c: ConnId)
    requires Start(start) && Legal(start, before)
    requires var s := Exec(start, before);
             && Legal(s, x) && Legal(Exec(s, x), y) && c < |s.conns| && s.conns[c].closed
             && MAIN in s.loops && StepsOf(x, MAIN) >= |Pending(s.loops[MAIN])| + 3
    requires var s := Exec(start, before);
             var t := Exec(s, x);
             var l := s.conns[c].loop;
             l in t.loops ==> StepsOf(y, l) >= |Pending(t.loops[l])| + 3
    ensures var v := Exec(Exec(Exec(start, before), x), y);
            c < |v.conns| && v.conns[c].erased && v.conns[c].destroyed
  {
    hide Inv;
    StartHasInv(start);
    ExecKeepsInv(start, before);
    var s := Exec(start, before);
    EveryRunErases(s, x, c);
    RunIsLater(s, x);
    EveryRunDestroys(Exec(s, x), y, c);
    RunIsLater(Exec(s, x), y);
  }
}
