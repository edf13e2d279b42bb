/** What the records of the connections say about a run: which loop each belongs to, whether it was
    closed or freed, and who may still use it. */
module TcpServerRecords {
  import opened TcpServers

  datatype Origin = Origin(fd: Fd, loop: LoopId)

  /** The descriptors that were accepted, with the loops that were chosen for them, in order. */
  ghost function Accepted(run: seq<Action>): seq<Origin> {
    if run == [] then []
    else (if run[0].Accept? then [Origin(run[0].fd, run[0].loop)] else []) + Accepted(run[1..])
  }

  /** From the records x to the records y: those there were keep descriptor and loop, the new ones have
      those that the accepts name, and closed or freed is what someone closed or freed. */
  ghost predicate Told(x: seq<Conn>, y: seq<Conn>, run: seq<Action>) {
    && |y| == |x| + |Accepted(run)|
    && (forall c :: 0 <= c < |x| ==> y[c].fd == x[c].fd && y[c].loop == x[c].loop)
    && (forall c :: |x| <= c < |y| ==> Origin(y[c].fd, y[c].loop) == Accepted(run)[c - |x|])
    && (forall c :: 0 <= c < |y| ==> (y[c].closed <==> (c < |x| && x[c].closed) || Close(c) in run))
    && (forall c :: 0 <= c < |y| ==> (y[c].freed <==> (c < |x| && x[c].freed) || Free(c) in run))
  }

  lemma NothingTold(x: seq<Conn>)
    ensures Told(x, x, [])
  {
  }

  lemma AcceptTold(x: seq<Conn>, a: Action)
    requires a.Accept?
    ensures Told(x, x + [Conn(a.fd, a.loop, false, false, false, false, false, false)], [a])
  {
    assert Accepted([a]) == [Origin(a.fd, a.loop)];
  }

  /** One record is marked, or nothing is. */
  lemma MarkTold(x: seq<Conn>, c: ConnId, conn: Conn, a: Action)
    requires !a.Accept? && c < |x| && conn.fd == x[c].fd && conn.loop == x[c].loop
    requires conn.closed <==> x[c].closed || a == Close(c)
    requires conn.freed <==> x[c].freed || a == Free(c)
    requires forall d :: d != c ==> a != Close(d) && a != Free(d)
    ensures Told(x, x[c := conn], [a])
  {
    assert Accepted([a]) == [];
  }

  lemma StillTold(x: seq<Conn>, a: Action)
    requires !a.Accept? && !a.Close? && !a.Free?
    ensures Told(x, x, [a])
  {
    assert Accepted([a]) == [];
  }

  lemma StepTold(s: Server, a: Action)
    requires Enabled(s, a)
    ensures Told(s.conns, Do(s, a).conns, [a])
  {
    hide Told, Accepted;
    match a
    case Accept(_, _) => AcceptTold(s.conns, a);
    case Close(c) =>
      assert s.conns[c].closed ==> s.conns[c := s.conns[c]] == s.conns;
      MarkTold(s.conns, c, Do(s, a).conns[c], a);
      assert Do(s, a).conns == s.conns[c := Do(s, a).conns[c]];
    case RunTask(l) =>
      var c := s.loops[l].phase.rest[0].c;
      MarkTold(s.conns, c, Do(s, a).conns[c], a);
      assert Do(s, a).conns == s.conns[c := Do(s, a).conns[c]];
    case Free(c) => MarkTold(s.conns, c, s.conns[c].(freed := true), a);
    case _ => StillTold(s.conns, a);
  }

  lemma ToldOn(x: seq<Conn>, y: seq<Conn>, z: seq<Conn>, a: Action, rest: seq<Action>)
    requires Told(x, y, [a]) && Told(y, z, rest)
    requires forall c :: c >= |x| ==> a != Close(c) && a != Free(c)
    ensures Told(x, z, [a] + rest)
  {
    assert [a][1..] == [] && ([a] + rest)[1..] == rest && Accepted([a]) + [] == Accepted([a]);
    assert Accepted([a] + rest) == Accepted([a]) + Accepted(rest);
    hide Accepted;
    forall c | |x| <= c < |z| ensures Origin(z[c].fd, z[c].loop) == Accepted([a] + rest)[c - |x|] {
      if c < |y| {
        assert Origin(y[c].fd, y[c].loop) == Accepted([a])[c - |x|];
      }
    }
  }

  lemma {:induction false} RunTold(s: Server, run: seq<Action>)
    requires Legal(s, run)
    ensures Told(s.conns, Exec(s, run).conns, run)
    decreases |run|
  {
    if run == [] {
      NothingTold(s.conns);
    } else {
      StepTold(s, run[0]);
      RunTold(Do(s, run[0]), run[1..]);
      assert [run[0]] + run[1..] == run;
      hide Do, Told;
      assert forall c :: c >= |s.conns| ==> run[0] != Close(c) && run[0] != Free(c);
      ToldOn(s.conns, Do(s, run[0]).conns, Exec(s, run).conns, run[0], run[1..]);
    }
  }

  /** Over every run: the c-th connection has the descriptor and belongs to the loop that the c-th accept
      named; it is closed exactly if someone closed it, and freed exactly if it was freed. */
  lemma RecordsTellTheRun(s: Server, run: seq<Action>, c: ConnId)
    requires Start(s) && Legal(s, run)
    ensures var t := Exec(s, run);
      && |t.conns| == |Accepted(run)|
      && (c < |t.conns| ==>
            && t.conns[c].fd == Accepted(run)[c].fd && t.conns[c].loop == Accepted(run)[c].loop
            && (t.conns[c].closed <==> Close(c) in run) && (t.conns[c].freed <==> Free(c) in run))
  {
    hide Do, Enabled, Accepted;
    RunTold(s, run);
  }

  /** Over every run: what a loop runs for a connection is its own business. Establishing and destroying
      happen on the loop that the accept named, the erasure on the main loop. */
  lemma TasksRunAtHome(s: Server, run: seq<Action>, l: LoopId)
    requires Start(s) && Legal(s, run) && Enabled(Exec(s, run), RunTask(l))
    ensures var t := Exec(s, run).loops[l].phase.rest[0];
            t.c < |Accepted(run)| && l == if t.CloseInMain? then MAIN else Accepted(run)[t.c].loop
  {
    StartHasInv(s);
    ExecKeepsInv(s, run);
    FirstIsDue(Exec(s, run), l);
    RunTold(s, run);
  }

  // ---- who may still use it

  lemma StepKeepsHeld(s: Server, a: Action, c: ConnId)
    requires Enabled(s, a) && a != Release(c) && c in s.held && c < |s.conns| && !s.conns[c].freed
    ensures var t := Do(s, a); c in t.held && c < |t.conns| && !t.conns[c].freed
  {
  }

  lemma {:induction false} RunKeepsHeld(s: Server, run: seq<Action>, c: ConnId)
    requires Legal(s, run) && Release(c) !in run && c in s.held && c < |s.conns| && !s.conns[c].freed
    ensures var t := Exec(s, run); c in t.held && c < |t.conns| && !t.conns[c].freed
    decreases |run|
  {
    if run != [] {
      StepKeepsHeld(s, run[0], c);
      RunKeepsHeld(Do(s, run[0]), run[1..], c);
    }
  }

  /** Who takes hold of a connection keeps it alive until it lets go, whatever else happens. */
  lemma HeldStaysAlive(s: Server, c: ConnId, run: seq<Action>)
    requires Enabled(s, Hold(c)) && Legal(Do(s, Hold(c)), run) && Release(c) !in run
    ensures var t := Exec(Do(s, Hold(c)), run); c < |t.conns| && !t.conns[c].freed
  {
    RunKeepsHeld(Do(s, Hold(c)), run, c);
  }

  lemma {:induction false} BatchStays(s: Server, l: LoopId, batch: set<ConnId>, run: seq<Action>)
    requires Legal(s, run) && Swap(l) !in run && l in s.loops && s.loops[l].phase == Handling(batch)
    ensures l in Exec(s, run).loops && Exec(s, run).loops[l].phase == Handling(batch)
    decreases |run|
  {
    if run != [] {
      var t := Do(s, run[0]);
      assert l in t.loops && t.loops[l].phase == Handling(batch);
      BatchStays(t, l, batch, run[1..]);
    }
  }

  /** The channels that Poll returned may be used until the loop turns to its closures. */
  lemma BatchStaysAlive(s: Server, before: seq<Action>, l: LoopId, batch: set<ConnId>, after: seq<Action>, c: ConnId)
    requires Start(s) && Legal(s, before) && Enabled(Exec(s, before), PollReturns(l, batch))
    requires Legal(Do(Exec(s, before), PollReturns(l, batch)), after) && Swap(l) !in after && c in batch
    ensures var t := Exec(Do(Exec(s, before), PollReturns(l, batch)), after);
            c < |t.conns| && t.conns[c].registered && !t.conns[c].freed
  {
    StartHasInv(s);
    ExecKeepsInv(s, before);
    StepKeepsInv(Exec(s, before), PollReturns(l, batch));
    var polled := Do(Exec(s, before), PollReturns(l, batch));
    ExecKeepsInv(polled, after);
    BatchStays(polled, l, batch, after);
    var t := Exec(polled, after);
    assert BatchRight(t.conns, l, t.loops[l].phase);
    assert ConnRight(t.conns[c], c, t.connections, t.loops.Keys);
  }
}
