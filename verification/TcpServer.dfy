/** The life of connections across the main loop and the I/O loops, after
    Code/tcp/TcpServer.cpp and Code/tcp/TcpConnection.cpp, as a step relation over any number
    of loops. Loop 0 is the main loop; it may also serve connections itself. */
module TcpServers {

  type LoopId = nat
  type ConnId = nat
  type Fd = nat

  /** One TcpConnection object, from its construction on. */
  datatype Conn = Conn(
    fd: Fd, loop: LoopId,
    established: bool,         // ConnectionEstablished ran
    registered: bool,          // its channel is known to the loop's poller
    closed: bool,              // HandleClose ran
    erased: bool,              // taken out of connections_
    destroyed: bool,           // ConnectionDestructor ran
    freed: bool)               // the last shared pointer is gone, the descriptor is closed

  /** The closures that loops queue for each other. Each one holds its connection alive. */
  datatype Task = Establish(c: ConnId) | CloseInMain(c: ConnId) | Destroy(c: ConnId)

  datatype Phase =
    | Polling
    | Handling(batch: set<ConnId>)                 // the connection channels Poll returned
    | Tasks(done: seq<Task>, rest: seq<Task>)      // `funcs`: all its closures live until its end

  datatype Loop = Loop(queue: seq<Task>, phase: Phase)

  datatype Entry = Ran(t: Task) | Erased(c: ConnId)

  datatype Server = Server(
    conns: seq<Conn>,
    connections: map<Fd, ConnId>,      // connections_
    loops: map<LoopId, Loop>,
    held: set<ConnId>,                 // kept alive by callbacks, timers and session tables
    log: seq<Entry>,
    failed: bool)                      // the `count` assertion was violated

  datatype Action =
    | Accept(fd: Fd, loop: LoopId)             // HandleNewConnection
    | PollReturns(loop: LoopId, batch: set<ConnId>)
    | Close(c: ConnId)                         // HandleClose, then HandleCloseConnection
    | Swap(loop: LoopId)
    | RunTask(loop: LoopId)
    | EndTasks(loop: LoopId)
    | Hold(c: ConnId)
    | Release(c: ConnId)
    | Free(c: ConnId)                          // ~TcpConnection

  const MAIN: LoopId := 0

  ghost predicate Start(s: Server) {
    && s.conns == [] && s.connections == map[] && s.held == {} && s.log == [] && !s.failed
    && MAIN in s.loops
    && forall l :: l in s.loops ==> s.loops[l] == Loop([], Polling)
  }

  /** Every closure a loop still has or keeps until the end of its batch. */
  ghost function Closures(l: Loop): seq<Task> {
    (if l.phase.Tasks? then l.phase.done + l.phase.rest else []) + l.queue
  }

  /** The closures that have not run yet, in the order they will. */
  ghost function Pending(l: Loop): seq<Task> {
    (if l.phase.Tasks? then l.phase.rest else []) + l.queue
  }

  ghost predicate Mentions(ts: seq<Task>, c: ConnId) {
    exists t :: t in ts && t.c == c
  }

  /** A shared pointer to the connection exists somewhere. */
  ghost predicate Referenced(s: Server, c: ConnId) {
    || c in s.connections.Values
    || c in s.held
    || exists l :: l in s.loops && Mentions(Closures(s.loops[l]), c)
  }

  /** The kernel hands out a descriptor only while no live connection owns it. */
  ghost predicate Unused(s: Server, fd: Fd) {
    forall c :: 0 <= c < |s.conns| && !s.conns[c].freed ==> s.conns[c].fd != fd
  }

  ghost predicate Enabled(s: Server, a: Action) {
    match a
    case Accept(fd, l) => MAIN in s.loops && s.loops[MAIN].phase.Handling? && l in s.loops && Unused(s, fd)
    case PollReturns(l, batch) =>
      && l in s.loops && s.loops[l].phase.Polling?
      && forall c :: c in batch ==> c < |s.conns| && s.conns[c].registered && s.conns[c].loop == l
    case Close(c) =>
      // on the connection's own loop, by someone who got it from a callback
      && c < |s.conns| && s.conns[c].established && !s.conns[c].freed
      && s.conns[c].loop in s.loops && !s.loops[s.conns[c].loop].phase.Polling?
      && MAIN in s.loops
    case Swap(l) => l in s.loops && s.loops[l].phase.Handling?
    case RunTask(l) =>
      && l in s.loops && s.loops[l].phase.Tasks? && s.loops[l].phase.rest != []
      && s.loops[l].phase.rest[0].c < |s.conns|
      && s.conns[s.loops[l].phase.rest[0].c].loop in s.loops
    case EndTasks(l) => l in s.loops && s.loops[l].phase.Tasks? && s.loops[l].phase.rest == []
    case Hold(c) => c < |s.conns| && s.conns[c].established && Referenced(s, c) && !s.conns[c].freed
    case Release(c) => c in s.held
    case Free(c) => c < |s.conns| && !s.conns[c].freed && !Referenced(s, c)
  }

  /** QueueOneFunc on loop l. */
  ghost function Pushed(loops: map<LoopId, Loop>, l: LoopId, t: Task): map<LoopId, Loop>
    requires l in loops
  {
    loops[l := loops[l].(queue := loops[l].queue + [t])]
  }

  /** The loop has picked the next closure of its batch, but keeps holding it. */
  ghost function Taken(loops: map<LoopId, Loop>, l: LoopId): map<LoopId, Loop>
    requires l in loops && loops[l].phase.Tasks? && loops[l].phase.rest != []
  {
    var p := loops[l].phase;
    loops[l := loops[l].(phase := Tasks(p.done + [p.rest[0]], p.rest[1..]))]
  }

  /** HandleCloseConnectionInPoller: the entry is looked up and erased by descriptor. */
  ghost function EraseInMain(s: Server, c: ConnId): Server
    requires c < |s.conns| && s.conns[c].loop in s.loops
  {
    var fd := s.conns[c].fd;
    if fd !in s.connections then s.(failed := true)
    else
      s.(connections := s.connections - {fd},
         conns := s.conns[c := s.conns[c].(erased := true)],
         loops := Pushed(s.loops, s.conns[c].loop, Destroy(c)),
         log := s.log + [Erased(c)])
  }

  ghost function RunOne(s: Server, t: Task): Server
    requires t.c < |s.conns| && s.conns[t.c].loop in s.loops
  {
    var conn := s.conns[t.c];
    match t
    case Establish(c) => s.(conns := s.conns[c := conn.(established := true, registered := true)])
    case CloseInMain(c) => EraseInMain(s, c)
    case Destroy(c) => s.(conns := s.conns[c := conn.(registered := false, destroyed := true)])
  }

  ghost function Do(s: Server, a: Action): Server
    requires Enabled(s, a)
  {
    match a
    case Accept(fd, l) =>
      var c := |s.conns|;
      s.(conns := s.conns + [Conn(fd, l, false, false, false, false, false, false)],
         connections := s.connections[fd := c],
         loops := Pushed(s.loops, l, Establish(c)))
    case PollReturns(l, batch) => s.(loops := s.loops[l := s.loops[l].(phase := Handling(batch))])
    case Close(c) =>
      if s.conns[c].closed then s
      else
        var t := s.(conns := s.conns[c := s.conns[c].(closed := true)]);
        if s.conns[c].loop == MAIN then EraseInMain(t, c)
        else t.(loops := Pushed(t.loops, MAIN, CloseInMain(c)))
    case Swap(l) => s.(loops := s.loops[l := Loop([], Tasks([], s.loops[l].queue))])
    case RunTask(l) =>
      var t := s.loops[l].phase.rest[0];
      RunOne(s.(loops := Taken(s.loops, l), log := s.log + [Ran(t)]), t)
    case EndTasks(l) => s.(loops := s.loops[l := s.loops[l].(phase := Polling)])
    case Hold(c) => s.(held := s.held + {c})
    case Release(c) => s.(held := s.held - {c})
    case Free(c) => s.(conns := s.conns[c := s.conns[c].(freed := true)])
  }

  ghost predicate Legal(s: Server, run: seq<Action>)
    decreases |run|
  {
    run != [] ==> Enabled(s, run[0]) && Legal(Do(s, run[0]), run[1..])
  }

  ghost function Exec(s: Server, run: seq<Action>): Server
    requires Legal(s, run)
    decreases |run|
  {
    if run == [] then s else Exec(Do(s, run[0]), run[1..])
  }

  // ---- what every step keeps

  /** How many copies of the closure have still to run on the loop. */
  ghost function Count(loops: map<LoopId, Loop>, l: LoopId, t: Task): nat
    requires l in loops
  {
    multiset(Pending(loops[l]))[t]
  }

  /** How many there should be, given how far the connection is. */
  ghost function Due(conns: seq<Conn>, l: LoopId, t: Task): nat {
    if t.c < |conns| && DueFor(conns[t.c], l, t) then 1 else 0
  }

  ghost predicate DueFor(conn: Conn, l: LoopId, t: Task) {
    match t
    case Establish(_) => l == conn.loop && !conn.established
    case CloseInMain(_) => l == MAIN && conn.closed && !conn.erased
    case Destroy(_) => l == conn.loop && conn.erased && !conn.destroyed
  }

  ghost predicate TasksRight(conns: seq<Conn>, loops: map<LoopId, Loop>) {
    forall l, t :: l in loops ==> Count(loops, l, t) == Due(conns, l, t)
  }

  ghost predicate ConnRight(conn: Conn, c: ConnId, connections: map<Fd, ConnId>, loops: set<LoopId>) {
    && conn.loop in loops
    && (conn.freed ==> conn.destroyed)
    && (conn.destroyed ==> conn.erased)
    && (conn.erased ==> conn.closed)
    && (conn.closed ==> conn.established)
    && (conn.loop == MAIN && conn.closed ==> conn.erased)
    && (conn.registered <==> conn.established && !conn.destroyed)
    && (!conn.erased ==> conn.fd in connections && connections[conn.fd] == c)
  }

  ghost predicate ConnsRight(conns: seq<Conn>, connections: map<Fd, ConnId>, loops: set<LoopId>) {
    forall c :: 0 <= c < |conns| ==> ConnRight(conns[c], c, connections, loops)
  }

  ghost predicate MapRight(conns: seq<Conn>, connections: map<Fd, ConnId>) {
    forall fd :: fd in connections ==>
      connections[fd] < |conns| && conns[connections[fd]].fd == fd && !conns[connections[fd]].erased
  }

  ghost predicate FdsDistinct(conns: seq<Conn>) {
    forall c, d :: 0 <= c < d < |conns| && !conns[c].freed && !conns[d].freed ==> conns[c].fd != conns[d].fd
  }

  /** Every channel in a batch stays registered until the batch ends. */
  ghost predicate BatchesRight(conns: seq<Conn>, loops: map<LoopId, Loop>) {
    forall l :: l in loops ==> BatchRight(conns, l, loops[l].phase)
  }

  ghost predicate BatchRight(conns: seq<Conn>, l: LoopId, phase: Phase) {
    phase.Handling? ==> forall c :: c in phase.batch ==> c < |conns| && conns[c].registered && conns[c].loop == l
  }

  ghost function Times(log: seq<Entry>, e: Entry): nat {
    multiset(log)[e]
  }

  /** How often it should have happened, given how far the connection is. */
  ghost function Happened(conns: seq<Conn>, e: Entry): nat {
    if Of(e) < |conns| && HappenedTo(conns[Of(e)], e) then 1 else 0
  }

  ghost function Of(e: Entry): ConnId {
    if e.Ran? then e.t.c else e.c
  }

  ghost predicate HappenedTo(conn: Conn, e: Entry) {
    match e
    case Ran(Establish(_)) => conn.established
    case Ran(CloseInMain(_)) => conn.erased && conn.loop != MAIN
    case Ran(Destroy(_)) => conn.destroyed
    case Erased(_) => conn.erased
  }

  ghost predicate LogRight(conns: seq<Conn>, log: seq<Entry>) {
    forall e :: Times(log, e) == Happened(conns, e)
  }

  /** Whatever was destroyed had been established and erased before. */
  ghost predicate Ordered(log: seq<Entry>) {
    forall j :: 0 <= j < |log| && log[j].Ran? && log[j].t.Destroy? ==>
      Ran(Establish(log[j].t.c)) in log[..j] && Erased(log[j].t.c) in log[..j]
  }

  ghost predicate Inv(s: Server) {
    && MAIN in s.loops && !s.failed
    && TasksRight(s.conns, s.loops)
    && ConnsRight(s.conns, s.connections, s.loops.Keys)
    && MapRight(s.conns, s.connections)
    && FdsDistinct(s.conns)
    && BatchesRight(s.conns, s.loops)
    && LogRight(s.conns, s.log)
    && Ordered(s.log)
  }

  lemma CountSnoc(tasks: seq<Task>, t: Task, u: Task)
    ensures multiset(tasks + [t])[u] == multiset(tasks)[u] + (if u == t then 1 else 0)
  {
  }

  lemma CountCons(t: Task, tasks: seq<Task>, u: Task)
    ensures multiset([t] + tasks)[u] == multiset(tasks)[u] + (if u == t then 1 else 0)
  {
  }

  lemma PendingPushed(loop: Loop, t: Task)
    ensures Pending(loop.(queue := loop.queue + [t])) == Pending(loop) + [t]
  {
  }

  lemma PendingTaken(loops: map<LoopId, Loop>, l: LoopId)
    requires l in loops && loops[l].phase.Tasks? && loops[l].phase.rest != []
    ensures Pending(loops[l]) == [loops[l].phase.rest[0]] + Pending(Taken(loops, l)[l])
  {
    var rest := loops[l].phase.rest;
    assert rest == [rest[0]] + rest[1..];
  }

  lemma CountPushed(loops: map<LoopId, Loop>, l: LoopId, t: Task, k: LoopId, u: Task)
    requires l in loops && k in loops
    ensures k in Pushed(loops, l, t)
    ensures Count(Pushed(loops, l, t), k, u) == Count(loops, k, u) + (if k == l && u == t then 1 else 0)
  {
    hide Pending;
    if k == l {
      PendingPushed(loops[l], t);
      CountSnoc(Pending(loops[l]), t, u);
    }
  }

  lemma CountTaken(loops: map<LoopId, Loop>, l: LoopId, k: LoopId, u: Task)
    requires l in loops && loops[l].phase.Tasks? && loops[l].phase.rest != [] && k in loops
    ensures k in Taken(loops, l)
    ensures Count(loops, k, u) == Count(Taken(loops, l), k, u) + (if k == l && u == loops[l].phase.rest[0] then 1 else 0)
  {
    hide Pending;
    if k == l {
      PendingTaken(loops, l);
      CountCons(loops[l].phase.rest[0], Pending(Taken(loops, l)[l]), u);
    }
  }

  /** A connection's record changes and the closure that has become due for it is queued. */
  lemma PushKeepsTasks(conns: seq<Conn>, loops: map<LoopId, Loop>, c: ConnId, conn: Conn, l: LoopId, t: Task)
    requires TasksRight(conns, loops) && c < |conns| && l in loops && t.c == c
    requires forall k, u: Task :: u.c == c ==> (DueFor(conn, k, u) <==> DueFor(conns[c], k, u) || (k == l && u == t))
    requires !DueFor(conns[c], l, t)
    ensures TasksRight(conns[c := conn], Pushed(loops, l, t))
  {
    hide Count, DueFor;
    forall k, u | k in loops
      ensures Count(Pushed(loops, l, t), k, u) == Due(conns[c := conn], k, u)
    {
      CountPushed(loops, l, t, k, u);
      assert Count(loops, k, u) == Due(conns, k, u);
    }
  }

  /** A loop takes a closure, after which it is no longer due. */
  lemma TakeKeepsTasks(conns: seq<Conn>, loops: map<LoopId, Loop>, c: ConnId, conn: Conn, l: LoopId)
    requires TasksRight(conns, loops) && c < |conns|
    requires l in loops && loops[l].phase.Tasks? && loops[l].phase.rest != [] && loops[l].phase.rest[0].c == c
    requires var t := loops[l].phase.rest[0];
             && !DueFor(conn, l, t)
             && forall k, u: Task :: u.c == c ==> (DueFor(conns[c], k, u) <==> DueFor(conn, k, u) || (k == l && u == t))
    ensures TasksRight(conns[c := conn], Taken(loops, l))
  {
    hide Count, DueFor;
    forall k, u | k in loops
      ensures Count(Taken(loops, l), k, u) == Due(conns[c := conn], k, u)
    {
      CountTaken(loops, l, k, u);
      assert Count(loops, k, u) == Due(conns, k, u);
    }
  }

  /** A connection's record changes and the log says what happened to it. */
  lemma LogKept(conns: seq<Conn>, log: seq<Entry>, c: ConnId, conn: Conn, es: seq<Entry>)
    requires LogRight(conns, log) && c < |conns|
    requires forall x :: x in es ==> Of(x) == c
    requires forall x :: Of(x) == c ==>
               (if HappenedTo(conn, x) then 1 else 0) == (if HappenedTo(conns[c], x) then 1 else 0) + Times(es, x)
    ensures LogRight(conns[c := conn], log + es)
  {
    forall x
      ensures Times(log + es, x) == Happened(conns[c := conn], x)
    {
      assert Times(log, x) == Happened(conns, x);
      assert Times(log + es, x) == Times(log, x) + Times(es, x);
      if Of(x) != c {
        assert x !in es;
      }
    }
  }

  /** No channel is unregistered, or none of a loop that is handling a batch. */
  lemma BatchesKept(conns: seq<Conn>, loops: map<LoopId, Loop>, c: ConnId, conn: Conn, loops': map<LoopId, Loop>)
    requires BatchesRight(conns, loops) && c < |conns| && conn.loop == conns[c].loop
    requires loops'.Keys == loops.Keys
    requires forall k :: k in loops ==> loops'[k].phase == loops[k].phase || !loops'[k].phase.Handling?
    requires conn.registered || !conns[c].registered || (conn.loop in loops && !loops[conn.loop].phase.Handling?)
    ensures BatchesRight(conns[c := conn], loops')
  {
    forall k | k in loops' ensures BatchRight(conns[c := conn], k, loops'[k].phase) {
      assert BatchRight(conns, k, loops[k].phase);
    }
  }

  lemma OrderedLogged(log: seq<Entry>, e: Entry)
    requires Ordered(log)
    requires e.Ran? && e.t.Destroy? ==> Ran(Establish(e.t.c)) in log && Erased(e.t.c) in log
    ensures Ordered(log + [e])
  {
    forall j | 0 <= j < |log + [e]| && (log + [e])[j].Ran? && (log + [e])[j].t.Destroy?
      ensures Ran(Establish((log + [e])[j].t.c)) in (log + [e])[..j] && Erased((log + [e])[j].t.c) in (log + [e])[..j]
    {
      assert (log + [e])[..j] == if j == |log| then log else log[..j];
    }
  }

  lemma UnusedMeansNoEntry(s: Server, fd: Fd)
    requires Inv(s) && Unused(s, fd)
    ensures fd !in s.connections
  {
    forall f | f in s.connections ensures !s.conns[s.connections[f]].freed {
      assert ConnRight(s.conns[s.connections[f]], s.connections[f], s.connections, s.loops.Keys);
    }
  }

  lemma NewRecordKeepsTable(conns: seq<Conn>, connections: map<Fd, ConnId>, loops: set<LoopId>, conn: Conn)
    requires ConnsRight(conns, connections, loops) && MapRight(conns, connections) && FdsDistinct(conns)
    requires forall c :: 0 <= c < |conns| && !conns[c].freed ==> conns[c].fd != conn.fd
    requires conn.fd !in connections && ConnRight(conn, |conns|, connections[conn.fd := |conns|], loops) && !conn.erased
    ensures ConnsRight(conns + [conn], connections[conn.fd := |conns|], loops)
    ensures MapRight(conns + [conn], connections[conn.fd := |conns|])
    ensures FdsDistinct(conns + [conn])
  {
    forall d | 0 <= d < |conns|
      ensures ConnRight(conns[d], d, connections[conn.fd := |conns|], loops)
    {
      assert ConnRight(conns[d], d, connections, loops);
    }
  }

  /** A new connection has its establish closure queued and nothing else due. */
  lemma NewRecordKeepsTasks(conns: seq<Conn>, loops: map<LoopId, Loop>, conn: Conn)
    requires TasksRight(conns, loops) && conn.loop in loops && !conn.established && !conn.closed && !conn.erased
    ensures TasksRight(conns + [conn], Pushed(loops, conn.loop, Establish(|conns|)))
  {
    hide Count;
    forall k, u | k in loops
      ensures Count(Pushed(loops, conn.loop, Establish(|conns|)), k, u) == Due(conns + [conn], k, u)
    {
      CountPushed(loops, conn.loop, Establish(|conns|), k, u);
      assert Count(loops, k, u) == Due(conns, k, u);
    }
  }

  lemma NewRecordKeepsLog(conns: seq<Conn>, log: seq<Entry>, conn: Conn)
    requires LogRight(conns, log) && !conn.established && !conn.erased && !conn.destroyed
    ensures LogRight(conns + [conn], log)
  {
    hide Times;
    forall e ensures Times(log, e) == Happened(conns + [conn], e) {
      assert Times(log, e) == Happened(conns, e);
    }
  }

  lemma NewRecordKeepsBatches(conns: seq<Conn>, loops: map<LoopId, Loop>, conn: Conn, l: LoopId, t: Task)
    requires BatchesRight(conns, loops) && l in loops
    ensures BatchesRight(conns + [conn], Pushed(loops, l, t))
  {
    forall k | k in loops ensures BatchRight(conns + [conn], k, Pushed(loops, l, t)[k].phase) {
      assert BatchRight(conns, k, loops[k].phase);
    }
  }

  lemma AcceptKeepsInv(s: Server, fd: Fd, l: LoopId)
    requires Inv(s) && Enabled(s, Accept(fd, l))
    ensures Inv(Do(s, Accept(fd, l)))
  {
    hide TasksRight, ConnsRight, MapRight, FdsDistinct, BatchesRight, LogRight, Ordered;
    var conn := Conn(fd, l, false, false, false, false, false, false);
    UnusedMeansNoEntry(s, fd);
    NewRecordKeepsTable(s.conns, s.connections, s.loops.Keys, conn);
    NewRecordKeepsTasks(s.conns, s.loops, conn);
    NewRecordKeepsLog(s.conns, s.log, conn);
    NewRecordKeepsBatches(s.conns, s.loops, conn, l, Establish(|s.conns|));
    assert Pushed(s.loops, l, Establish(|s.conns|)).Keys == s.loops.Keys;
  }

  /** The effect of an erasure on its own: only the entry and the connection's own record change. */
  lemma ErasureKeepsTable(conns: seq<Conn>, connections: map<Fd, ConnId>, loops: set<LoopId>, c: ConnId, conn: Conn)
    requires ConnsRight(conns, connections, loops) && MapRight(conns, connections) && FdsDistinct(conns)
    requires c < |conns| && conn.fd == conns[c].fd && conn.erased && !conns[c].freed && !conn.freed
    requires ConnRight(conn, c, connections, loops)
    ensures ConnsRight(conns[c := conn], connections - {conn.fd}, loops)
    ensures MapRight(conns[c := conn], connections - {conn.fd})
    ensures FdsDistinct(conns[c := conn])
  {
    forall d | 0 <= d < |conns| && d != c
      ensures ConnRight(conns[d], d, connections - {conn.fd}, loops)
    {
      assert ConnRight(conns[d], d, connections, loops);
    }
  }

  lemma CloseInlineKeepsInv(s: Server, c: ConnId)
    requires Inv(s) && Enabled(s, Close(c)) && !s.conns[c].closed && s.conns[c].loop == MAIN
    ensures Inv(Do(s, Close(c)))
  {
    var conn := s.conns[c].(closed := true, erased := true);
    var t := Do(s, Close(c));
    assert ConnRight(s.conns[c], c, s.connections, s.loops.Keys);
    assert t.conns == s.conns[c := conn];
    ErasureKeepsTable(s.conns, s.connections, s.loops.Keys, c, conn);
    PushKeepsTasks(s.conns, s.loops, c, conn, MAIN, Destroy(c));
    LogKept(s.conns, s.log, c, conn, [Erased(c)]);
    OrderedLogged(s.log, Erased(c));
    BatchesKept(s.conns, s.loops, c, conn, t.loops);
  }

  lemma CloseQueuedKeepsInv(s: Server, c: ConnId)
    requires Inv(s) && Enabled(s, Close(c)) && !s.conns[c].closed && s.conns[c].loop != MAIN
    ensures Inv(Do(s, Close(c)))
  {
    var conn := s.conns[c].(closed := true);
    var t := Do(s, Close(c));
    assert ConnRight(s.conns[c], c, s.connections, s.loops.Keys);
    RecordKeepsTable(s.conns, s.connections, s.loops.Keys, c, conn);
    PushKeepsTasks(s.conns, s.loops, c, conn, MAIN, CloseInMain(c));
    LogKept(s.conns, s.log, c, conn, []);
    assert s.log + [] == s.log;
    BatchesKept(s.conns, s.loops, c, conn, t.loops);
  }

  /** A change of one record that leaves its descriptor and its place in the table alone. */
  lemma RecordKeepsTable(conns: seq<Conn>, connections: map<Fd, ConnId>, loops: set<LoopId>, c: ConnId, conn: Conn)
    requires ConnsRight(conns, connections, loops) && MapRight(conns, connections) && FdsDistinct(conns)
    requires c < |conns| && conn.fd == conns[c].fd && conn.erased == conns[c].erased
    requires (conn.freed == conns[c].freed || conn.freed) && ConnRight(conn, c, connections, loops)
    ensures ConnsRight(conns[c := conn], connections, loops)
    ensures MapRight(conns[c := conn], connections)
    ensures FdsDistinct(conns[c := conn])
  {
    forall d | 0 <= d < |conns| && d != c ensures ConnRight(conns[d], d, connections, loops) {
    }
  }

  lemma FirstIsDue(s: Server, l: LoopId)
    requires Inv(s) && l in s.loops && s.loops[l].phase.Tasks? && s.loops[l].phase.rest != []
    ensures var t := s.loops[l].phase.rest[0];
            t.c < |s.conns| && DueFor(s.conns[t.c], l, t)
            && ConnRight(s.conns[t.c], t.c, s.connections, s.loops.Keys)
  {
    var t := s.loops[l].phase.rest[0];
    CountTaken(s.loops, l, l, t);
    assert Count(s.loops, l, t) == Due(s.conns, l, t);
  }

  lemma RunEraseKeepsInv(s: Server, l: LoopId)
    requires Inv(s) && Enabled(s, RunTask(l)) && s.loops[l].phase.rest[0].CloseInMain?
    ensures Inv(Do(s, RunTask(l)))
  {
    FirstIsDue(s, l);
    var t := s.loops[l].phase.rest[0];
    var was := s.conns[t.c];
    var conn := was.(erased := true);
    var v := Do(s, RunTask(l));
    // between the two, nothing is due for the connection
    var between := was.(closed := false);
    TakeKeepsTasks(s.conns, s.loops, t.c, between, l);
    PushKeepsTasks(s.conns[t.c := between], Taken(s.loops, l), t.c, conn, conn.loop, Destroy(t.c));
    assert s.conns[t.c := between][t.c := conn] == s.conns[t.c := conn] == v.conns;
    ErasureKeepsTable(s.conns, s.connections, s.loops.Keys, t.c, conn);
    LogKept(s.conns, s.log, t.c, conn, [Ran(t), Erased(t.c)]);
    assert v.log == s.log + [Ran(t)] + [Erased(t.c)] == s.log + [Ran(t), Erased(t.c)];
    OrderedLogged(s.log, Ran(t));
    OrderedLogged(s.log + [Ran(t)], Erased(t.c));
    BatchesKept(s.conns, s.loops, t.c, conn, v.loops);
  }

  lemma RunEstablishKeepsInv(s: Server, l: LoopId)
    requires Inv(s) && Enabled(s, RunTask(l)) && s.loops[l].phase.rest[0].Establish?
    ensures Inv(Do(s, RunTask(l)))
  {
    FirstIsDue(s, l);
    var t := s.loops[l].phase.rest[0];
    var conn := s.conns[t.c].(established := true, registered := true);
    var v := Do(s, RunTask(l));
    TakeKeepsTasks(s.conns, s.loops, t.c, conn, l);
    RecordKeepsTable(s.conns, s.connections, s.loops.Keys, t.c, conn);
    LogKept(s.conns, s.log, t.c, conn, [Ran(t)]);
    OrderedLogged(s.log, Ran(t));
    BatchesKept(s.conns, s.loops, t.c, conn, v.loops);
  }

  lemma RunDestroyKeepsInv(s: Server, l: LoopId)
    requires Inv(s) && Enabled(s, RunTask(l)) && s.loops[l].phase.rest[0].Destroy?
    ensures Inv(Do(s, RunTask(l)))
  {
    FirstIsDue(s, l);
    var t := s.loops[l].phase.rest[0];
    var conn := s.conns[t.c].(registered := false, destroyed := true);
    var v := Do(s, RunTask(l));
    TakeKeepsTasks(s.conns, s.loops, t.c, conn, l);
    RecordKeepsTable(s.conns, s.connections, s.loops.Keys, t.c, conn);
    LogKept(s.conns, s.log, t.c, conn, [Ran(t)]);
    assert Times(s.log, Ran(Establish(t.c))) == Happened(s.conns, Ran(Establish(t.c)));
    assert Times(s.log, Erased(t.c)) == Happened(s.conns, Erased(t.c));
    OrderedLogged(s.log, Ran(t));
    BatchesKept(s.conns, s.loops, t.c, conn, v.loops);
  }

  lemma DueIsReferenced(s: Server, l: LoopId, t: Task)
    requires TasksRight(s.conns, s.loops) && l in s.loops && t.c < |s.conns| && DueFor(s.conns[t.c], l, t)
    ensures Referenced(s, t.c)
  {
    assert Count(s.loops, l, t) == Due(s.conns, l, t);
    assert t in Pending(s.loops[l]);
    assert t in Closures(s.loops[l]);
    assert Mentions(Closures(s.loops[l]), t.c);
  }

  /** Only a connection that went all the way can lose its last pointer. */
  lemma FreeOnlyAfterDestroy(s: Server, c: ConnId)
    requires Inv(s) && Enabled(s, Free(c))
    ensures s.conns[c].destroyed
  {
    assert ConnRight(s.conns[c], c, s.connections, s.loops.Keys);
    var l := s.conns[c].loop;
    if s.conns[c].erased && !s.conns[c].destroyed {
      DueIsReferenced(s, l, Destroy(c));
    }
  }

  lemma FreeKeepsInv(s: Server, c: ConnId)
    requires Inv(s) && Enabled(s, Free(c))
    ensures Inv(Do(s, Free(c)))
  {
    FreeOnlyAfterDestroy(s, c);
    var conn := s.conns[c].(freed := true);
    assert ConnRight(s.conns[c], c, s.connections, s.loops.Keys);
    RecordKeepsTable(s.conns, s.connections, s.loops.Keys, c, conn);
    LogKept(s.conns, s.log, c, conn, []);
    assert s.log + [] == s.log;
    BatchesKept(s.conns, s.loops, c, conn, s.loops);
    forall k, u | k in s.loops ensures Count(s.loops, k, u) == Due(s.conns[c := conn], k, u) {
      assert Count(s.loops, k, u) == Due(s.conns, k, u);
    }
  }

  /** Steps that only move a loop from one phase to the next, or change who holds a pointer. */
  lemma OtherKeepsInv(s: Server, a: Action)
    requires Inv(s) && Enabled(s, a)
    requires a.PollReturns? || a.Swap? || a.EndTasks? || a.Hold? || a.Release?
    ensures Inv(Do(s, a))
  {
    var v := Do(s, a);
    assert v.loops.Keys == s.loops.Keys;
    forall k, u | k in v.loops ensures Count(v.loops, k, u) == Due(v.conns, k, u) {
      assert Pending(v.loops[k]) == Pending(s.loops[k]);
      assert Count(s.loops, k, u) == Due(s.conns, k, u);
    }
    forall k | k in v.loops ensures BatchRight(v.conns, k, v.loops[k].phase) {
      assert BatchRight(s.conns, k, s.loops[k].phase);
    }
  }

  lemma StepKeepsInv(s: Server, a: Action)
    requires Inv(s) && Enabled(s, a)
    ensures Inv(Do(s, a))
  {
    match a
    case Accept(fd, l) => AcceptKeepsInv(s, fd, l);
    case Close(c) =>
      if !s.conns[c].closed {
        if s.conns[c].loop == MAIN { CloseInlineKeepsInv(s, c); } else { CloseQueuedKeepsInv(s, c); }
      }
    case RunTask(l) =>
      match s.loops[l].phase.rest[0] {
        case Establish(_) => RunEstablishKeepsInv(s, l);
        case CloseInMain(_) => RunEraseKeepsInv(s, l);
        case Destroy(_) => RunDestroyKeepsInv(s, l);
      }
    case Free(c) => FreeKeepsInv(s, c);
    case _ => OtherKeepsInv(s, a);
  }

  lemma {:induction false} ExecKeepsInv(s: Server, run: seq<Action>)
    requires Inv(s) && Legal(s, run)
    ensures Inv(Exec(s, run))
    decreases |run|
  {
    if run != [] {
      StepKeepsInv(s, run[0]);
      ExecKeepsInv(Do(s, run[0]), run[1..]);
    }
  }

  lemma StartHasInv(s: Server)
    requires Start(s)
    ensures Inv(s)
  {
  }

  // ---- what a caller can rely on, over every run

  /** The table names, for each descriptor in it, the only live connection that owns it; it lists
      exactly the connections that were not erased; and the `count` assertion never fails. */
  lemma TableNamesTheOwner(s: Server, run: seq<Action>)
    requires Start(s) && Legal(s, run)
    ensures var t := Exec(s, run);
      && !t.failed
      && (forall fd :: fd in t.connections ==>
            var c := t.connections[fd];
            && c < |t.conns| && t.conns[c].fd == fd && !t.conns[c].freed
            && forall d :: 0 <= d < |t.conns| && !t.conns[d].freed && t.conns[d].fd == fd ==> d == c)
      && (forall c :: 0 <= c < |t.conns| ==>
            (!t.conns[c].erased <==> t.conns[c].fd in t.connections && t.connections[t.conns[c].fd] == c))
  {
    StartHasInv(s);
    ExecKeepsInv(s, run);
    var t := Exec(s, run);
    forall fd | fd in t.connections
      ensures var c := t.connections[fd];
              && c < |t.conns| && t.conns[c].fd == fd && !t.conns[c].freed
              && forall d :: 0 <= d < |t.conns| && !t.conns[d].freed && t.conns[d].fd == fd ==> d == c
    {
      assert ConnRight(t.conns[t.connections[fd]], t.connections[fd], t.connections, t.loops.Keys);
    }
    forall c | 0 <= c < |t.conns|
      ensures !t.conns[c].erased <==> t.conns[c].fd in t.connections && t.connections[t.conns[c].fd] == c
    {
      assert ConnRight(t.conns[c], c, t.connections, t.loops.Keys);
    }
  }

  /** A new connection never overwrites an entry of the table. */
  lemma AcceptNeverOverwrites(s: Server, run: seq<Action>, fd: Fd, l: LoopId)
    requires Start(s) && Legal(s, run) && Enabled(Exec(s, run), Accept(fd, l))
    ensures fd !in Exec(s, run).connections
  {
    StartHasInv(s);
    ExecKeepsInv(s, run);
    UnusedMeansNoEntry(Exec(s, run), fd);
  }

  /** Each connection is established, erased and destroyed at most once; closing it sets off the
      rest exactly once; and its destructor task comes after its establish task and its erasure. */
  lemma EachStageOnce(s: Server, run: seq<Action>, c: ConnId)
    requires Start(s) && Legal(s, run)
    ensures var t := Exec(s, run);
      && Times(t.log, Ran(Establish(c))) <= 1 && Times(t.log, Erased(c)) <= 1
      && Times(t.log, Ran(Destroy(c))) <= 1 && Times(t.log, Ran(CloseInMain(c))) <= 1
      && Ordered(t.log)
      && (c < |t.conns| && t.conns[c].erased && !t.conns[c].destroyed ==>
            t.conns[c].loop in t.loops && Count(t.loops, t.conns[c].loop, Destroy(c)) == 1)
      && (c < |t.conns| && t.conns[c].closed && !t.conns[c].erased ==>
            MAIN in t.loops && Count(t.loops, MAIN, CloseInMain(c)) == 1)
  {
    StartHasInv(s);
    ExecKeepsInv(s, run);
    var t := Exec(s, run);
    assert Times(t.log, Ran(Establish(c))) == Happened(t.conns, Ran(Establish(c)));
    assert Times(t.log, Ran(Destroy(c))) == Happened(t.conns, Ran(Destroy(c)));
    assert Times(t.log, Ran(CloseInMain(c))) == Happened(t.conns, Ran(CloseInMain(c)));
    assert Times(t.log, Erased(c)) == Happened(t.conns, Erased(c));
    if c < |t.conns| {
      assert ConnRight(t.conns[c], c, t.connections, t.loops.Keys);
      var l := t.conns[c].loop;
      assert Count(t.loops, l, Destroy(c)) == Due(t.conns, l, Destroy(c));
      assert Count(t.loops, MAIN, CloseInMain(c)) == Due(t.conns, MAIN, CloseInMain(c));
    }
  }

  /** Every channel in a batch that Poll returned belongs to a live connection, and goes on doing
      so until the batch ends: its connection cannot be freed while it is registered. */
  lemma NoDanglingChannel(s: Server, run: seq<Action>, l: LoopId, c: ConnId)
    requires Start(s) && Legal(s, run)
    ensures var t := Exec(s, run);
      && (l in t.loops && t.loops[l].phase.Handling? && c in t.loops[l].phase.batch ==>
            c < |t.conns| && t.conns[c].registered && !t.conns[c].freed)
      && (c < |t.conns| && t.conns[c].registered ==> !Enabled(t, Free(c)) && !t.conns[c].freed)
  {
    StartHasInv(s);
    ExecKeepsInv(s, run);
    var t := Exec(s, run);
    if c < |t.conns| {
      assert ConnRight(t.conns[c], c, t.connections, t.loops.Keys);
      if Enabled(t, Free(c)) {
        FreeOnlyAfterDestroy(t, c);
      }
    }
  }

  /** The object with its table; the loops' queues stand for the loops. */
  class TcpServer {
    var connections_: map<Fd, ConnId>
    var next_connid_: nat
    var queues: map<LoopId, Loop>
    var conns: seq<Conn>
    ghost var held: set<ConnId>
    ghost var log: seq<Entry>
    ghost var failed: bool

    ghost function View(): Server
      reads this
    {
      Server(conns, connections_, queues, held, log, failed)
    }

    constructor (loops: set<LoopId>)
      requires MAIN in loops
      ensures Start(View()) && queues.Keys == loops && next_connid_ == 1
    {
      connections_, next_connid_, conns := map[], 1, [];
      queues := map l | l in loops :: Loop([], Polling);
      held, log, failed := {}, [], false;
    }

    method QueueOneFunc(l: LoopId, t: Task)
      requires l in queues
      modifies this`queues
      ensures queues == Pushed(old(queues), l, t) && queues.Keys == old(queues).Keys
      ensures queues[l] == Loop(old(queues)[l].queue + [t], old(queues)[l].phase)
      ensures forall k :: k in queues && k != l ==> queues[k] == old(queues)[k]
    {
      queues := queues[l := queues[l].(queue := queues[l].queue + [t])];
    }

    /** Connection numbers go round from 1 to 1000. */
    method HandleNewConnection(sockfd: Fd, loop: LoopId)
      requires Enabled(View(), Accept(sockfd, loop)) && 1 <= next_connid_ <= 1000
      modifies this
      ensures View() == Do(old(View()), Accept(sockfd, loop))
      ensures 1 <= next_connid_ <= 1000 && next_connid_ == old(next_connid_) % 1000 + 1
      ensures conns == old(conns) + [Conn(sockfd, loop, false, false, false, false, false, false)]
      ensures connections_ == old(connections_)[sockfd := |old(conns)|]
      ensures queues.Keys == old(queues).Keys
      ensures queues[loop].queue == old(queues)[loop].queue + [Establish(|old(conns)|)]
      ensures forall k :: k in queues && k != loop ==> queues[k] == old(queues)[k]
    {
      var c := |conns|;
      conns := conns + [Conn(sockfd, loop, false, false, false, false, false, false)];
      connections_ := connections_[sockfd := c];
      next_connid_ := next_connid_ + 1;
      if next_connid_ == 1001 {
        next_connid_ := 1;
      }
      QueueOneFunc(loop, Establish(c));
    }

    method HandleCloseConnectionInPoller(c: ConnId)
      requires c < |conns| && conns[c].loop in queues
      modifies this
      ensures View() == EraseInMain(old(View()), c)
      ensures var fd, l := old(conns)[c].fd, old(conns)[c].loop;
              if fd !in old(connections_) then failed
              else
                && connections_ == old(connections_) - {fd} && conns[c].erased && failed == old(failed)
                && queues[l].queue == old(queues)[l].queue + [Destroy(c)]
                && forall k :: k in queues && k != l ==> queues[k] == old(queues)[k]
    {
      var sockfd := conns[c].fd;
      if sockfd !in connections_ {
        failed := true;
        return;
      }
      connections_ := connections_ - {sockfd};
      log, conns := log + [Erased(c)], conns[c := conns[c].(erased := true)];
      QueueOneFunc(conns[c].loop, Destroy(c));
    }

    /** HandleClose of the connection and HandleCloseConnection of the server. */
    method HandleClose(c: ConnId)
      requires Enabled(View(), Close(c))
      modifies this
      ensures View() == Do(old(View()), Close(c)) && conns[c].closed
      ensures !old(conns)[c].closed && conns[c].loop != MAIN ==>
                && connections_ == old(connections_)
                && queues == old(queues)[MAIN := old(queues)[MAIN].(queue := old(queues)[MAIN].queue + [CloseInMain(c)])]
    {
      if !conns[c].closed {
        conns := conns[c := conns[c].(closed := true)];
        if conns[c].loop == MAIN {
          HandleCloseConnectionInPoller(c);
        } else {
          QueueOneFunc(MAIN, CloseInMain(c));
        }
      }
    }
  }
}
