/**
  The life of connections in a server with a base loop (number 0) and any number of I/O loops: the
  accepting, closing and destroying steps run on different threads and hand over through queues.
  */
module Servers {
  import opened Bytes
  import opened Pollers
  import opened Phases

  type ConnId = nat
  type LoopId = nat

  const BASE: LoopId := 0

  datatype Task = Establish(c: ConnId) | RemoveInLoop(c: ConnId) | Destroy(c: ConnId)

  /** What a loop is doing: in poll, at one of its active channels, or in its batch of tasks. */
  datatype Activity = Polling | Dispatching(active: seq<ConnId>, at: nat) | RunningTasks(batch: seq<Task>)

  datatype Conn = Conn(loop: LoopId, phase: Phase, reg: Registration, destroyed: nat)

  datatype Server = Server(
    conns: map<ConnId, Conn>,       // every connection that was ever made
    connections: set<ConnId>,       // connections_
    nextConnId: ConnId,
    queues: seq<seq<Task>>,
    activity: seq<Activity>)

  datatype Step =
    | NewConnection(loop: LoopId)
    | PollReturns(l: LoopId, ready: seq<ConnId>)
    | HandleClose(l: LoopId)
    | HandleWrite(l: LoopId)
    | NextChannel(l: LoopId)
    | EndDispatch(l: LoopId)
    | RunTask(l: LoopId)
    | EndTasks(l: LoopId)
    | StartWriting(l: LoopId, c: ConnId)
    | Shutdown(c: ConnId)

  function Initial(loops: nat): Server
    requires loops > 0
  {
    Server(map[], {}, 1, seq(loops, _ => []), seq(loops, _ => Polling))
  }

  // ---------------------------------------------------------------- pieces of steps

  function SetConn(s: Server, c: ConnId, conn: Conn): Server
  {
    s.(conns := s.conns[c := conn])
  }

  function Post(s: Server, l: LoopId, t: Task): Server
    requires l < |s.queues|
  {
    s.(queues := s.queues[l := s.queues[l] + [t]])
  }

  function Become(s: Server, l: LoopId, a: Activity): Server
    requires l < |s.activity|
  {
    s.(activity := s.activity[l := a])
  }

  function Established(conn: Conn): Conn
  {
    conn.(phase := Connected, reg := Act(conn.reg, AbleRead))
  }

  function Destroyed(conn: Conn): Conn
  {
    conn.(phase := if conn.phase.Connected? then Disconnected else conn.phase,
          reg := Act(Act(conn.reg, DisableAll), RemoveIt), destroyed := conn.destroyed + 1)
  }

  function ConnectEstablished(s: Server, c: ConnId): Server
    requires c in s.conns
  {
    SetConn(s, c, Established(s.conns[c]))
  }

  function RemoveConnectionInLoop(s: Server, c: ConnId): Server
    requires c in s.conns && s.conns[c].loop < |s.queues|
  {
    Post(s.(connections := s.connections - {c}), s.conns[c].loop, Destroy(c))
  }

  function ConnectDestroyed(s: Server, c: ConnId): Server
    requires c in s.conns
  {
    SetConn(s, c, Destroyed(s.conns[c]))
  }

  /** runInLoop on the base loop: at once from the base loop itself, queued from any other. */
  function RemoveConnection(s: Server, from: LoopId, c: ConnId): Server
    requires c in s.conns && s.conns[c].loop < |s.queues|
  {
    if from == BASE then RemoveConnectionInLoop(s, c) else Post(s, BASE, RemoveInLoop(c))
  }

  function Accept(s: Server, loop: LoopId): Server
    requires loop < |s.queues|
  {
    var c := s.nextConnId;
    var made := s.(conns := s.conns[c := Conn(loop, Connecting, FRESH, 0)],
                   connections := s.connections + {c}, nextConnId := c + 1);
    if loop == BASE then ConnectEstablished(made, c) else Post(made, loop, Establish(c))
  }

  // ---------------------------------------------------------------- steps

  predicate Sized(s: Server)
  {
    && 0 < |s.queues| == |s.activity|
    && forall c :: c in s.conns ==> s.conns[c].loop < |s.queues|
  }

  predicate Distinct(cs: seq<ConnId>)
  {
    forall i, j :: 0 <= i < j < |cs| ==> cs[i] != cs[j]
  }

  /** The loop stands at an active channel. */
  predicate AtChannel(s: Server, l: LoopId)
  {
    && l < |s.activity| && s.activity[l].Dispatching? && s.activity[l].at < |s.activity[l].active|
    && s.activity[l].active[s.activity[l].at] in s.conns
  }

  function Current(s: Server, l: LoopId): ConnId
    requires AtChannel(s, l)
  {
    s.activity[l].active[s.activity[l].at]
  }

  predicate Enabled(s: Server, step: Step)
  {
    Sized(s) &&
    match step
    case NewConnection(loop) => loop < |s.queues| && s.activity[BASE].Dispatching?
    case PollReturns(l, ready) =>
      && l < |s.activity| && s.activity[l].Polling? && Distinct(ready)
      && forall c :: c in ready ==> c in s.conns && s.conns[c].loop == l && s.conns[c].reg.kernel.Some?
    case HandleClose(l) => AtChannel(s, l)
    case HandleWrite(l) => AtChannel(s, l)
    case NextChannel(l) => AtChannel(s, l)
    case EndDispatch(l) => l < |s.activity| && s.activity[l].Dispatching? && s.activity[l].at >= |s.activity[l].active|
    case RunTask(l) =>
      && l < |s.activity| && s.activity[l].RunningTasks? && s.activity[l].batch != []
      && s.activity[l].batch[0].c in s.conns
    case EndTasks(l) => l < |s.activity| && s.activity[l].RunningTasks? && s.activity[l].batch == []
    case StartWriting(l, c) =>
      // sendInLoop, direct or queued, on the connection's own loop
      && l < |s.activity| && !s.activity[l].Polling? && c in s.conns && s.conns[c].loop == l
      && (s.conns[c].phase.Connected? || s.conns[c].phase.Disconnecting?)
    case Shutdown(c) => c in s.conns && s.conns[c].phase.Connected?
  }

  function Next(s: Server, step: Step): Server
    requires Enabled(s, step)
  {
    match step
    case NewConnection(loop) => Accept(s, loop)
    case PollReturns(l, ready) => Become(s, l, Dispatching(ready, 0))
    case HandleClose(l) =>
      var c := Current(s, l);
      RemoveConnection(SetConn(s, c, s.conns[c].(phase := Disconnected)), l, c)
    case HandleWrite(l) =>
      var c := Current(s, l);
      SetConn(s, c, s.conns[c].(reg := Act(s.conns[c].reg, DisableWrite)))
    case NextChannel(l) => Become(s, l, s.activity[l].(at := s.activity[l].at + 1))
    case EndDispatch(l) => Become(s.(queues := s.queues[l := []]), l, RunningTasks(s.queues[l]))
    case RunTask(l) =>
      var batch := s.activity[l].batch;
      var popped := Become(s, l, RunningTasks(batch[1..]));
      (match batch[0]
       case Establish(c) => ConnectEstablished(popped, c)
       case RemoveInLoop(c) => RemoveConnectionInLoop(popped, c)
       case Destroy(c) => ConnectDestroyed(popped, c))
    case EndTasks(l) => Become(s, l, Polling)
    case StartWriting(l, c) => SetConn(s, c, s.conns[c].(reg := Act(s.conns[c].reg, AbleWrite)))
    case Shutdown(c) => SetConn(s, c, s.conns[c].(phase := Disconnecting))
  }

  // ---------------------------------------------------------------- the invariant

  function Batch(a: Activity): seq<Task>
  {
    if a.RunningTasks? then a.batch else []
  }

  /** How often a loop has still to run a task. */
  function Waiting(s: Server, l: LoopId, t: Task): nat
    requires l < |s.queues| == |s.activity|
  {
    multiset(Batch(s.activity[l]))[t] + multiset(s.queues[l])[t]
  }

  /** Every task waits on the loop that may run it. */
  ghost predicate TasksAtHome(s: Server)
    requires Sized(s)
  {
    forall l, t :: 0 <= l < |s.queues| && Waiting(s, l, t) > 0 ==> AtHome(s, l, t)
  }

  ghost predicate AtHome(s: Server, l: LoopId, t: Task)
  {
    t.c in s.conns && if t.RemoveInLoop? then l == BASE else s.conns[t.c].loop == l
  }

  /** The channels being dispatched belong to established connections that nobody has destroyed. */
  ghost predicate ActiveLive(s: Server)
    requires Sized(s)
  {
    forall l, c :: 0 <= l < |s.activity| && s.activity[l].Dispatching? && c in s.activity[l].active ==>
      c in s.conns && s.conns[c].loop == l && !s.conns[c].phase.Connecting? && s.conns[c].destroyed == 0
  }

  /**
    What holds of one connection, given whether connections_ lists it and how many tasks are waiting
    to establish it, to remove it from the list and to destroy it.
    */
  ghost predicate ConnOk(conn: Conn, listed: bool, establishing: nat, removing: nat, destroying: nat)
  {
    && Agreement(conn.reg)
    && establishing == (if conn.phase.Connecting? then 1 else 0)
    && (conn.phase.Connecting? ==> conn.reg == FRESH && conn.destroyed == 0 && listed)
    // Only a closed connection is on its way out, and it has left the list when its end is queued.
    && (removing > 0 || destroying > 0 ==> conn.phase.Disconnected?)
    && (destroying > 0 ==> !listed)
    // A destroyed connection is gone from everywhere.
    && (conn.destroyed > 0 ==> !listed && conn.reg == FRESH && conn.phase.Disconnected?)
    // Until then an established one is registered, watched for reading, and owned by list or task.
    && (!conn.phase.Connecting? && conn.destroyed == 0 ==>
          conn.reg.index == Added && IsRead(conn.reg.events) && (listed || destroying > 0))
    // A closed connection is never forgotten.
    && (conn.phase.Disconnected? && conn.destroyed == 0 ==> removing > 0 || destroying > 0)
  }

  ghost predicate ConnSound(s: Server, c: ConnId)
    requires Sized(s) && c in s.conns
  {
    var conn := s.conns[c];
    ConnOk(conn, c in s.connections, Waiting(s, conn.loop, Establish(c)),
           Waiting(s, BASE, RemoveInLoop(c)), Waiting(s, conn.loop, Destroy(c)))
  }

  ghost predicate Sound(s: Server)
  {
    && Sized(s) && TasksAtHome(s) && ActiveLive(s)
    && s.connections <= s.conns.Keys
    && (forall c :: c in s.conns ==> c < s.nextConnId)
    && (forall c :: c in s.conns ==> ConnSound(s, c))
  }

  // ---------------------------------------------------------------- one connection at a time

  lemma EstablishOk(conn: Conn, listed: bool, e: nat, r: nat, d: nat)
    requires ConnOk(conn, listed, e, r, d) && e > 0
    ensures ConnOk(Established(conn), listed, e - 1, r, d)
  {
    ReadInterest(conn.reg.events);
  }

  lemma CloseOk(conn: Conn, listed: bool, e: nat, r: nat, d: nat)
    requires ConnOk(conn, listed, e, r, d) && !conn.phase.Connecting? && conn.destroyed == 0
    ensures ConnOk(conn.(phase := Disconnected), listed, e, r + 1, d)
    ensures ConnOk(conn.(phase := Disconnected), false, e, r, d + 1)
  {
  }

  lemma RemoveOk(conn: Conn, listed: bool, e: nat, r: nat, d: nat)
    requires ConnOk(conn, listed, e, r, d) && r > 0
    ensures ConnOk(conn, false, e, r - 1, d + 1)
  {
  }

  lemma DestroyOk(conn: Conn, listed: bool, e: nat, r: nat, d: nat)
    requires ConnOk(conn, listed, e, r, d) && d > 0
    ensures ConnOk(Destroyed(conn), listed, e, r, d - 1)
    ensures Destroyed(conn).reg == FRESH && !listed
  {
    TeardownAbsent(conn.reg, []);
    Teardown(conn.reg);
  }

  lemma Teardown(reg: Registration)
    requires Agreement(reg)
    ensures Act(Act(reg, DisableAll), RemoveIt) == FRESH
  {
  }

  lemma InterestOk(conn: Conn, listed: bool, e: nat, r: nat, d: nat, action: Action)
    requires ConnOk(conn, listed, e, r, d) && !conn.phase.Connecting? && conn.destroyed == 0
    requires action == AbleWrite || action == DisableWrite
    ensures ConnOk(conn.(reg := Act(conn.reg, action)), listed, e, r, d)
  {
    ActKeepsAgreement(conn.reg, action);
    ReadInterest(Interest(conn.reg.events, action));
    WriteLeavesRead(conn.reg.events);
    UnwriteLeavesRead(conn.reg.events);
    hide Interest;
  }

  lemma ShutdownOk(conn: Conn, listed: bool, e: nat, r: nat, d: nat)
    requires ConnOk(conn, listed, e, r, d) && conn.phase.Connected?
    ensures ConnOk(conn.(phase := Disconnecting), listed, e, r, d)
  {
  }

  // ---------------------------------------------------------------- every step keeps it

  /** From `s` to `next` loop `l` loses the task `gone` and loop `at` gains the task `posted`. */
  ghost predicate Delta(s: Server, next: Server, l: LoopId, gone: Option<Task>, at: LoopId, posted: Option<Task>)
    requires |s.queues| == |s.activity| == |next.queues| == |next.activity|
  {
    forall k, t :: 0 <= k < |s.queues| ==>
      Waiting(next, k, t) == Waiting(s, k, t) - (if k == l && gone == Some(t) then 1 else 0)
                                              + (if k == at && posted == Some(t) then 1 else 0)
  }

  lemma QueueDelta(s: Server, next: Server, l: LoopId, gone: Option<Task>, at: LoopId, posted: Option<Task>)
    requires |s.queues| == |s.activity| == |next.activity| && l < |s.queues| && at < |s.queues|
    requires gone.Some? ==>
               && s.activity[l].RunningTasks? && s.activity[l].batch != [] && s.activity[l].batch[0] == gone.value
               && next.activity == s.activity[l := RunningTasks(s.activity[l].batch[1..])]
    requires gone.None? ==> next.activity == s.activity
    requires next.queues == if posted.Some? then s.queues[at := s.queues[at] + [posted.value]] else s.queues
    ensures Delta(s, next, l, gone, at, posted)
    ensures gone.Some? ==> Waiting(s, l, gone.value) > 0
  {
    if gone.Some? {
      var batch := s.activity[l].batch;
      assert batch == [batch[0]] + batch[1..];
    }
  }

  /** A step that only concerns connection `c` leaves the others as sound as they were. */
  lemma OthersSound(s: Server, next: Server, c: ConnId, l: LoopId, gone: Option<Task>, at: LoopId, posted: Option<Task>)
    requires Sound(s) && Sized(next) && |s.queues| == |next.queues| && l < |s.queues| && at < |s.queues|
    requires Delta(s, next, l, gone, at, posted)
    requires next.conns.Keys == s.conns.Keys + {c}
    requires c in s.conns ==> next.conns[c].loop == s.conns[c].loop
    requires forall d :: d in s.conns && d != c ==> next.conns[d] == s.conns[d]
    requires next.connections - {c} == s.connections - {c}
    requires gone.Some? ==> gone.value.c == c
    requires posted.Some? ==> posted.value.c == c && AtHome(next, at, posted.value)
    ensures TasksAtHome(next)
    ensures forall d :: d in s.conns && d != c ==> ConnSound(next, d)
  {
    hide ConnOk, Waiting;
    forall k, t | 0 <= k < |next.queues| && Waiting(next, k, t) > 0
      ensures AtHome(next, k, t)
    {
      if !(k == at && posted == Some(t)) {
        assert AtHome(s, k, t);
      }
    }
    forall d | d in s.conns && d != c
      ensures ConnSound(next, d)
    {
      assert ConnSound(s, d);
      assert d in next.connections - {c} <==> d in s.connections - {c};
      var loop := s.conns[d].loop;
      assert Waiting(next, loop, Establish(d)) == Waiting(s, loop, Establish(d));
      assert Waiting(next, loop, Destroy(d)) == Waiting(s, loop, Destroy(d));
      assert Waiting(next, BASE, RemoveInLoop(d)) == Waiting(s, BASE, RemoveInLoop(d));
    }
  }

  /** The channels being dispatched stay live unless a step destroys one on a loop that dispatches. */
  lemma ActiveKept(s: Server, next: Server, c: ConnId)
    requires Sized(s) && Sized(next) && ActiveLive(s) && |next.activity| == |s.activity|
    requires forall k :: 0 <= k < |s.activity| && next.activity[k].Dispatching? ==> next.activity[k] == s.activity[k]
    requires s.conns.Keys <= next.conns.Keys && forall d :: d in s.conns && d != c ==> next.conns[d] == s.conns[d]
    requires c in s.conns ==>
               && next.conns[c].loop == s.conns[c].loop
               && (next.activity[s.conns[c].loop].Dispatching? ==>
                     && (next.conns[c].phase.Connecting? ==> s.conns[c].phase.Connecting?)
                     && next.conns[c].destroyed == s.conns[c].destroyed)
    ensures ActiveLive(next)
  {
  }

  /** How the tasks of one connection are counted after a step. */
  function Counted(s: Server, k: LoopId, t: Task, l: LoopId, gone: Option<Task>, at: LoopId, posted: Option<Task>): int
    requires k < |s.queues| == |s.activity|
  {
    Waiting(s, k, t) - (if k == l && gone == Some(t) then 1 else 0) + (if k == at && posted == Some(t) then 1 else 0)
  }

  /** A connection is sound after a step if it is with the tasks counted so. */
  lemma ConnKept(
    s: Server, next: Server, c: ConnId, l: LoopId, gone: Option<Task>, at: LoopId, posted: Option<Task>,
    e: nat, r: nat, d: nat)
    requires Sized(s) && Sized(next) && |s.queues| == |next.queues| && c in next.conns
    requires Delta(s, next, l, gone, at, posted)
    requires var loop := next.conns[c].loop;
             && e == Counted(s, loop, Establish(c), l, gone, at, posted)
             && r == Counted(s, BASE, RemoveInLoop(c), l, gone, at, posted)
             && d == Counted(s, loop, Destroy(c), l, gone, at, posted)
    requires ConnOk(next.conns[c], c in next.connections, e, r, d)
    ensures ConnSound(next, c)
  {
    hide ConnOk, Waiting;
    var loop := next.conns[c].loop;
    assert e == Waiting(next, loop, Establish(c));
    assert r == Waiting(next, BASE, RemoveInLoop(c));
    assert d == Waiting(next, loop, Destroy(c));
  }

  lemma AcceptSound(s: Server, loop: LoopId)
    requires Sound(s) && Enabled(s, NewConnection(loop))
    ensures Sound(Next(s, NewConnection(loop)))
  {
    hide ConnOk, Act, Waiting, ActiveLive;
    var next, c := Next(s, NewConnection(loop)), s.nextConnId;
    var posted := if loop == BASE then None else Some(Establish(c));
    QueueDelta(s, next, loop, None, loop, posted);
    OthersSound(s, next, c, loop, None, loop, posted);
    ActiveKept(s, next, c);
    NoTasks(s, c);
    NewOk(loop);
    ConnKept(s, next, c, loop, None, loop, posted, if loop == BASE then 0 else 1, 0, 0);
  }

  lemma NewOk(loop: LoopId)
    ensures ConnOk(Conn(loop, Connecting, FRESH, 0), true, 1, 0, 0)
    ensures ConnOk(Established(Conn(loop, Connecting, FRESH, 0)), true, 0, 0, 0)
  {
    EstablishOk(Conn(loop, Connecting, FRESH, 0), true, 1, 0, 0);
  }

  lemma NoTasks(s: Server, c: ConnId)
    requires Sound(s) && c !in s.conns
    ensures forall l, t: Task :: 0 <= l < |s.queues| && t.c == c ==> Waiting(s, l, t) == 0
  {
    hide Waiting;
  }

  lemma CloseSound(s: Server, l: LoopId)
    requires Sound(s) && Enabled(s, HandleClose(l))
    ensures Sound(Next(s, HandleClose(l)))
  {
    hide ConnOk, Waiting, ActiveLive, Next, Delta;
    CurrentLive(s, l);
    CloseShape(s, l);
    var next, c := Next(s, HandleClose(l)), Current(s, l);
    OthersSound(s, next, c, l, None, BASE, Some(if l == BASE then Destroy(c) else RemoveInLoop(c)));
    ActiveKept(s, next, c);
    CloseKeepsConn(s, next, l, c);
  }

  /** What a close changes. */
  lemma CloseShape(s: Server, l: LoopId)
    requires Enabled(s, HandleClose(l)) && s.conns[Current(s, l)].loop == l
    ensures var next, c := Next(s, HandleClose(l)), Current(s, l);
            && Sized(next) && |next.queues| == |s.queues| && next.activity == s.activity
            && next.nextConnId == s.nextConnId && next.conns.Keys == s.conns.Keys
            && next.conns == s.conns[c := s.conns[c].(phase := Disconnected)]
            && next.connections == (if l == BASE then s.connections - {c} else s.connections)
            && Delta(s, next, l, None, BASE, Some(if l == BASE then Destroy(c) else RemoveInLoop(c)))
  {
    hide Waiting, Delta;
    var c := Current(s, l);
    QueueDelta(s, Next(s, HandleClose(l)), l, None, BASE, Some(if l == BASE then Destroy(c) else RemoveInLoop(c)));
  }

  /** The connection that is closed by its loop. */
  lemma CloseKeepsConn(s: Server, next: Server, l: LoopId, c: ConnId)
    requires Sized(s) && Sized(next) && |next.queues| == |s.queues| && l < |s.queues| && c in s.conns && ConnSound(s, c)
    requires s.conns[c].loop == l && !s.conns[c].phase.Connecting? && s.conns[c].destroyed == 0
    requires Delta(s, next, l, None, BASE, Some(if l == BASE then Destroy(c) else RemoveInLoop(c)))
    requires c in next.conns && next.conns[c] == s.conns[c].(phase := Disconnected)
    requires c in next.connections <==> c in s.connections && l != BASE
    ensures ConnSound(next, c)
  {
    hide ConnOk, Act, Waiting, Delta;
    var e, r, d := Waiting(s, l, Establish(c)), Waiting(s, BASE, RemoveInLoop(c)), Waiting(s, l, Destroy(c));
    CloseOk(s.conns[c], c in s.connections, e, r, d);
    if l == BASE {
      ConnKept(s, next, c, l, None, BASE, Some(Destroy(c)), e, r, d + 1);
    } else {
      ConnKept(s, next, c, l, None, BASE, Some(RemoveInLoop(c)), e, r + 1, d);
    }
  }

  lemma CurrentLive(s: Server, l: LoopId)
    requires Sound(s) && AtChannel(s, l)
    ensures var c := Current(s, l);
            ConnSound(s, c) && s.conns[c].loop == l && !s.conns[c].phase.Connecting? && s.conns[c].destroyed == 0
  {
    hide ConnOk, Waiting;
    assert Current(s, l) in s.activity[l].active;
  }

  lemma RunSound(s: Server, l: LoopId)
    requires Sound(s) && Enabled(s, RunTask(l))
    ensures Sound(Next(s, RunTask(l)))
  {
    hide ConnOk, Act, Waiting, ActiveLive;
    var next, t := Next(s, RunTask(l)), s.activity[l].batch[0];
    var posted := if t.RemoveInLoop? then Some(Destroy(t.c)) else None;
    QueueDelta(s, next, l, Some(t), s.conns[t.c].loop, posted);
    assert AtHome(s, l, t);
    OthersSound(s, next, t.c, l, Some(t), s.conns[t.c].loop, posted);
    ActiveKept(s, next, t.c);
    TaskKeepsConn(s, next, l, t);
  }

  /** The connection of the task that is run. */
  lemma TaskKeepsConn(s: Server, next: Server, l: LoopId, t: Task)
    requires Sized(s) && Sized(next) && |next.queues| == |s.queues| && l < |s.queues| && Waiting(s, l, t) > 0
    requires AtHome(s, l, t) && ConnSound(s, t.c)
    requires var at, posted := s.conns[t.c].loop, if t.RemoveInLoop? then Some(Destroy(t.c)) else None;
             Delta(s, next, l, Some(t), at, posted)
    requires t.c in next.conns && next.conns[t.c] == match t
               case Establish(c) => Established(s.conns[c])
               case RemoveInLoop(c) => s.conns[c]
               case Destroy(c) => Destroyed(s.conns[c])
    requires t.c in next.connections <==> t.c in s.connections && !t.RemoveInLoop?
    ensures ConnSound(next, t.c)
  {
    hide ConnOk, Act, Waiting, Delta;
    var c := t.c;
    var at, listed := s.conns[c].loop, c in s.connections;
    var e, r, d := Waiting(s, at, Establish(c)), Waiting(s, BASE, RemoveInLoop(c)), Waiting(s, at, Destroy(c));
    match t
    case Establish(_) =>
      EstablishOk(s.conns[c], listed, e, r, d);
      ConnKept(s, next, c, l, Some(t), at, None, e - 1, r, d);
    case RemoveInLoop(_) =>
      RemoveOk(s.conns[c], listed, e, r, d);
      ConnKept(s, next, c, l, Some(t), at, Some(Destroy(c)), e, r - 1, d + 1);
    case Destroy(_) =>
      DestroyOk(s.conns[c], listed, e, r, d);
      ConnKept(s, next, c, l, Some(t), at, None, e, r, d - 1);
  }

  /** Steps that move between the phases of a loop. */
  lemma PhaseSound(s: Server, step: Step)
    requires Sound(s) && Enabled(s, step)
    requires step.PollReturns? || step.NextChannel? || step.EndDispatch? || step.EndTasks?
    ensures Sound(Next(s, step))
  {
    hide Act, ConnOk, Waiting;
    var next := Next(s, step);
    PhaseWaiting(s, step);
    forall c | c in s.conns
      ensures ConnSound(next, c)
    {
      assert ConnSound(s, c);
    }
    forall l, c | 0 <= l < |next.activity| && next.activity[l].Dispatching? && c in next.activity[l].active
      ensures c in s.conns && s.conns[c].loop == l && !s.conns[c].phase.Connecting? && s.conns[c].destroyed == 0
    {
      if step.PollReturns? && l == step.l {
        assert ConnSound(s, c);
        RegisteredLive(s, c);
      }
    }
    assert forall l, t :: AtHome(next, l, t) <==> AtHome(s, l, t);
  }

  lemma PhaseWaiting(s: Server, step: Step)
    requires Enabled(s, step)
    requires step.PollReturns? || step.NextChannel? || step.EndDispatch? || step.EndTasks?
    ensures forall k, t :: 0 <= k < |s.queues| ==> Waiting(Next(s, step), k, t) == Waiting(s, k, t)
  {
  }

  lemma RegisteredLive(s: Server, c: ConnId)
    requires Sized(s) && c in s.conns && ConnSound(s, c) && s.conns[c].reg.kernel.Some?
    ensures !s.conns[c].phase.Connecting? && s.conns[c].destroyed == 0
  {
    hide Waiting;
  }

  /** A step that changes one connection, no list and no queue is sound if the connection stays so. */
  lemma ChangeSound(s: Server, c: ConnId, conn: Conn)
    requires Sound(s) && c in s.conns && conn.loop == s.conns[c].loop
    requires !s.conns[c].phase.Connecting? && !conn.phase.Connecting? && conn.destroyed == s.conns[c].destroyed
    requires ConnOk(conn, c in s.connections, Waiting(s, conn.loop, Establish(c)),
                    Waiting(s, BASE, RemoveInLoop(c)), Waiting(s, conn.loop, Destroy(c)))
    ensures Sound(SetConn(s, c, conn))
  {
    hide ConnOk, Waiting;
    var next := SetConn(s, c, conn);
    QueueDelta(s, next, BASE, None, BASE, None);
    OthersSound(s, next, c, BASE, None, BASE, None);
    assert ConnSound(next, c);
  }

  /** Steps in which one connection changes its write interest or begins to shut down. */
  lemma InterestSound(s: Server, step: Step)
    requires Sound(s) && Enabled(s, step)
    requires step.HandleWrite? || step.StartWriting? || step.Shutdown?
    ensures Sound(Next(s, step))
  {
    hide ConnOk, Act, Waiting;
    var c := if step.HandleWrite? then Current(s, step.l) else step.c;
    assert ConnSound(s, c);
    var conn, listed, e := s.conns[c], c in s.connections, Waiting(s, s.conns[c].loop, Establish(c));
    var r, d := Waiting(s, BASE, RemoveInLoop(c)), Waiting(s, s.conns[c].loop, Destroy(c));
    match step
    case HandleWrite(_) =>
      InterestOk(conn, listed, e, r, d, DisableWrite);
      ChangeSound(s, c, conn.(reg := Act(conn.reg, DisableWrite)));
    case StartWriting(_, _) =>
      OpenNotDestroyed(conn, listed, e, r, d);
      InterestOk(conn, listed, e, r, d, AbleWrite);
      ChangeSound(s, c, conn.(reg := Act(conn.reg, AbleWrite)));
    case Shutdown(_) =>
      ShutdownOk(conn, listed, e, r, d);
      ChangeSound(s, c, conn.(phase := Disconnecting));
  }

  lemma OpenNotDestroyed(conn: Conn, listed: bool, e: nat, r: nat, d: nat)
    requires ConnOk(conn, listed, e, r, d) && !conn.phase.Disconnected?
    ensures conn.destroyed == 0
  {
  }

  lemma StepSound(s: Server, step: Step)
    requires Sound(s) && Enabled(s, step)
    ensures Sound(Next(s, step))
  {
    hide Sound, Next;
    match step
    case NewConnection(loop) => AcceptSound(s, loop);
    case HandleClose(l) => CloseSound(s, l);
    case RunTask(l) => RunSound(s, l);
    case HandleWrite(_) => InterestSound(s, step);
    case StartWriting(_, _) => InterestSound(s, step);
    case Shutdown(_) => InterestSound(s, step);
    case _ => PhaseSound(s, step);
  }

  // ---------------------------------------------------------------- runs

  predicate CanRun(s: Server, steps: seq<Step>)
    decreases |steps|
  {
    steps == [] || (Enabled(s, steps[0]) && CanRun(Next(s, steps[0]), steps[1..]))
  }

  function Run(s: Server, steps: seq<Step>): Server
    requires CanRun(s, steps)
    decreases |steps|
  {
    if steps == [] then s else Run(Next(s, steps[0]), steps[1..])
  }

  lemma InitialSound(loops: nat)
    requires loops > 0
    ensures Sound(Initial(loops))
  {
  }

  lemma {:induction false} RunKeepsSound(s: Server, steps: seq<Step>)
    requires Sound(s) && CanRun(s, steps)
    ensures Sound(Run(s, steps))
    decreases |steps|
  {
    hide Sound, Next;
    if steps != [] {
      StepSound(s, steps[0]);
      RunKeepsSound(Next(s, steps[0]), steps[1..]);
    }
  }

  /** Whatever the loops do, in any order, every reachable server is sound. */
  lemma EveryRunSound(loops: nat, steps: seq<Step>)
    requires loops > 0 && CanRun(Initial(loops), steps)
    ensures Sound(Run(Initial(loops), steps))
  {
    InitialSound(loops);
    RunKeepsSound(Initial(loops), steps);
  }

  /**
    Until the dispatch of an iteration ends, every channel that poll placed in it, visited or not, is
    established, registered with the poller and the kernel, and owned by connections_ or by the task
    that will destroy it.
    */
  lemma ActiveChannelsAlive(s: Server, l: LoopId, c: ConnId)
    requires Sound(s) && l < |s.activity| && s.activity[l].Dispatching? && c in s.activity[l].active
    ensures c in s.conns && !s.conns[c].phase.Connecting?
    ensures var reg := s.conns[c].reg;
            reg.index == Added && reg.listed && reg.kernel == Some(reg.events)
    ensures c in s.connections || Waiting(s, l, Destroy(c)) > 0
  {
    hide Waiting;
    assert ConnSound(s, c);
  }

  lemma StepKeepsClosed(s: Server, step: Step, c: ConnId)
    requires Sound(s) && Enabled(s, step) && c in s.conns && s.conns[c].phase.Disconnected?
    ensures c in Next(s, step).conns && Next(s, step).conns[c].phase.Disconnected?
    ensures s.conns[c].destroyed <= Next(s, step).conns[c].destroyed
  {
    hide Act, Waiting;
    assert ConnSound(s, c);
    if step.RunTask? {
      var t := s.activity[step.l].batch[0];
      var next := s.(activity := s.activity[step.l := RunningTasks(s.activity[step.l].batch[1..])]);
      QueueDelta(s, next, step.l, Some(t), step.l, None);
      assert AtHome(s, step.l, t);
    }
  }

  /** A disconnected connection stays disconnected, and a destroyed one stays destroyed. */
  lemma {:induction false} ClosedForever(s: Server, steps: seq<Step>, c: ConnId)
    requires Sound(s) && CanRun(s, steps) && c in s.conns && s.conns[c].phase.Disconnected?
    ensures var end := Run(s, steps);
            c in end.conns && end.conns[c].phase.Disconnected? && s.conns[c].destroyed <= end.conns[c].destroyed
    decreases |steps|
  {
    hide Sound, Next;
    if steps != [] {
      StepKeepsClosed(s, steps[0], c);
      StepSound(s, steps[0]);
      ClosedForever(Next(s, steps[0]), steps[1..], c);
    }
  }

  /**
    After its first connectDestroyed, and through any later ones, a connection is in neither
    connections_, the poller's table nor the kernel set, whatever happens next.
    */
  lemma DestroyedAbsentForever(s: Server, l: LoopId, steps: seq<Step>)
    requires Sound(s) && Enabled(s, RunTask(l)) && s.activity[l].batch[0].Destroy?
    requires CanRun(Next(s, RunTask(l)), steps)
    ensures var c, end := s.activity[l].batch[0].c, Run(Next(s, RunTask(l)), steps);
            c in end.conns && c !in end.connections && end.conns[c].reg == FRESH && end.conns[c].destroyed > 0
  {
    var c, next := s.activity[l].batch[0].c, Next(s, RunTask(l));
    StepSound(s, RunTask(l));
    RunKeepsSound(next, steps);
    assert ConnSound(next, c);
    ClosedForever(next, steps, c);
    assert ConnSound(Run(next, steps), c);
  }

  /** Teardown is never forgotten: when no task is waiting anywhere, every closed connection is destroyed. */
  lemma QuiescentDestroyed(s: Server, c: ConnId)
    requires Sound(s) && forall l, t :: 0 <= l < |s.queues| ==> Waiting(s, l, t) == 0
    requires c in s.conns
    ensures s.conns[c].phase.Disconnected? <==> s.conns[c].destroyed > 0
    ensures !s.conns[c].phase.Connecting?
  {
    hide Waiting;
    assert ConnSound(s, c);
  }

  /** In every reachable server a destruction is queued only for a connection that has been closed. */
  lemma DestructionFollowsClose(loops: nat, steps: seq<Step>, c: ConnId)
    requires loops > 0 && CanRun(Initial(loops), steps)
    requires var s := Run(Initial(loops), steps);
             Sized(s) && c in s.conns && Waiting(s, s.conns[c].loop, Destroy(c)) > 0
    ensures Run(Initial(loops), steps).conns[c].phase.Disconnected?
  {
    hide Waiting;
    var s := Run(Initial(loops), steps);
    EveryRunSound(loops, steps);
    assert ConnSound(s, c);
  }

  // ---------------------------------------------------------------- what becomes of a connection

  /** No loop has a task left to run. */
  ghost predicate Quiet(s: Server)
    requires Sized(s)
  {
    forall l, t :: 0 <= l < |s.queues| ==> Waiting(s, l, t) == 0
  }

  /**
    A connection whose close has been handled: whatever the loops do next, once they have run all
    their tasks it is destroyed, and gone from list, table and kernel.
    */
  lemma ClosedGetsDestroyed(s: Server, l: LoopId, steps: seq<Step>)
    requires Sound(s) && Enabled(s, HandleClose(l)) && CanRun(Next(s, HandleClose(l)), steps)
    requires Sized(Run(Next(s, HandleClose(l)), steps)) && Quiet(Run(Next(s, HandleClose(l)), steps))
    ensures var c, end := Current(s, l), Run(Next(s, HandleClose(l)), steps);
            c in end.conns && end.conns[c].destroyed > 0 && c !in end.connections && end.conns[c].reg == FRESH
  {
    hide Waiting, Next;
    var c, next := Current(s, l), Next(s, HandleClose(l));
    CurrentLive(s, l);
    CloseShape(s, l);
    StepSound(s, HandleClose(l));
    ClosedForever(next, steps, c);
    RunKeepsSound(next, steps);
    QuiescentDestroyed(Run(next, steps), c);
    assert ConnSound(Run(next, steps), c);
  }

  /**
    A new connection has a name of its own and is listed at once; once the loops have run all their
    tasks it is established, and if it has not been closed it is still listed and listened to.
    */
  lemma AcceptedGetsEstablished(s: Server, loop: LoopId, steps: seq<Step>)
    requires Sound(s) && Enabled(s, NewConnection(loop)) && CanRun(Next(s, NewConnection(loop)), steps)
    requires Sized(Run(Next(s, NewConnection(loop)), steps)) && Quiet(Run(Next(s, NewConnection(loop)), steps))
    ensures s.nextConnId !in s.conns
    ensures var c, next := s.nextConnId, Next(s, NewConnection(loop));
            && next.conns.Keys == s.conns.Keys + {c} && next.connections == s.connections + {c}
            && (loop == BASE ==> next.conns[c].phase.Connected?)
    ensures var c, end := s.nextConnId, Run(Next(s, NewConnection(loop)), steps);
            && c in end.conns && end.conns[c].loop == loop && !end.conns[c].phase.Connecting?
            && (!end.conns[c].phase.Disconnected? ==>
                  && c in end.connections && end.conns[c].reg.index == Added && IsRead(end.conns[c].reg.events)
                  && end.conns[c].reg.kernel == Some(end.conns[c].reg.events))
  {
    hide Waiting, Enabled, Act;
    var c, next := s.nextConnId, Next(s, NewConnection(loop));
    StepSound(s, NewConnection(loop));
    RunKeepsSound(next, steps);
    KeepsConns(next, steps, c);
    var end := Run(next, steps);
    QuiescentDestroyed(end, c);
    assert ConnSound(end, c);
  }

  lemma {:induction false} KeepsConns(s: Server, steps: seq<Step>, c: ConnId)
    requires Sound(s) && CanRun(s, steps) && c in s.conns
    ensures c in Run(s, steps).conns && Run(s, steps).conns[c].loop == s.conns[c].loop
    decreases |steps|
  {
    hide Sound, Next, Enabled;
    if steps != [] {
      StepKeepsConn(s, steps[0], c);
      StepSound(s, steps[0]);
      KeepsConns(Next(s, steps[0]), steps[1..], c);
    }
  }

  lemma StepKeepsConn(s: Server, step: Step, c: ConnId)
    requires Sound(s) && Enabled(s, step) && c in s.conns
    ensures c in Next(s, step).conns && Next(s, step).conns[c].loop == s.conns[c].loop
  {
    hide Act, Waiting, ConnOk;
  }

  /** The other steps on one connection do what they are named for, to that connection alone. */
  lemma ConnectionSteps(s: Server, step: Step)
    requires Enabled(s, step) && (step.HandleWrite? || step.StartWriting? || step.Shutdown?)
    ensures var c, next := if step.HandleWrite? then Current(s, step.l) else step.c, Next(s, step);
            && next == SetConn(s, c, next.conns[c])
            && (step.HandleWrite? ==> !IsWrite(next.conns[c].reg.events) && next.conns[c].phase == s.conns[c].phase)
            && (step.StartWriting? ==> IsWrite(next.conns[c].reg.events) && next.conns[c].phase == s.conns[c].phase)
            && (step.Shutdown? ==> next.conns[c] == s.conns[c].(phase := Disconnecting))
  {
    hide Act, IsWrite;
    var c := if step.HandleWrite? then Current(s, step.l) else step.c;
    WriteActs(s.conns[c].reg);
  }

  lemma WriteActs(reg: Registration)
    ensures IsWrite(Act(reg, AbleWrite).events) && !IsWrite(Act(reg, DisableWrite).events)
  {
    hide Interest, IsWrite;
    WriteInterest(reg.events);
  }
}
