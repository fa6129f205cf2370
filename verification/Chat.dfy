/**
  The chat service on several servers: presence in the users table, one Redis channel per user, the
  offline message table, and the routing of messages between them. A handler is one step.
  */
module Chat {
  import opened Bytes

  type UserId = nat
  type ServerId = nat
  type ConnId = nat
  type Message = seq<char>

  /** One message on its way to one recipient. */
  datatype Copy = Copy(user: UserId, msg: Message)

  /** A copy at a place: the connection it was sent to, or the server that Redis delivers it to. */
  datatype Record = Record(place: nat, copy: Copy)

  datatype LoginReply = NoSuchUser | WrongPassword | InUse | Welcome(offline: seq<Message>)

  // ---------------------------------------------------------------- presence

  /** The user is marked online; a user the table does not know reads as offline. */
  predicate Online(users: map<UserId, bool>, u: UserId)
  {
    u in users && users[u]
  }

  predicate Mapped(conns: seq<map<UserId, ConnId>>, s: ServerId, u: UserId)
  {
    s < |conns| && u in conns[s]
  }

  /** A user is online iff exactly one server maps the user, and just that server subscribes. */
  ghost predicate Presence(users: map<UserId, bool>, conns: seq<map<UserId, ConnId>>, subs: set<(ServerId, UserId)>)
  {
    && (forall s: ServerId, u: UserId :: (s, u) in subs <==> Mapped(conns, s, u))
    && (forall u: UserId :: Online(users, u) <==> exists s: ServerId :: Mapped(conns, s, u))
    && (forall s: ServerId, t: ServerId, u: UserId :: Mapped(conns, s, u) && Mapped(conns, t, u) ==> s == t)
  }

  function SetState(users: map<UserId, bool>, u: UserId, online: bool): map<UserId, bool>
  {
    if u in users then users[u := online] else users
  }

  /** The map's insert: an entry that is there stays. */
  function Insert(conns: map<UserId, ConnId>, u: UserId, conn: ConnId): map<UserId, ConnId>
  {
    if u in conns then conns else conns[u := conn]
  }

  lemma LoginKeepsPresence(
    users: map<UserId, bool>, conns: seq<map<UserId, ConnId>>, subs: set<(ServerId, UserId)>,
    s: ServerId, u: UserId, conn: ConnId)
    requires Presence(users, conns, subs) && s < |conns| && u in users && !users[u]
    ensures Presence(users[u := true], conns[s := Insert(conns[s], u, conn)], subs + {(s, u)})
  {
    var users', after, subs' := users[u := true], conns[s := Insert(conns[s], u, conn)], subs + {(s, u)};
    assert !Online(users, u);
    assert forall t: ServerId :: !Mapped(conns, t, u);
    assert forall t: ServerId, v: UserId :: Mapped(after, t, v) <==> Mapped(conns, t, v) || (t == s && v == u);
    forall v: UserId
      ensures Online(users', v) <==> exists t: ServerId :: Mapped(after, t, v)
    {
      if v == u {
        assert Mapped(after, s, u);
      } else {
        assert Online(users', v) <==> Online(users, v);
      }
    }
  }

  /**
    Logging `u` out on server `s`, which is also what a closed connection does, keeps the presence
    exactly when `u` is offline or `s` is the server that maps the user.
    */
  lemma LogoutKeepsPresence(
    users: map<UserId, bool>, conns: seq<map<UserId, ConnId>>, subs: set<(ServerId, UserId)>, s: ServerId, u: UserId)
    requires Presence(users, conns, subs) && s < |conns|
    ensures Presence(SetState(users, u, false), conns[s := conns[s] - {u}], subs - {(s, u)})
            <==> !Online(users, u) || u in conns[s]
  {
    var users', conns', subs' := SetState(users, u, false), conns[s := conns[s] - {u}], subs - {(s, u)};
    assert forall t: ServerId, v: UserId :: Mapped(conns', t, v) <==> Mapped(conns, t, v) && !(t == s && v == u);
    if Online(users, u) && u !in conns[s] {
      var home: ServerId :| Mapped(conns, home, u);
      assert Mapped(conns', home, u) && !Online(users', u);
    } else {
      forall v: UserId
        ensures Online(users', v) <==> exists t: ServerId :: Mapped(conns', t, v)
      {
        if v == u {
          assert u in conns[s] ==> Mapped(conns, s, u);
        } else {
          assert Online(users', v) <==> Online(users, v);
          assert forall t: ServerId :: Mapped(conns', t, v) <==> Mapped(conns, t, v);
        }
      }
    }
  }

  // ---------------------------------------------------------------- message counts

  function Copies(records: seq<Record>): multiset<Copy>
  {
    if records == [] then multiset{} else
    Copies(records[..|records| - 1]) + multiset{records[|records| - 1].copy}
  }

  lemma CopiesAppend(records: seq<Record>, r: Record)
    ensures Copies(records + [r]) == Copies(records) + multiset{r.copy}
  {
    assert (records + [r])[..|records|] == records;
  }

  lemma {:induction false} CopiesConcat(xs: seq<Record>, ys: seq<Record>)
    ensures Copies(xs + ys) == Copies(xs) + Copies(ys)
    decreases |ys|
  {
    if ys == [] {
      assert xs + ys == xs;
    } else {
      var init := ys[..|ys| - 1];
      assert (xs + ys)[..|xs + ys| - 1] == xs + init;
      CopiesConcat(xs, init);
    }
  }

  lemma CopiesRemove(records: seq<Record>, i: nat)
    requires i < |records|
    ensures Copies(records) == Copies(records[..i] + records[i + 1..]) + multiset{records[i].copy}
  {
    hide Copies;
    assert records == (records[..i] + [records[i]]) + records[i + 1..];
    CopiesConcat(records[..i] + [records[i]], records[i + 1..]);
    CopiesConcat(records[..i], records[i + 1..]);
    CopiesAppend(records[..i], records[i]);
  }

  /** The rows of the offline table for one user, and the table without them. */
  function Rows(table: seq<Copy>, u: UserId): seq<Message>
  {
    if table == [] then [] else (if table[0].user == u then [table[0].msg] else []) + Rows(table[1..], u)
  }

  function WithoutRows(table: seq<Copy>, u: UserId): seq<Copy>
  {
    if table == [] then [] else (if table[0].user == u then [] else [table[0]]) + WithoutRows(table[1..], u)
  }

  function Addressed(u: UserId, msgs: seq<Message>): multiset<Copy>
  {
    if msgs == [] then multiset{} else multiset{Copy(u, msgs[0])} + Addressed(u, msgs[1..])
  }

  lemma {:induction false} RowsPartition(table: seq<Copy>, u: UserId)
    ensures multiset(table) == Addressed(u, Rows(table, u)) + multiset(WithoutRows(table, u))
  {
    if table != [] {
      RowsPartition(table[1..], u);
      assert table == [table[0]] + table[1..];
      var rows, rest := Rows(table[1..], u), WithoutRows(table[1..], u);
      if table[0].user == u {
        assert Rows(table, u)[0] == table[0].msg && Rows(table, u)[1..] == rows;
        assert WithoutRows(table, u) == rest;
      } else {
        assert Rows(table, u) == rows;
        assert WithoutRows(table, u) == [table[0]] + rest;
      }
    }
  }

  /** The rows of a user come in the order they were stored, and so do the others. */
  lemma {:induction false} RowsInOrder(table: seq<Copy>, copy: Copy, u: UserId)
    ensures Rows(table + [copy], u) == Rows(table, u) + if copy.user == u then [copy.msg] else []
    ensures WithoutRows(table + [copy], u) == WithoutRows(table, u) + if copy.user == u then [] else [copy]
    ensures Rows([], u) == [] && WithoutRows([], u) == []
  {
    if table == [] {
      assert table + [copy] == [copy] && [copy][1..] == [];
    } else {
      assert (table + [copy])[1..] == table[1..] + [copy];
      RowsInOrder(table[1..], copy, u);
    }
  }

  lemma {:induction false} NoRowsLeft(table: seq<Copy>, u: UserId)
    ensures Rows(WithoutRows(table, u), u) == []
  {
    if table != [] {
      NoRowsLeft(table[1..], u);
      var rest := WithoutRows(table[1..], u);
      if table[0].user == u {
        assert WithoutRows(table, u) == rest;
      } else {
        assert WithoutRows(table, u)[1..] == rest;
      }
    }
  }

  // ---------------------------------------------------------------- the whole system

  /** Everything that the servers, the database and Redis hold, and what went out to the users. */
  datatype World = World(
    users: map<UserId, bool>,               // the users table: whether each known user is online
    conns: seq<map<UserId, ConnId>>,        // _userConnMap of each server
    subs: set<(ServerId, UserId)>,
    inFlight: seq<Record>,
    offline: seq<Copy>,
    sent: seq<Record>,                      // passed to a connection
    handedOver: multiset<Copy>)             // handed over at a login

  function Start(servers: nat): World
  {
    World(map[], seq(servers, _ => map[]), {}, [], [], [], multiset{})
  }

  /** All copies, wherever they are. */
  function Total(w: World): multiset<Copy>
  {
    Copies(w.sent) + Copies(w.inFlight) + multiset(w.offline) + w.handedOver
  }

  ghost predicate Present(w: World)
  {
    Presence(w.users, w.conns, w.subs)
  }

  // ---------------------------------------------------------------- the handlers as functions

  function Reply(w: World, u: UserId, passwordMatches: bool): LoginReply
  {
    if u !in w.users then NoSuchUser
    else if !passwordMatches then WrongPassword
    else if w.users[u] then InUse
    else Welcome(Rows(w.offline, u))
  }

  function LoggedIn(w: World, s: ServerId, u: UserId, passwordMatches: bool, conn: ConnId): World
    requires s < |w.conns|
  {
    if !Reply(w, u, passwordMatches).Welcome? then w else
    w.(users := w.users[u := true],
       conns := w.conns[s := Insert(w.conns[s], u, conn)],
       subs := w.subs + {(s, u)},
       offline := WithoutRows(w.offline, u),
       handedOver := w.handedOver + Addressed(u, Rows(w.offline, u)))
  }

  function LoggedOut(w: World, s: ServerId, u: UserId): World
    requires s < |w.conns|
  {
    w.(users := SetState(w.users, u, false), conns := w.conns[s := w.conns[s] - {u}], subs := w.subs - {(s, u)})
  }

  /** What a closed connection does to the user found on it: a user the table does not know keeps the subscription. */
  function Dropped(w: World, s: ServerId, u: UserId): World
    requires s < |w.conns|
  {
    if u in w.users then LoggedOut(w, s, u) else w.(conns := w.conns[s := w.conns[s] - {u}])
  }

  predicate LoggedInOn(w: World, s: ServerId, u: UserId, conn: ConnId)
  {
    Mapped(w.conns, s, u) && w.conns[s][u] == conn
  }

  /** The server drops one user of the closed connection, whichever its map yields first. */
  ghost predicate Closes(w: World, s: ServerId, conn: ConnId, d: World)
    requires s < |w.conns|
  {
    if exists u: UserId :: LoggedInOn(w, s, u, conn)
    then exists u: UserId :: LoggedInOn(w, s, u, conn) && d == Dropped(w, s, u)
    else d == w
  }

  /** PUBLISH: one delivery for every server that subscribes to the user's channel. */
  function Deliveries(subs: set<(ServerId, UserId)>, servers: nat, copy: Copy): seq<Record>
  {
    if servers == 0 then [] else
    Deliveries(subs, servers - 1, copy) + if (servers - 1, copy.user) in subs then [Record(servers - 1, copy)] else []
  }

  /** One copy from server `s`: to a local connection, to Redis, or to the offline table. */
  function Told(w: World, s: ServerId, copy: Copy): World
    requires s < |w.conns|
  {
    if !Online(w.users, copy.user) then w.(offline := w.offline + [copy])
    else if copy.user in w.conns[s] then w.(sent := w.sent + [Record(w.conns[s][copy.user], copy)])
    else w.(inFlight := w.inFlight + Deliveries(w.subs, |w.conns|, copy))
  }

  function ToldAll(w: World, s: ServerId, members: seq<UserId>, msg: Message): World
    requires s < |w.conns|
    ensures ToldAll(w, s, members, msg).conns == w.conns
  {
    if members == [] then w else
    Told(ToldAll(w, s, members[..|members| - 1], msg), s, Copy(members[|members| - 1], msg))
  }

  /** A message reaches the server it was published to: the mapped connection, or the offline table. */
  function Delivered(w: World, i: nat): World
    requires i < |w.inFlight|
  {
    var r := w.inFlight[i];
    var d := w.(inFlight := w.inFlight[..i] + w.inFlight[i + 1..]);
    if Mapped(w.conns, r.place, r.copy.user)
    then d.(sent := d.sent + [Record(w.conns[r.place][r.copy.user], r.copy)])
    else d.(offline := d.offline + [r.copy])
  }

  // ---------------------------------------------------------------- runs

  datatype Command =
    | Register(u: UserId)
    | SignIn(s: ServerId, u: UserId, passwordMatches: bool, conn: ConnId)
    | SignOut(s: ServerId, u: UserId)
    | Close(s: ServerId, conn: ConnId)
    | Tell(s: ServerId, u: UserId, msg: Message)
    | TellGroup(s: ServerId, members: seq<UserId>, msg: Message)
    | Deliver(i: nat)

  /** One command leads from `w` to `d`; one that addresses no server or no message changes nothing. */
  ghost predicate Next(w: World, command: Command, d: World)
  {
    match command
    case Register(u) => d == if u in w.users then w else w.(users := w.users[u := false])
    case SignIn(s, u, ok, conn) => d == if s < |w.conns| then LoggedIn(w, s, u, ok, conn) else w
    case SignOut(s, u) => d == if s < |w.conns| then LoggedOut(w, s, u) else w
    case Close(s, conn) => if s < |w.conns| then Closes(w, s, conn, d) else d == w
    case Tell(s, u, msg) => d == if s < |w.conns| then Told(w, s, Copy(u, msg)) else w
    case TellGroup(s, members, msg) => d == if s < |w.conns| then ToldAll(w, s, members, msg) else w
    case Deliver(i) => d == if i < |w.inFlight| then Delivered(w, i) else w
  }

  /** The worlds that a run of commands goes through. */
  ghost predicate IsRun(worlds: seq<World>, commands: seq<Command>)
  {
    && |worlds| == |commands| + 1
    && forall i :: 0 <= i < |commands| ==> Next(worlds[i], commands[i], worlds[i + 1])
  }

  function CopiesTo(users: seq<UserId>, msg: Message): multiset<Copy>
  {
    if users == [] then multiset{} else
    CopiesTo(users[..|users| - 1], msg) + multiset{Copy(users[|users| - 1], msg)}
  }

  /** The copies that a command asks the servers to route. */
  function Asks(servers: nat, command: Command): multiset<Copy>
  {
    match command
    case Tell(s, u, msg) => if s < servers then multiset{Copy(u, msg)} else multiset{}
    case TellGroup(s, members, msg) => if s < servers then CopiesTo(members, msg) else multiset{}
    case _ => multiset{}
  }

  function Asked(servers: nat, commands: seq<Command>): multiset<Copy>
  {
    if commands == [] then multiset{} else
    Asked(servers, commands[..|commands| - 1]) + Asks(servers, commands[|commands| - 1])
  }

  /** A logout of an online user comes to the server that maps the user. */
  predicate ByHolder(w: World, command: Command)
  {
    command.SignOut? && command.s < |w.conns| && Online(w.users, command.u) ==> command.u in w.conns[command.s]
  }

  // ---------------------------------------------------------------- what is kept

  /** A command keeps the presence exactly unless it logs an online user out on a server that does not map the user. */
  lemma StepKeepsPresence(w: World, command: Command, d: World)
    requires Present(w) && Next(w, command, d)
    ensures |d.conns| == |w.conns|
    ensures Present(d) <==> ByHolder(w, command)
  {
    hide Presence, Delivered, ToldAll;
    match command
    case Register(u) =>
      if u !in w.users {
        RegisterKeepsPresence(w, u);
      }
    case SignIn(s, u, ok, conn) =>
      if s < |w.conns| && Reply(w, u, ok).Welcome? {
        LoginKeepsPresence(w.users, w.conns, w.subs, s, u, conn);
      }
    case SignOut(s, u) =>
      if s < |w.conns| {
        LogoutKeepsPresence(w.users, w.conns, w.subs, s, u);
      }
    case Close(s, conn) =>
      if s < |w.conns| {
        CloseKeepsPresence(w, s, conn, d);
      }
    case Tell(_, _, _) =>
    case TellGroup(s, members, msg) => if s < |w.conns| { TellLeaves(w, s, members, msg); }
    case Deliver(i) => if i < |w.inFlight| { DeliverConserves(w, i); }
  }

  lemma RegisterKeepsPresence(w: World, u: UserId)
    requires Present(w) && u !in w.users
    ensures Present(w.(users := w.users[u := false]))
  {
    var users' := w.users[u := false];
    assert forall v: UserId :: Online(users', v) <==> Online(w.users, v);
  }

  lemma CloseKeepsPresence(w: World, s: ServerId, conn: ConnId, d: World)
    requires Present(w) && s < |w.conns| && Closes(w, s, conn, d)
    ensures Present(d) && |d.conns| == |w.conns|
  {
    if u: UserId :| LoggedInOn(w, s, u, conn) && d == Dropped(w, s, u) {
      assert Mapped(w.conns, s, u) && Online(w.users, u);
      LogoutKeepsPresence(w.users, w.conns, w.subs, s, u);
    }
  }

  lemma {:induction false} TellLeaves(w: World, s: ServerId, members: seq<UserId>, msg: Message)
    requires s < |w.conns|
    ensures var d := ToldAll(w, s, members, msg);
            d.users == w.users && d.conns == w.conns && d.subs == w.subs && d.handedOver == w.handedOver
  {
    if members != [] {
      TellLeaves(w, s, members[..|members| - 1], msg);
    }
  }

  /**
    A closed connection is forgotten exactly when at most one user had logged in on it: a second one
    stays mapped to it, and online.
    */
  lemma CloseForgetsConnection(w: World, s: ServerId, conn: ConnId, d: World)
    requires s < |w.conns| && Closes(w, s, conn, d)
    ensures conn !in d.conns[s].Values
            <==> forall u: UserId, v: UserId :: LoggedInOn(w, s, u, conn) && LoggedInOn(w, s, v, conn) ==> u == v
    ensures forall v: UserId :: Mapped(d.conns, s, v) ==> Online(d.users, v) == Online(w.users, v)
  {
    if gone: UserId :| LoggedInOn(w, s, gone, conn) && d == Dropped(w, s, gone) {
      forall v: UserId | LoggedInOn(w, s, v, conn) && v != gone
        ensures conn in d.conns[s].Values
      {
        assert d.conns[s][v] == conn;
      }
      if conn in d.conns[s].Values {
        var v: UserId :| v in d.conns[s] && d.conns[s][v] == conn;
        assert LoggedInOn(w, s, v, conn) && v != gone;
      }
    } else if conn in d.conns[s].Values {
      var v: UserId :| v in d.conns[s] && d.conns[s][v] == conn;
      assert LoggedInOn(w, s, v, conn);
    }
  }

  // ---------------------------------------------------------------- conservation

  lemma TotalGrows(w: World, r: Record)
    ensures var more := Total(w) + multiset{r.copy};
            && Total(w.(sent := w.sent + [r])) == more
            && Total(w.(inFlight := w.inFlight + [r])) == more
            && Total(w.(offline := w.offline + [r.copy])) == more
  {
    hide Copies;
    CopiesAppend(w.sent, r);
    CopiesAppend(w.inFlight, r);
    var sent, rest := Copies(w.sent), multiset(w.offline) + w.handedOver;
    assert sent + multiset{r.copy} + Copies(w.inFlight) + rest == sent + Copies(w.inFlight) + rest + multiset{r.copy};
  }

  /** Taking a message out of flight, or a user's rows out of the table, takes just those copies out. */
  lemma TotalShrinks(w: World, i: nat)
    requires i < |w.inFlight|
    ensures Total(w) == Total(w.(inFlight := w.inFlight[..i] + w.inFlight[i + 1..])) + multiset{w.inFlight[i].copy}
  {
    CopiesRemove(w.inFlight, i);
  }

  lemma TotalHandsOver(w: World, s: ServerId, u: UserId, passwordMatches: bool, conn: ConnId)
    requires s < |w.conns|
    ensures Total(LoggedIn(w, s, u, passwordMatches, conn)) == Total(w)
  {
    RowsPartition(w.offline, u);
  }

  /** How often a copy comes out of a publish: once for every server that subscribes. */
  lemma {:induction false} DeliveriesCount(w: World, servers: nat, copy: Copy)
    ensures Total(w.(inFlight := w.inFlight + Deliveries(w.subs, servers, copy)))
            == Total(w) + multiset{}[copy := |Deliveries(w.subs, servers, copy)|]
  {
    hide Total;
    var more := Deliveries(w.subs, servers, copy);
    if servers == 0 {
      assert w.inFlight + [] == w.inFlight;
    } else {
      DeliveriesCount(w, servers - 1, copy);
      var fewer := Deliveries(w.subs, servers - 1, copy);
      if (servers - 1, copy.user) in w.subs {
        TotalGrows(w.(inFlight := w.inFlight + fewer), Record(servers - 1, copy));
        assert w.inFlight + more == w.inFlight + fewer + [Record(servers - 1, copy)];
        assert multiset{}[copy := |more|] == multiset{}[copy := |fewer|] + multiset{copy};
      } else {
        assert more == fewer;
      }
    }
  }

  /** Exactly one server subscribes to the user's channel. */
  ghost predicate OneSubscribes(w: World, u: UserId)
  {
    exists s: ServerId :: s < |w.conns| && (s, u) in w.subs &&
      forall t: ServerId :: t < |w.conns| && (t, u) in w.subs ==> t == s
  }

  /** The deliveries go to the subscribing servers, one to each. */
  lemma {:induction false} DeliveriesMatch(subs: set<(ServerId, UserId)>, servers: nat, copy: Copy)
    ensures var ds := Deliveries(subs, servers, copy);
            && (forall s: ServerId :: (s < servers && (s, copy.user) in subs) <==> Record(s, copy) in ds)
            && (forall i :: 0 <= i < |ds| ==> ds[i].copy == copy && ds[i].place < servers)
            && (forall i, j :: 0 <= i < j < |ds| ==> ds[i] != ds[j])
  {
    if servers > 0 {
      DeliveriesMatch(subs, servers - 1, copy);
    }
  }

  lemma FirstTwoDiffer(rs: seq<Record>)
    requires forall i, j :: 0 <= i < j < |rs| ==> rs[i] != rs[j]
    ensures |rs| > 1 ==> exists r, q :: r in rs && q in rs && r != q
  {
    if |rs| > 1 {
      var r, q := rs[0], rs[1];
      assert r in rs && q in rs && r != q;
    }
  }

  lemma OneDelivery(w: World, copy: Copy)
    ensures |Deliveries(w.subs, |w.conns|, copy)| == 1 <==> OneSubscribes(w, copy.user)
  {
    hide Deliveries;
    DeliveriesMatch(w.subs, |w.conns|, copy);
    var ds := Deliveries(w.subs, |w.conns|, copy);
    if |ds| == 1 {
      assert ds[0] in ds && ds[0] == Record(ds[0].place, copy);
      forall t: ServerId | t < |w.conns| && (t, copy.user) in w.subs ensures t == ds[0].place {
        assert Record(t, copy) in ds;
      }
    }
    if OneSubscribes(w, copy.user) {
      var s: ServerId :| s < |w.conns| && (s, copy.user) in w.subs &&
        forall t: ServerId :: t < |w.conns| && (t, copy.user) in w.subs ==> t == s;
      assert Record(s, copy) in ds;
      forall r | r in ds ensures r == Record(s, copy) {
        assert r == Record(r.place, copy);
      }
      FirstTwoDiffer(ds);
    }
  }

  /**
    Routing one copy adds exactly that copy to the system if and only if the user is offline, or on
    the sending server, or exactly one server subscribes.
    */
  lemma TellConservesExactly(w: World, s: ServerId, copy: Copy)
    requires s < |w.conns|
    ensures Total(Told(w, s, copy)) == Total(w) + multiset{copy}
            <==> !Online(w.users, copy.user) || copy.user in w.conns[s] || OneSubscribes(w, copy.user)
  {
    hide Deliveries, Total;
    if !Online(w.users, copy.user) {
      TotalGrows(w, Record(s, copy));
    } else if copy.user in w.conns[s] {
      TotalGrows(w, Record(w.conns[s][copy.user], copy));
    } else {
      var n := |Deliveries(w.subs, |w.conns|, copy)|;
      DeliveriesCount(w, |w.conns|, copy);
      assert (Total(w) + multiset{}[copy := n])[copy] == Total(w)[copy] + n;
      assert (Total(w) + multiset{copy})[copy] == Total(w)[copy] + 1;
      assert n == 1 ==> multiset{}[copy := n] == multiset{copy};
      OneDelivery(w, copy);
    }
  }

  /** With the presence intact that is always so: the one delivery goes to the server that maps the user. */
  lemma {:induction false} DeliveriesWhenPresent(w: World, servers: nat, copy: Copy, home: ServerId)
    requires Present(w) && servers <= |w.conns| && Mapped(w.conns, home, copy.user)
    ensures Deliveries(w.subs, servers, copy) == if home < servers then [Record(home, copy)] else []
  {
    if servers > 0 {
      DeliveriesWhenPresent(w, servers - 1, copy, home);
    }
  }

  lemma TellConserves(w: World, s: ServerId, copy: Copy)
    requires Present(w) && s < |w.conns|
    ensures Total(Told(w, s, copy)) == Total(w) + multiset{copy}
  {
    hide Total, Deliveries;
    if Online(w.users, copy.user) {
      var home: ServerId :| Mapped(w.conns, home, copy.user);
      DeliveriesWhenPresent(w, |w.conns|, copy, home);
      OneDelivery(w, copy);
    }
    TellConservesExactly(w, s, copy);
  }

  lemma {:induction false} TellAllConserves(w: World, s: ServerId, members: seq<UserId>, msg: Message)
    requires Present(w) && s < |w.conns|
    ensures Total(ToldAll(w, s, members, msg)) == Total(w) + CopiesTo(members, msg)
  {
    hide Total, Presence, Told;
    if members != [] {
      var init, last := members[..|members| - 1], members[|members| - 1];
      TellAllConserves(w, s, init, msg);
      TellLeaves(w, s, init, msg);
      TellConserves(ToldAll(w, s, init, msg), s, Copy(last, msg));
      assert Total(w) + CopiesTo(init, msg) + multiset{Copy(last, msg)}
             == Total(w) + (CopiesTo(init, msg) + multiset{Copy(last, msg)});
    }
  }

  lemma DeliverConserves(w: World, i: nat)
    requires i < |w.inFlight|
    ensures Total(Delivered(w, i)) == Total(w)
    ensures var d := Delivered(w, i);
            d.users == w.users && d.conns == w.conns && d.subs == w.subs
  {
    hide Total;
    var r := w.inFlight[i];
    var d := w.(inFlight := w.inFlight[..i] + w.inFlight[i + 1..]);
    TotalShrinks(w, i);
    if Mapped(w.conns, r.place, r.copy.user) {
      TotalGrows(d, Record(w.conns[r.place][r.copy.user], r.copy));
    } else {
      TotalGrows(d, r);
    }
  }

  lemma StepConserves(w: World, command: Command, d: World)
    requires Present(w) && Next(w, command, d)
    ensures Total(d) == Total(w) + Asks(|w.conns|, command)
  {
    hide Presence, Total, Told, ToldAll, Delivered, LoggedIn;
    match command
    case Register(u) => SamePlaces(w, d);
    case SignIn(s, u, ok, conn) => if s < |w.conns| { TotalHandsOver(w, s, u, ok, conn); }
    case SignOut(s, u) => SamePlaces(w, d);
    case Close(s, conn) => SamePlaces(w, d);
    case Tell(s, u, msg) => if s < |w.conns| { TellConserves(w, s, Copy(u, msg)); }
    case TellGroup(s, members, msg) => if s < |w.conns| { TellAllConserves(w, s, members, msg); }
    case Deliver(i) => if i < |w.inFlight| { DeliverConserves(w, i); }
  }

  lemma SamePlaces(w: World, d: World)
    requires d.sent == w.sent && d.inFlight == w.inFlight && d.offline == w.offline && d.handedOver == w.handedOver
    ensures Total(d) == Total(w)
  {
  }

  /**
    Every run in which online users are logged out only where they are mapped: a user is online iff
    exactly one server maps and subscribes, and every copy that was asked for is in exactly one place.
    */
  lemma {:induction false} EveryRunConserves(servers: nat, worlds: seq<World>, commands: seq<Command>)
    requires IsRun(worlds, commands) && worlds[0] == Start(servers)
    requires forall i :: 0 <= i < |commands| ==> ByHolder(worlds[i], commands[i])
    ensures var w := worlds[|commands|];
            Present(w) && |w.conns| == servers && Total(w) == Asked(servers, commands)
    decreases |commands|
  {
    hide Presence, Total, Asks, Next;
    var n := |commands|;
    if n == 0 {
      NothingAtStart(servers);
    } else {
      var ws, cs := worlds[..n], commands[..n - 1];
      assert forall i :: 0 <= i < n ==> ws[i] == worlds[i];
      assert forall i :: 0 <= i < n - 1 ==> cs[i] == commands[i];
      EveryRunConserves(servers, ws, cs);
      StepKeepsPresence(worlds[n - 1], commands[n - 1], worlds[n]);
      StepConserves(worlds[n - 1], commands[n - 1], worlds[n]);
    }
  }

  lemma NothingAtStart(servers: nat)
    ensures Present(Start(servers)) && Total(Start(servers)) == multiset{}
  {
  }

  /** Any run, logouts anywhere: presence is lost at the first logout that no holder sends, and not before. */
  lemma {:induction false} PresenceUntilStray(servers: nat, worlds: seq<World>, commands: seq<Command>)
    requires IsRun(worlds, commands) && worlds[0] == Start(servers)
    ensures (forall i :: 0 <= i <= |commands| ==> Present(worlds[i]))
            <==> forall i :: 0 <= i < |commands| ==> ByHolder(worlds[i], commands[i])
    decreases |commands|
  {
    hide Presence, Next, ByHolder;
    var n := |commands|;
    if n == 0 {
      NothingAtStart(servers);
    } else {
      var ws, cs := worlds[..n], commands[..n - 1];
      assert forall i :: 0 <= i < n ==> ws[i] == worlds[i];
      assert forall i :: 0 <= i < n - 1 ==> cs[i] == commands[i];
      PresenceUntilStray(servers, ws, cs);
      if Present(worlds[n - 1]) {
        StepKeepsPresence(worlds[n - 1], commands[n - 1], worlds[n]);
      }
    }
  }

  /** Two users on one connection: when it closes, one of them stays online and mapped to it. */
  lemma TwoLoginsOneClose(conn: ConnId) returns (worlds: seq<World>)
    ensures var commands :=
              [Register(1), Register(2), SignIn(0, 1, true, conn), SignIn(0, 2, true, conn), Close(0, conn)];
            IsRun(worlds, commands) && worlds[0] == Start(1)
    ensures var w := worlds[5];
            LoggedInOn(w, 0, 2, conn) && Online(w.users, 2) && !Online(w.users, 1)
  {
    var w0 := Start(1);
    var w1 := w0.(users := w0.users[1 := false]);
    var w2 := w1.(users := w1.users[2 := false]);
    var w3 := LoggedIn(w2, 0, 1, true, conn);
    var w4 := LoggedIn(w3, 0, 2, true, conn);
    var w5 := Dropped(w4, 0, 1);
    worlds := [w0, w1, w2, w3, w4, w5];
    assert LoggedInOn(w4, 0, 1, conn);
  }

  /** A logout on a server that does not map the user: after the next login a message is delivered twice. */
  lemma StrayLogoutDoubles(u: UserId, conn: ConnId, msg: Message) returns (worlds: seq<World>)
    ensures var commands :=
              [Register(u), SignIn(0, u, true, conn), SignOut(1, u), SignIn(1, u, true, conn), Tell(2, u, msg)];
            IsRun(worlds, commands) && worlds[0] == Start(3)
    ensures worlds[5].inFlight == [Record(0, Copy(u, msg)), Record(1, Copy(u, msg))]
  {
    var w0, copy := Start(3), Copy(u, msg);
    var w1 := w0.(users := w0.users[u := false]);
    var w2 := LoggedIn(w1, 0, u, true, conn);
    var w3 := LoggedOut(w2, 1, u);
    var w4 := LoggedIn(w3, 1, u, true, conn);
    var w5 := Told(w4, 2, copy);
    worlds := [w0, w1, w2, w3, w4, w5];
    assert w4.subs == {(0, u), (1, u)};
    assert Deliveries(w4.subs, 1, copy) == [Record(0, copy)];
    assert Deliveries(w4.subs, 2, copy) == [Record(0, copy), Record(1, copy)];
    assert Deliveries(w4.subs, 3, copy) == [Record(0, copy), Record(1, copy)];
  }

  // ---------------------------------------------------------------- the servers

  /** The servers with their shared database and Redis, changed in place by one handler at a time. */
  class Cluster {
    var users: map<UserId, bool>
    var conns: seq<map<UserId, ConnId>>
    var subs: set<(ServerId, UserId)>
    var inFlight: seq<Record>
    var offline: seq<Copy>
    var sent: seq<Record>
    var handedOver: multiset<Copy>

    function Value(): World
      reads this
    {
      World(users, conns, subs, inFlight, offline, sent, handedOver)
    }

    constructor (servers: nat)
      ensures Value() == Start(servers)
    {
      users, conns, subs := map[], seq(servers, _ => map[]), {};
      inFlight, offline, sent, handedOver := [], [], [], multiset{};
    }

    /** A successful login takes the user's offline messages along; any other leaves everything as it is. */
    method Login(s: ServerId, u: UserId, passwordMatches: bool, conn: ConnId) returns (reply: LoginReply)
      requires s < |conns|
      modifies this
      ensures Value() == LoggedIn(old(Value()), s, u, passwordMatches, conn)
      ensures reply.Welcome? <==> u in old(users) && !old(users)[u] && passwordMatches
      ensures reply.NoSuchUser? <==> u !in old(users)
      ensures reply.WrongPassword? <==> u in old(users) && !passwordMatches
      ensures reply.InUse? <==> u in old(users) && passwordMatches && old(users)[u]
      ensures !reply.Welcome? ==> Value() == old(Value())
      ensures reply.Welcome? ==>
                && reply.offline == Rows(old(offline), u) && Rows(offline, u) == []
                && users == old(users)[u := true] && subs == old(subs) + {(s, u)} && u in conns[s]
                && (u !in old(conns)[s] ==> conns[s][u] == conn)
                && sent == old(sent) && inFlight == old(inFlight)
    {
      if u !in users {
        return NoSuchUser;
      }
      if !passwordMatches {
        return WrongPassword;
      }
      if users[u] {
        return InUse;
      }
      users := users[u := true];
      conns := conns[s := Insert(conns[s], u, conn)];
      subs := subs + {(s, u)};
      var rows := Rows(offline, u);
      NoRowsLeft(offline, u);
      handedOver := handedOver + Addressed(u, rows);
      offline := WithoutRows(offline, u);
      return Welcome(rows);
    }

    method LoginOut(s: ServerId, u: UserId)
      requires s < |conns|
      modifies this
      ensures Value() == LoggedOut(old(Value()), s, u)
      ensures !Online(users, u) && u !in conns[s] && (s, u) !in subs
      ensures forall v :: v != u ==> (v in users <==> v in old(users)) && (v in users ==> users[v] == old(users)[v])
      ensures forall t: ServerId, v: UserId :: (t, v) != (s, u) ==> (Mapped(conns, t, v) <==> Mapped(old(conns), t, v))
      ensures sent == old(sent) && inFlight == old(inFlight) && offline == old(offline)
    {
      if u in conns[s] {
        conns := conns[s := conns[s] - {u}];
      } else {
        assert conns[s] - {u} == conns[s];
      }
      users := SetState(users, u, false);
      subs := subs - {(s, u)};
    }

    /** Logs out the first user found on a closed connection, if there is one. */
    method ClientCloseException(s: ServerId, conn: ConnId)
      requires s < |conns|
      modifies this
      ensures Closes(old(Value()), s, conn, Value())
      ensures conn !in conns[s].Values
              <==> forall u: UserId, v: UserId ::
                     LoggedInOn(old(Value()), s, u, conn) && LoggedInOn(old(Value()), s, v, conn) ==> u == v
    {
      ghost var before := Value();
      var todo := conns[s].Keys;
      var found: Option<UserId> := None;
      while todo != {} && found.None?
        invariant todo <= conns[s].Keys
        invariant found.None? ==> forall u: UserId :: u in conns[s] && u !in todo ==> conns[s][u] != conn
        invariant found.Some? ==> LoggedInOn(before, s, found.value, conn)
        decreases |todo|
      {
        var u :| u in todo;
        todo := todo - {u};
        if conns[s][u] == conn {
          found := Some(u);
        }
      }
      if found.Some? {
        conns := conns[s := conns[s] - {found.value}];
        if found.value in users {
          users := users[found.value := false];
          subs := subs - {(s, found.value)};
        }
      }
      assert found.Some? ==> Value() == Dropped(before, s, found.value);
      CloseForgetsConnection(before, s, conn, Value());
    }

    /** PUBLISH: every server that subscribes to the user's channel gets the message. */
    method Publish(copy: Copy)
      modifies this`inFlight
      ensures inFlight == old(inFlight) + Deliveries(subs, |conns|, copy)
    {
      for s := 0 to |conns|
        invariant inFlight == old(inFlight) + Deliveries(subs, s, copy)
      {
        if (s, copy.user) in subs {
          inFlight := inFlight + [Record(s, copy)];
        }
      }
    }

    /** Routes one copy to a local connection, to Redis, or to the offline table. */
    method OneChat(s: ServerId, u: UserId, msg: Message)
      requires s < |conns|
      modifies this`sent, this`inFlight, this`offline
      ensures Value() == Told(old(Value()), s, Copy(u, msg))
      ensures Online(users, u) && u in conns[s] ==>
                && sent == old(sent) + [Record(conns[s][u], Copy(u, msg))]
                && inFlight == old(inFlight) && offline == old(offline)
      ensures Online(users, u) && u !in conns[s] ==>
                && inFlight == old(inFlight) + Deliveries(subs, |conns|, Copy(u, msg))
                && sent == old(sent) && offline == old(offline)
      ensures !Online(users, u) ==>
                offline == old(offline) + [Copy(u, msg)] && sent == old(sent) && inFlight == old(inFlight)
    {
      if u in conns[s] && Online(users, u) {
        sent := sent + [Record(conns[s][u], Copy(u, msg))];
      } else if Online(users, u) {
        Publish(Copy(u, msg));
      } else {
        offline := offline + [Copy(u, msg)];
      }
    }

    /** The same for every member of a group but the sender. */
    method GroupChat(s: ServerId, members: seq<UserId>, msg: Message)
      requires s < |conns|
      modifies this`sent, this`inFlight, this`offline
      ensures Value() == ToldAll(old(Value()), s, members, msg)
    {
      hide Told;
      for i := 0 to |members|
        invariant Value() == ToldAll(old(Value()), s, members[..i], msg)
      {
        assert members[..i + 1][..i] == members[..i];
        OneChat(s, members[i], msg);
      }
      assert members[..|members|] == members;
    }

    /** Redis delivers one message in flight to the server it was published to. */
    method HandleRedisSubscribeMessage(i: nat)
      requires i < |inFlight|
      modifies this`sent, this`inFlight, this`offline
      ensures Value() == Delivered(old(Value()), i)
      ensures var r := old(inFlight)[i];
              && inFlight == old(inFlight)[..i] + old(inFlight)[i + 1..]
              && if Mapped(conns, r.place, r.copy.user)
                 then sent == old(sent) + [Record(conns[r.place][r.copy.user], r.copy)] && offline == old(offline)
                 else offline == old(offline) + [r.copy] && sent == old(sent)
    {
      var r := inFlight[i];
      inFlight := inFlight[..i] + inFlight[i + 1..];
      if Mapped(conns, r.place, r.copy.user) {
        sent := sent + [Record(conns[r.place][r.copy.user], r.copy)];
      } else {
        offline := offline + [r.copy];
      }
    }
  }

  /** One command, if it addresses a server or a message that is there. */
  method Handle(c: Cluster, command: Command)
    modifies c
    ensures Next(old(c.Value()), command, c.Value())
  {
    hide Told, ToldAll, Delivered, LoggedIn, LoggedOut, Closes;
    match command {
      case Register(u) =>
        if u !in c.users {
          c.users := c.users[u := false];
        }
      case SignIn(s, u, passwordMatches, conn) =>
        if s < |c.conns| {
          var _ := c.Login(s, u, passwordMatches, conn);
        }
      case SignOut(s, u) =>
        if s < |c.conns| {
          c.LoginOut(s, u);
        }
      case Close(s, conn) =>
        if s < |c.conns| {
          c.ClientCloseException(s, conn);
        }
      case Tell(s, u, msg) =>
        if s < |c.conns| {
          c.OneChat(s, u, msg);
        }
      case TellGroup(s, members, msg) =>
        if s < |c.conns| {
          c.GroupChat(s, members, msg);
        }
      case Deliver(i) =>
        if i < |c.inFlight| {
          c.HandleRedisSubscribeMessage(i);
        }
    }
  }

  /** Real servers that handle any commands go through a run. */
  method Replay(servers: nat, commands: seq<Command>) returns (worlds: seq<World>)
    ensures IsRun(worlds, commands) && worlds[0] == Start(servers)
  {
    hide Next;
    var c := new Cluster(servers);
    worlds := [c.Value()];
    for i := 0 to |commands|
      invariant fresh(c) && IsRun(worlds, commands[..i]) && worlds[0] == Start(servers) && worlds[i] == c.Value()
    {
      Handle(c, commands[i]);
      worlds := worlds + [c.Value()];
      assert forall k :: 0 <= k < i ==> commands[..i + 1][k] == commands[..i][k];
    }
    assert commands[..|commands|] == commands;
  }
}
