/**
  Where messages go, told from the commands alone: who is signed in where, and on which connection.
  */
module ChatRuns {
  import opened Bytes
  import opened Chat

  // ---------------------------------------------------------------- sessions

  /**
    The connection of the user's session on server `s` after `n` commands: that of the latest sign-in
    there that succeeded, unless a sign-out there or the close of its connection has ended it since.
    Which of several users a close drops is seen from the users table.
    */
  ghost function Session(worlds: seq<World>, commands: seq<Command>, n: nat, s: ServerId, u: UserId): Option<ConnId>
    requires n <= |commands| < |worlds|
  {
    if n == 0 then None else
    var before := Session(worlds, commands, n - 1, s, u);
    match commands[n - 1]
    case SignIn(t, v, passwordMatches, conn) =>
      if (t, v) == (s, u) && passwordMatches && u in worlds[n - 1].users && !worlds[n - 1].users[u] then Some(conn)
      else before
    case SignOut(t, v) => if (t, v) == (s, u) then None else before
    case Close(t, conn) => if t == s && before == Some(conn) && !Online(worlds[n].users, u) then None else before
    case _ => before
  }

  /** Every logout of an online user comes to the server that maps the user. */
  ghost predicate Orderly(worlds: seq<World>, commands: seq<Command>)
    requires |worlds| == |commands| + 1
  {
    forall i :: 0 <= i < |commands| ==> ByHolder(worlds[i], commands[i])
  }

  /** The servers' maps hold exactly the sessions. */
  ghost predicate SessionsMapped(worlds: seq<World>, commands: seq<Command>, n: nat)
    requires n <= |commands| < |worlds|
  {
    forall s: ServerId, u: UserId :: s < |worlds[n].conns| ==>
      match Session(worlds, commands, n, s, u)
      case None => u !in worlds[n].conns[s]
      case Some(conn) => u in worlds[n].conns[s] && worlds[n].conns[s][u] == conn
  }

  lemma {:induction false} PresentAt(servers: nat, worlds: seq<World>, commands: seq<Command>, n: nat)
    requires IsRun(worlds, commands) && worlds[0] == Start(servers) && Orderly(worlds, commands) && n <= |commands|
    ensures Present(worlds[n]) && |worlds[n].conns| == servers
  {
    hide Presence, Next;
    var ws, cs := worlds[..n + 1], commands[..n];
    assert forall i :: 0 <= i <= n ==> ws[i] == worlds[i];
    assert forall i :: 0 <= i < n ==> cs[i] == commands[i];
    EveryRunConserves(servers, ws, cs);
  }

  lemma {:induction false} SessionsAreMapped(servers: nat, worlds: seq<World>, commands: seq<Command>, n: nat)
    requires IsRun(worlds, commands) && worlds[0] == Start(servers) && Orderly(worlds, commands) && n <= |commands|
    ensures SessionsMapped(worlds, commands, n)
  {
    if n > 0 {
      hide Presence, Next;
      SessionsAreMapped(servers, worlds, commands, n - 1);
      PresentAt(servers, worlds, commands, n - 1);
      PresentAt(servers, worlds, commands, n);
      forall s: ServerId, u: UserId | s < |worlds[n].conns|
        ensures match Session(worlds, commands, n, s, u)
                case None => u !in worlds[n].conns[s]
                case Some(conn) => u in worlds[n].conns[s] && worlds[n].conns[s][u] == conn
      {
        StepMaps(worlds[n - 1], commands[n - 1], worlds[n], s, u);
      }
    }
  }

  /** What one command does to one entry of one server's map. */
  lemma StepMaps(w: World, command: Command, d: World, s: ServerId, u: UserId)
    requires Present(w) && Next(w, command, d) && s < |w.conns|
    ensures |d.conns| == |w.conns|
    ensures match command
            case SignIn(t, v, ok, conn) =>
              if (t, v) == (s, u) && ok && u in w.users && !w.users[u] then u in d.conns[s] && d.conns[s][u] == conn
              else SameEntry(w, d, s, u)
            case SignOut(t, v) => if (t, v) == (s, u) then u !in d.conns[s] else SameEntry(w, d, s, u)
            case Close(t, conn) =>
              if t == s && u in w.conns[s] && w.conns[s][u] == conn && !Online(d.users, u) then u !in d.conns[s]
              else SameEntry(w, d, s, u)
            case _ => SameEntry(w, d, s, u)
  {
    hide Deliveries, Presence;
    EntryMeansOnline(w, s, u);
    assert Mapped(w.conns, s, u) <==> u in w.conns[s];
    match command
    case Close(t, conn) => if t < |w.conns| { CloseMaps(w, t, conn, d, s, u); }
    case TellGroup(t, members, msg) => if t < |w.conns| { TellLeaves(w, t, members, msg); }
    case _ =>
  }

  lemma EntryMeansOnline(w: World, s: ServerId, u: UserId)
    requires Present(w)
    ensures Mapped(w.conns, s, u) ==> Online(w.users, u)
  {
  }

  lemma CloseMaps(w: World, t: ServerId, conn: ConnId, d: World, s: ServerId, u: UserId)
    requires Present(w) && t < |w.conns| && s < |w.conns| && Closes(w, t, conn, d)
    ensures |d.conns| == |w.conns|
    ensures if t == s && u in w.conns[s] && w.conns[s][u] == conn && !Online(d.users, u) then u !in d.conns[s]
            else SameEntry(w, d, s, u)
  {
    assert Mapped(w.conns, s, u) ==> Online(w.users, u);
    if LoggedInOn(w, s, u, conn) {
      assert t == s ==> exists v: UserId :: LoggedInOn(w, t, v, conn);
    }
    if v: UserId :| LoggedInOn(w, t, v, conn) && d == Dropped(w, t, v) {
      assert Mapped(w.conns, t, v) && Online(w.users, v);
      assert v != u ==> Online(d.users, u) == Online(w.users, u);
      assert v == u && t != s ==> !Mapped(w.conns, s, u);
    }
  }

  ghost predicate SameEntry(w: World, d: World, s: ServerId, u: UserId)
    requires s < |w.conns| && s < |d.conns|
  {
    (u in w.conns[s] <==> u in d.conns[s]) && (u in w.conns[s] ==> w.conns[s][u] == d.conns[s][u])
  }

  // ---------------------------------------------------------------- who is online

  /** Some server has a session of the user. */
  ghost predicate SignedIn(worlds: seq<World>, commands: seq<Command>, n: nat, servers: nat, u: UserId)
    requires n <= |commands| < |worlds|
  {
    exists s: ServerId :: s < servers && Session(worlds, commands, n, s, u).Some?
  }

  /** A user is online exactly while there is a session somewhere. */
  lemma OnlineExactly(servers: nat, worlds: seq<World>, commands: seq<Command>, n: nat, u: UserId)
    requires IsRun(worlds, commands) && worlds[0] == Start(servers) && Orderly(worlds, commands) && n <= |commands|
    ensures Online(worlds[n].users, u) <==> SignedIn(worlds, commands, n, servers, u)
  {
    hide Next, Session;
    var w := worlds[n];
    PresentAt(servers, worlds, commands, n);
    SessionsAreMapped(servers, worlds, commands, n);
    if Online(w.users, u) {
      var s: ServerId :| Mapped(w.conns, s, u);
      assert Session(worlds, commands, n, s, u).Some?;
      assert SignedIn(worlds, commands, n, servers, u);
    }
    if SignedIn(worlds, commands, n, servers, u) {
      var s: ServerId :| s < servers && Session(worlds, commands, n, s, u).Some?;
      assert Mapped(w.conns, s, u);
      EntryMeansOnline(w, s, u);
    }
  }

  /** A user is known once registered. */
  lemma {:induction false} KnownExactly(servers: nat, worlds: seq<World>, commands: seq<Command>, n: nat, u: UserId)
    requires IsRun(worlds, commands) && worlds[0] == Start(servers) && n <= |commands|
    ensures u in worlds[n].users <==> exists i :: 0 <= i < n && commands[i] == Register(u)
  {
    if n > 0 {
      KnownExactly(servers, worlds, commands, n - 1, u);
      StepKnown(worlds[n - 1], commands[n - 1], worlds[n], u);
      assert Next(worlds[n - 1], commands[n - 1], worlds[n]);
    }
  }

  lemma StepKnown(w: World, command: Command, d: World, u: UserId)
    requires Next(w, command, d)
    ensures u in d.users <==> u in w.users || command == Register(u)
  {
    hide Deliveries;
    match command
    case TellGroup(t, members, msg) => if t < |w.conns| { TellLeaves(w, t, members, msg); }
    case _ =>
  }

  /** In any run at all, a user comes online only by a sign-in of that user with the right password. */
  lemma OnlyPasswordsLetIn(worlds: seq<World>, commands: seq<Command>, i: nat, u: UserId)
    requires IsRun(worlds, commands) && i < |commands|
    requires !Online(worlds[i].users, u) && Online(worlds[i + 1].users, u)
    ensures commands[i].SignIn? && commands[i].u == u && commands[i].passwordMatches
    ensures u in worlds[i].users && commands[i].s < |worlds[i].conns|
  {
    hide Deliveries;
    assert Next(worlds[i], commands[i], worlds[i + 1]);
    match commands[i]
    case TellGroup(t, members, msg) => if t < |worlds[i].conns| { TellLeaves(worlds[i], t, members, msg); }
    case _ =>
  }

  // ---------------------------------------------------------------- where messages go

  /** Where a copy belongs: to a session on the sending server, to the server of the session, or to the table. */
  datatype Place = ToConnection(conn: ConnId) | ToServer(t: ServerId) | ToTable

  ghost predicate Belongs(
    worlds: seq<World>, commands: seq<Command>, n: nat, servers: nat, s: ServerId, u: UserId, place: Place)
    requires n <= |commands| < |worlds|
  {
    match place
    case ToConnection(conn) => Session(worlds, commands, n, s, u) == Some(conn)
    case ToServer(t) =>
      Session(worlds, commands, n, s, u).None? && t < servers && Session(worlds, commands, n, t, u).Some?
    case ToTable => forall t: ServerId :: t < servers ==> Session(worlds, commands, n, t, u).None?
  }

  function Put(w: World, place: Place, copy: Copy): World
  {
    match place
    case ToConnection(conn) => w.(sent := w.sent + [Record(conn, copy)])
    case ToServer(t) => w.(inFlight := w.inFlight + [Record(t, copy)])
    case ToTable => w.(offline := w.offline + [copy])
  }

  function PutAll(w: World, places: seq<Place>, members: seq<UserId>, msg: Message): World
    requires |places| == |members|
  {
    if members == [] then w else
    var n := |members| - 1;
    Put(PutAll(w, places[..n], members[..n], msg), places[n], Copy(members[n], msg))
  }

  /** Every copy that is routed goes where it belongs. */
  lemma ToldWhereItBelongs(
    servers: nat, worlds: seq<World>, commands: seq<Command>, n: nat, s: ServerId, copy: Copy, w: World)
    returns (place: Place)
    requires IsRun(worlds, commands) && worlds[0] == Start(servers) && Orderly(worlds, commands) && n <= |commands|
    requires s < servers && w.users == worlds[n].users && w.conns == worlds[n].conns && w.subs == worlds[n].subs
    ensures Belongs(worlds, commands, n, servers, s, copy.user, place)
    ensures |w.conns| == servers && Told(w, s, copy) == Put(w, place, copy)
  {
    hide Next, Session, Deliveries;
    PresentAt(servers, worlds, commands, n);
    SessionsAreMapped(servers, worlds, commands, n);
    OnlineExactly(servers, worlds, commands, n, copy.user);
    var u, here := copy.user, Session(worlds, commands, n, s, copy.user);
    assert here.Some? <==> u in w.conns[s];
    if here.Some? {
      place := ToConnection(here.value);
      EntryMeansOnline(w, s, u);
    } else if Online(w.users, u) {
      var t: ServerId :| t < servers && Session(worlds, commands, n, t, u).Some?;
      place := ToServer(t);
      assert Mapped(w.conns, t, u) && Present(w);
      DeliveriesWhenPresent(w, servers, copy, t);
    } else {
      place := ToTable;
      assert forall t: ServerId :: t < servers ==> Session(worlds, commands, n, t, u).None?;
    }
  }

  /** A message from one user to another, in any run in which logouts come to the holder. */
  lemma TellRouted(servers: nat, worlds: seq<World>, commands: seq<Command>, n: nat) returns (place: Place)
    requires IsRun(worlds, commands) && worlds[0] == Start(servers) && Orderly(worlds, commands) && n < |commands|
    requires commands[n].Tell? && commands[n].s < servers
    ensures Belongs(worlds, commands, n, servers, commands[n].s, commands[n].u, place)
    ensures worlds[n + 1] == Put(worlds[n], place, Copy(commands[n].u, commands[n].msg))
  {
    hide Session, Told, Put;
    var copy := Copy(commands[n].u, commands[n].msg);
    place := ToldWhereItBelongs(servers, worlds, commands, n, commands[n].s, copy, worlds[n]);
    assert Next(worlds[n], commands[n], worlds[n + 1]);
  }

  /** A message to a group: one place for every member. */
  lemma GroupRouted(servers: nat, worlds: seq<World>, commands: seq<Command>, n: nat) returns (places: seq<Place>)
    requires IsRun(worlds, commands) && worlds[0] == Start(servers) && Orderly(worlds, commands) && n < |commands|
    requires commands[n].TellGroup? && commands[n].s < servers
    ensures |places| == |commands[n].members|
    ensures forall k :: 0 <= k < |places| ==>
              Belongs(worlds, commands, n, servers, commands[n].s, commands[n].members[k], places[k])
    ensures worlds[n + 1] == PutAll(worlds[n], places, commands[n].members, commands[n].msg)
  {
    hide Session, ToldAll, PutAll;
    var s, members, msg := commands[n].s, commands[n].members, commands[n].msg;
    PresentAt(servers, worlds, commands, n);
    places := MembersRouted(servers, worlds, commands, n, s, members, msg);
    assert Next(worlds[n], commands[n], worlds[n + 1]);
  }

  lemma {:induction false} MembersRouted(
    servers: nat, worlds: seq<World>, commands: seq<Command>, n: nat, s: ServerId, members: seq<UserId>, msg: Message)
    returns (places: seq<Place>)
    requires IsRun(worlds, commands) && worlds[0] == Start(servers) && Orderly(worlds, commands) && n <= |commands|
    requires s < servers && |worlds[n].conns| == servers
    ensures |places| == |members|
    ensures forall k :: 0 <= k < |places| ==> Belongs(worlds, commands, n, servers, s, members[k], places[k])
    ensures ToldAll(worlds[n], s, members, msg) == PutAll(worlds[n], places, members, msg)
  {
    hide Session, Told, Put, Belongs, Next, Presence;
    if members == [] {
      places := [];
    } else {
      var m := |members| - 1;
      var init := MembersRouted(servers, worlds, commands, n, s, members[..m], msg);
      var w := ToldAll(worlds[n], s, members[..m], msg);
      TellLeaves(worlds[n], s, members[..m], msg);
      var place := ToldWhereItBelongs(servers, worlds, commands, n, s, Copy(members[m], msg), w);
      places := init + [place];
      assert places[..m] == init;
      forall k | 0 <= k < |places|
        ensures Belongs(worlds, commands, n, servers, s, members[k], places[k])
      {
        assert k < m ==> members[..m][k] == members[k] && places[k] == init[k];
      }
    }
  }

  /** A message that Redis delivers: to the session that is still there, or to the table. */
  lemma DeliveryRouted(servers: nat, worlds: seq<World>, commands: seq<Command>, n: nat)
    requires IsRun(worlds, commands) && worlds[0] == Start(servers) && Orderly(worlds, commands) && n < |commands|
    requires commands[n].Deliver? && commands[n].i < |worlds[n].inFlight|
    ensures var i, w := commands[n].i, worlds[n];
            var r := w.inFlight[i];
            var session := if r.place < servers then Session(worlds, commands, n, r.place, r.copy.user) else None;
            worlds[n + 1] == Put(w.(inFlight := w.inFlight[..i] + w.inFlight[i + 1..]),
                                 if session.Some? then ToConnection(session.value) else ToTable, r.copy)
  {
    hide Session;
    PresentAt(servers, worlds, commands, n);
    SessionsAreMapped(servers, worlds, commands, n);
    assert Next(worlds[n], commands[n], worlds[n + 1]);
  }

  /** No other command sends anything to a connection, or puts anything in flight. */
  lemma OthersSendNothing(worlds: seq<World>, commands: seq<Command>, n: nat)
    requires IsRun(worlds, commands) && n < |commands|
    requires !commands[n].Tell? && !commands[n].TellGroup? && !commands[n].Deliver?
    ensures worlds[n + 1].sent == worlds[n].sent && worlds[n + 1].inFlight == worlds[n].inFlight
  {
    assert Next(worlds[n], commands[n], worlds[n + 1]);
  }

  /** A sign-in that succeeds hands over the user's rows, in the order they were stored, and no others. */
  lemma SignInHandsOver(worlds: seq<World>, commands: seq<Command>, n: nat)
    requires IsRun(worlds, commands) && n < |commands| && commands[n].SignIn? && commands[n].s < |worlds[n].conns|
    ensures var u, w, d := commands[n].u, worlds[n], worlds[n + 1];
            if u in w.users && !w.users[u] && commands[n].passwordMatches then
              && Online(d.users, u) && d.offline == WithoutRows(w.offline, u)
              && d.handedOver == w.handedOver + Addressed(u, Rows(w.offline, u))
            else d == w
  {
    assert Next(worlds[n], commands[n], worlds[n + 1]);
  }

  /**
    A sign-in takes effect on its own connection if and only if the server does not map the user to
    another one already.
    */
  lemma SignInTakesExactly(w: World, s: ServerId, u: UserId, conn: ConnId)
    requires s < |w.conns| && u in w.users && !w.users[u]
    ensures var d := LoggedIn(w, s, u, true, conn);
            && u in d.conns[s]
            && (d.conns[s][u] == conn <==> u in w.conns[s] ==> w.conns[s][u] == conn)
  {
  }

  /** After a logout on the wrong server the next sign-in does not: its messages go to the old connection. */
  lemma StaleConnection(u: UserId, old1: ConnId, new1: ConnId, msg: Message) returns (worlds: seq<World>)
    requires old1 != new1
    ensures var commands :=
              [Register(u), SignIn(0, u, true, old1), SignOut(1, u), SignIn(0, u, true, new1), Tell(0, u, msg)];
            && IsRun(worlds, commands) && worlds[0] == Start(2)
            && Session(worlds, commands, 4, 0, u) == Some(new1)
            && worlds[5].sent == [Record(old1, Copy(u, msg))]
  {
    var w0 := Start(2);
    var w1 := w0.(users := w0.users[u := false]);
    var w2 := LoggedIn(w1, 0, u, true, old1);
    var w3 := LoggedOut(w2, 1, u);
    var w4 := LoggedIn(w3, 0, u, true, new1);
    worlds := [w0, w1, w2, w3, w4, Told(w4, 0, Copy(u, msg))];
  }
}
