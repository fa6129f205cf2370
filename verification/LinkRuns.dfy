/**
  What holds of every run of a connection: what is lost on a fault and at the half close, the order of
  the sends of other threads, and which of them still find the connection when it is destroyed.
  */
module LinkRuns {
  import opened Bytes
  import opened Phases
  import opened Links

  // ---------------------------------------------------------------- the byte stream

  /** Bytes are missing from the stream exactly when a nonempty message was dropped. */
  lemma {:induction false} KeptAll(started: seq<Started>)
    ensures |Kept(started)| <= |AllOf(started)|
    ensures Kept(started) == AllOf(started) <==> forall s :: s in started ==> !Dropped(s)
  {
    if started != [] {
      var init, last := started[..|started| - 1], started[|started| - 1];
      KeptAll(init);
      assert started == init + [last];
      if Kept(started) == AllOf(started) {
        assert |Kept(init)| == |AllOf(init)|;
        assert Kept(init) == Kept(started)[..|Kept(init)|] == AllOf(started)[..|AllOf(init)|] == AllOf(init);
      }
    }
  }

  /**
    In every run the bytes taken by the kernel, then the bytes in the buffer, are all the messages
    that started, in order, if and only if no nonempty message met EPIPE or ECONNRESET at a moment
    when nothing was queued before it. What is missing otherwise is exactly those messages.
    */
  lemma LossExactly(events: seq<Event>)
    ensures var c := Run(NEW, events);
            && c.wire + c.out == Kept(c.started)
            && (c.wire + c.out == AllOf(c.started) <==>
                forall s :: s in c.started ==> !(s.atOnce && s.result.Fault? && s.msg != []))
  {
    EveryRunSound(events);
    KeptAll(Run(NEW, events).started);
  }

  /** One send: its message follows in the stream unless it is written at once and meets a fault or SHUT_WR. */
  lemma SendLosesExactly(c: Link, origin: Option<Thread>, msg: bytes, result: WriteResult, onComplete: seq<Act>)
    requires Core(c) && (c.phase.Connected? || (origin.Some? && c.phase.Disconnecting?))
    ensures var d := Sent(c, origin, msg, result, onComplete);
            && c.started + [Started(origin, msg, !c.writing && c.out == [], Answer(c.shutAt, result))] <= d.started
            && (Stream(c) + msg <= Stream(d) <==>
                !(!c.writing && c.out == [] && (result.Fault? || c.shutAt.Some?) && msg != []))
            && (Loses(c, msg, Answer(c.shutAt, result)) ==> Stream(d) == Stream(c))
  {
    hide Kept, Begun;
    var answer := Answer(c.shutAt, result);
    var d := Begun(c, origin, msg, answer);
    BegunCore(c, origin, msg, answer);
    BegunExtends(c, origin, msg, answer);
    if Completes(c, msg, answer) {
      ActedExtends(d.(completions := d.completions + 1), onComplete);
    }
  }

  lemma ActedExtends(c: Link, acts: seq<Act>)
    requires Core(c)
    ensures Stream(c) <= Stream(Acted(c, acts)) && c.started <= Acted(c, acts).started
  {
    var d := Acted(c, acts);
    ActedSound(c, acts);
    KeptGrows(d.started, |c.started|, |d.started|);
    assert d.started[..|c.started|] == c.started && d.started[..|d.started|] == d.started;
  }

  /** The kept bytes of a prefix of the history are a prefix of the kept bytes. */
  lemma {:induction false} KeptGrows(started: seq<Started>, i: nat, j: nat)
    requires i <= j <= |started|
    ensures Kept(started[..i]) <= Kept(started[..j])
    ensures |Kept(started[..i])| == |Kept(started[..j])|
            <==> forall k :: i <= k < j ==> Dropped(started[k]) || started[k].msg == []
    decreases j
  {
    if i < j {
      assert started[..j][..j - 1] == started[..j - 1];
      KeptGrows(started, i, j - 1);
    }
  }

  predicate FaultFreeActs(acts: seq<Act>)
  {
    acts == [] ||
    ((acts[0].Send? ==> !acts[0].result.Fault? && FaultFreeActs(acts[0].onComplete)) && FaultFreeActs(acts[1..]))
  }

  predicate FaultFree(event: Event)
  {
    match event
    case Established(callback) => FaultFreeActs(callback)
    case OnLoop(acts) => FaultFreeActs(acts)
    case Writable(_, onComplete) => FaultFreeActs(onComplete)
    case RunTask(result, onComplete) => !result.Fault? && FaultFreeActs(onComplete)
    case _ => true
  }

  /** How many sends had started when the write side was still open. */
  function Open(c: Link): nat
  {
    if c.shutAt.Some? then c.shutAt.value.starts else |c.started|
  }

  ghost predicate Clean(c: Link)
  {
    Open(c) <= |c.started| && forall i :: 0 <= i < Open(c) ==> !c.started[i].result.Fault?
  }

  lemma {:induction false} ActedClean(c: Link, acts: seq<Act>)
    requires Clean(c) && FaultFreeActs(acts)
    ensures Clean(Acted(c, acts))
    decreases acts, 0
  {
    if acts != [] {
      if c.phase.Connected? && acts[0].Send? {
        SentClean(c, None, acts[0].msg, acts[0].result, acts[0].onComplete);
      }
      ActedClean(Did(c, acts[0]), acts[1..]);
    }
  }

  lemma {:induction false} SentClean(
    c: Link, origin: Option<Thread>, msg: bytes, result: WriteResult, onComplete: seq<Act>)
    requires Clean(c) && !result.Fault? && FaultFreeActs(onComplete)
    ensures Clean(Sent(c, origin, msg, result, onComplete))
    decreases onComplete, 1
  {
    var d := Begun(c, origin, msg, Answer(c.shutAt, result));
    ActedClean(d.(completions := d.completions + 1), onComplete);
  }

  lemma {:induction false} RunClean(events: seq<Event>)
    requires forall e :: e in events ==> FaultFree(e)
    ensures Clean(Run(NEW, events))
  {
    if events != [] {
      var init, last := events[..|events| - 1], events[|events| - 1];
      RunClean(init);
      assert last in events;
      StepClean(Run(NEW, init), last);
    }
  }

  lemma StepClean(c: Link, event: Event)
    requires Clean(c) && FaultFree(event)
    ensures Clean(Step(c, event))
  {
    hide FaultFreeActs;
    match event
    case Established(callback) => ActedClean(c.(phase := Connected), callback);
    case OnLoop(acts) => ActedClean(c, acts);
    case Writable(result, onComplete) =>
      var answer := Answer(c.shutAt, result);
      var n := if answer.Wrote? then Min(answer.n, |c.out|) else 0;
      var d := Moved(c, n);
      ActedClean(d.(writing := false, completions := d.completions + 1), onComplete);
    case Hangup(callback) => ActedIdle(c.(phase := Disconnected), callback);
    case RunTask(result, onComplete) =>
      if c.batch != [] && c.batch[0].SendTask? {
        var call := c.batch[0].call;
        SentClean(c.(batch := c.batch[1..]), Some(call.thread), call.msg, result, onComplete);
      }
    case _ =>
  }

  /**
    As long as the peer causes neither EPIPE nor ECONNRESET, no byte of any run is lost before the half
    close: the stream is all that started, or all that had started when SHUT_WR was issued.
    */
  lemma FaultFreeConserves(events: seq<Event>)
    requires forall e :: e in events ==> FaultFree(e)
    ensures var c := Run(NEW, events);
            Open(c) <= |c.started| && c.wire + c.out == AllOf(c.started[..Open(c)])
  {
    var c := Run(NEW, events);
    RunClean(events);
    EveryRunSound(events);
    assert c.started[..|c.started|] == c.started && c.wire + [] == c.wire;
    KeptAll(c.started[..Open(c)]);
  }

  /** A run that loses a message on an open connection. */
  lemma LosingRun(msg: bytes)
    requires msg != []
    ensures var c := Run(NEW, [Established([]), OnLoop([Send(msg, Fault, [])])]);
            c.phase.Connected? && c.wire + c.out == [] && AllOf(c.started) == msg
  {
    var events := [Established([]), OnLoop([Send(msg, Fault, [])])];
    assert events[..1] == [Established([])] && events[..1][..0] == [];
    var open := NEW.(phase := Connected);
    assert Run(NEW, events[..1]) == open;
    ActedOne(open, Send(msg, Fault, []));
    LosesAll(open, msg);
  }

  lemma LosesAll(c: Link, msg: bytes)
    requires c == NEW.(phase := Connected) && msg != []
    ensures var d := Did(c, Send(msg, Fault, []));
            d.phase.Connected? && d.wire + d.out == [] && AllOf(d.started) == msg
  {
    hide Begun, Acted, AllOf;
    BegunExtends(c, None, msg, Fault);
    assert Did(c, Send(msg, Fault, [])) == Begun(c, None, msg, Fault);
    assert Begun(c, None, msg, Fault).started == [Started(None, msg, true, Fault)];
    AllOfOne(Started(None, msg, true, Fault));
  }

  lemma AllOfOne(s: Started)
    ensures AllOf([s]) == s.msg
  {
    assert [s][..0] == [];
  }

  lemma ActedOne(c: Link, act: Act)
    ensures Acted(c, [act]) == Did(c, act)
  {
    hide Did;
    assert [act][1..] == [];
  }

  // ---------------------------------------------------------------- half close

  /**
    In every run: a half close is issued as soon as it was asked for and nothing is left to write. Then
    everything that had started is written, and nothing follows: every later nonempty send is lost.
    */
  lemma HalfCloseFinal(events: seq<Event>)
    ensures var c := Run(NEW, events);
            && (c.phase.Disconnecting? && c.out == [] ==> c.shutAt.Some?)
            && (c.shutAt.Some? ==>
                  var m := c.shutAt.value;
                  && c.out == [] && |c.wire| == m.written
                  && m.starts <= |c.started| && c.wire == Kept(c.started[..m.starts])
                  && forall i :: m.starts <= i < |c.started| && c.started[i].msg != [] ==> Dropped(c.started[i]))
  {
    EveryRunSound(events);
  }

  /** The wire does not change any more, whatever happens after SHUT_WR. */
  lemma SilentAfterHalfClose(before: seq<Event>, after: seq<Event>)
    requires Run(NEW, before).shutAt.Some?
    ensures Run(NEW, before + after).wire == Run(NEW, before).wire
  {
    RunOnward(before, after);
    HalfCloseFinal(before);
    HalfCloseFinal(before + after);
  }

  /** The calls that carry bytes. */
  function Nonempty(calls: seq<Foreign>): seq<Foreign>
  {
    if calls == [] then [] else
    var last := calls[|calls| - 1];
    Nonempty(calls[..|calls| - 1]) + if last.msg == [] then [] else [last]
  }

  lemma {:induction false} NonemptyConcat(xs: seq<Foreign>, ys: seq<Foreign>)
    ensures Nonempty(xs) <= Nonempty(xs + ys)
    ensures Nonempty(xs) == Nonempty(xs + ys) <==> forall call :: call in ys ==> call.msg == []
    decreases |ys|
  {
    if ys == [] {
      assert xs + ys == xs;
    } else {
      var init, last := ys[..|ys| - 1], ys[|ys| - 1];
      assert (xs + ys)[..|xs + ys| - 1] == xs + init;
      assert ys == init + [last];
      NonemptyConcat(xs, init);
    }
  }

  /**
    SHUT_WR has been issued, the connection is not yet closed, and no send has met a fault so far, as is
    the case when SHUT_WR has just been issued in a run without faults: the wire holds all that started,
    and the nonempty sends of other threads are all among it if and only if none of them is queued still.
    */
  lemma HalfCloseExactly(events: seq<Event>)
    requires var c := Run(NEW, events);
             c.shutAt.Some? && c.phase.Disconnecting? && forall s :: s in c.started ==> !Dropped(s)
    ensures var c := Run(NEW, events);
            && c.wire == AllOf(c.started)
            && (Nonempty(ForeignOf(c.started)) == Nonempty(c.calls) <==>
                forall call :: call in SendsOf(c.batch + c.pending) ==> call.msg == [])
  {
    var c := Run(NEW, events);
    LossExactly(events);
    EveryRunSound(events);
    assert c.wire + [] == c.wire;
    NonemptyConcat(ForeignOf(c.started), SendsOf(c.batch + c.pending));
  }

  /** With sends and shutdowns on the loop thread only: everything was written before, nothing is after. */
  lemma GracefulOnLoop(events: seq<Event>)
    requires forall e :: e in events ==> !e.ForeignPush?
    ensures var c := Run(NEW, events);
            c.shutAt.Some? ==>
              c.shutAt.value == Mark(|c.wire|, |c.started|) && c.out == [] && c.wire == Kept(c.started)
  {
    var c := Run(NEW, events);
    EveryRunSound(events);
    NoCallsWithoutSends(events);
    NoneForeign(c.started);
    assert c.started[..|c.started|] == c.started;
  }

  lemma {:induction false} NoCallsWithoutSends(events: seq<Event>)
    requires forall e :: e in events ==> !e.ForeignPush?
    ensures Run(NEW, events).calls == []
  {
    if events != [] {
      var init, last := events[..|events| - 1], events[|events| - 1];
      NoCallsWithoutSends(init);
      assert last in events;
      EveryRunSound(init);
      StepChanges(Run(NEW, init), last);
    }
  }

  /** Only a push joins the calls, only the close disconnects, and after it no test of the state succeeds. */
  lemma StepChanges(c: Link, event: Event)
    requires Sound(c)
    ensures !event.ForeignPush? ==> Step(c, event).calls == c.calls
    ensures c.phase.Disconnected? ==> Step(c, event).between.Keys <= c.between.Keys
    ensures !event.Hangup? && !c.phase.Disconnected? ==> !Step(c, event).phase.Disconnected?
  {
    hide Kept, ForeignOf, SendsOf, Lined;
    match event
    case Established(callback) => if c.phase.Connecting? { ActedSound(c.(phase := Connected), callback); }
    case OnLoop(acts) => ActedSound(c, acts);
    case Writable(result, onComplete) => FlushedSound(c, result, onComplete);
    case Hangup(callback) => ActedIdle(c.(phase := Disconnected), callback);
    case RunTask(result, onComplete) =>
      if c.batch != [] && c.batch[0].SendTask? {
        var call := c.batch[0].call;
        SentSound(c.(batch := c.batch[1..]), Some(call.thread), call.msg, result, onComplete);
      } else if c.batch != [] {
        HeadOff(c.batch, c.pending);
      }
    case _ =>
  }

  /** A connection on which no close is handled is never disconnected, let alone destroyed. */
  lemma {:induction false} OnlyCloseDisconnects(events: seq<Event>)
    requires forall e :: e in events ==> !e.Hangup?
    ensures !Run(NEW, events).phase.Disconnected? && !Run(NEW, events).destroyed
  {
    EveryRunSound(events);
    if events != [] {
      var init, last := events[..|events| - 1], events[|events| - 1];
      OnlyCloseDisconnects(init);
      assert last in events;
      EveryRunSound(init);
      StepChanges(Run(NEW, init), last);
    }
  }

  lemma {:induction false} NoneForeign(started: seq<Started>)
    requires ForeignOf(started) == []
    ensures forall s :: s in started ==> s.origin.None?
  {
    if started != [] {
      var init, last := started[..|started| - 1], started[|started| - 1];
      NoneForeign(init);
      assert started == init + [last];
    }
  }

  /** A send of another thread, queued before the shutdown, meets SHUT_WR and is lost. */
  lemma HalfCloseOvertakes(call: Foreign, result: WriteResult)
    requires call.msg != []
    ensures var c := Run(NEW, [Established([]), ForeignTest(call), ForeignPush(call.thread), OnLoop([Shutdown]), Swap,
                               RunTask(result, [])]);
            && c.calls == [call] && c.shutAt == Some(Mark(0, 0)) && c.wire == [] && c.out == []
            && c.batch + c.pending == [] && AllOf(c.started) == call.msg
  {
    var open := NEW.(phase := Connected);
    var queued := open.(calls := [call], pending := [SendTask(call, false)]);
    var shut := queued.(phase := Disconnecting, shutAt := Some(Mark(0, 0)));
    var swapped := shut.(batch := [SendTask(call, false)], pending := []);
    var e1, e2, e3 := Established([]), ForeignTest(call), ForeignPush(call.thread);
    var e4, e5, e6 := OnLoop([Shutdown]), Swap, RunTask(result, []);
    assert Step(NEW, e1) == open;
    QueuesOne(open, call);
    assert Step(queued, e4) == shut by { ActedOne(queued, Shutdown); }
    assert Step(shut, e5) == swapped;
    LosesTask(swapped, call, result);
    RunSix(NEW, e1, e2, e3, e4, e5, e6);
  }

  lemma QueuesOne(c: Link, call: Foreign)
    requires c.phase.Connected? && c.between == map[]
    ensures Step(Step(c, ForeignTest(call)), ForeignPush(call.thread))
            == c.(calls := c.calls + [call], pending := c.pending + [SendTask(call, c.removed)])
  {
    assert map[call.thread := call.msg] - {call.thread} == map[];
  }

  lemma LosesTask(c: Link, call: Foreign, result: WriteResult)
    requires c.batch == [SendTask(call, false)] && c.phase.Disconnecting? && !c.writing && c.out == []
    requires c.shutAt.Some? && c.started == [] && call.msg != []
    ensures var d := Step(c, RunTask(result, []));
            && d == c.(batch := [], started := d.started) && AllOf(d.started) == call.msg
  {
    hide AllOf;
    FaultTakesNothing(c.(batch := []), Some(call.thread), call.msg);
    assert Step(c, RunTask(result, [])).started == [Started(Some(call.thread), call.msg, true, Fault)];
    AllOfOne(Started(Some(call.thread), call.msg, true, Fault));
  }

  lemma RunSix(c: Link, e1: Event, e2: Event, e3: Event, e4: Event, e5: Event, e6: Event)
    ensures Run(c, [e1, e2, e3, e4, e5, e6]) == Step(Step(Step(Step(Step(Step(c, e1), e2), e3), e4), e5), e6)
  {
    hide Step, Run;
    RunThree(c, e1, e2, e3);
    assert [e1, e2, e3] + [e4] == [e1, e2, e3, e4];
    RunNext(c, [e1, e2, e3], e4);
    assert [e1, e2, e3, e4] + [e5] == [e1, e2, e3, e4, e5];
    RunNext(c, [e1, e2, e3, e4], e5);
    assert [e1, e2, e3, e4, e5] + [e6] == [e1, e2, e3, e4, e5, e6];
    RunNext(c, [e1, e2, e3, e4, e5], e6);
  }

  lemma RunThree(c: Link, e1: Event, e2: Event, e3: Event)
    ensures Run(c, [e1, e2, e3]) == Step(Step(Step(c, e1), e2), e3)
  {
    hide Step;
    assert [] + [e1] == [e1] && [e1] + [e2] == [e1, e2] && [e1, e2] + [e3] == [e1, e2, e3];
    RunNext(c, [], e1);
    RunNext(c, [e1], e2);
    RunNext(c, [e1, e2], e3);
  }

  lemma RunNext(c: Link, events: seq<Event>, event: Event)
    ensures Run(c, events + [event]) == Step(Run(c, events), event)
  {
    assert (events + [event])[..|events|] == events;
  }

  // ---------------------------------------------------------------- life cycle

  /** Whatever happens next: the past stays, and a disconnected or destroyed connection stays one. */
  lemma {:induction false} RunOnward(before: seq<Event>, after: seq<Event>)
    ensures Onward(Run(NEW, before), Run(NEW, before + after))
    decreases |after|
  {
    if after == [] {
      assert before + after == before;
    } else {
      var init, last := after[..|after| - 1], after[|after| - 1];
      assert before + after == (before + init) + [last];
      RunOnward(before, init);
      RunNext(NEW, before + init, last);
      EveryRunSound(before + init);
      StepSound(Run(NEW, before + init), last);
    }
  }

  /** Whether a destruction has been queued: at the first removal of a disconnected connection. */
  lemma {:induction false} RemovedExactly(events: seq<Event>)
    ensures Run(NEW, events).removed <==>
            exists i :: 0 <= i < |events| && events[i].Remove? && Run(NEW, events[..i]).phase.Disconnected?
  {
    hide Step;
    if events != [] {
      var n := |events| - 1;
      var init, last := events[..n], events[n];
      RemovedExactly(init);
      assert forall i :: 0 <= i < n ==> init[..i] == events[..i] && init[i] == events[i];
      EveryRunSound(init);
      StepRemoves(Run(NEW, init), last);
      assert Run(NEW, events).removed <==>
             Run(NEW, init).removed || (events[n].Remove? && Run(NEW, events[..n]).phase.Disconnected?);
    }
  }

  lemma StepRemoves(c: Link, event: Event)
    requires Sound(c)
    ensures Step(c, event).removed <==> c.removed || (event.Remove? && c.phase.Disconnected?)
  {
    hide Kept, ForeignOf, SendsOf, Lined;
    match event
    case Established(callback) => if c.phase.Connecting? { ActedSound(c.(phase := Connected), callback); }
    case OnLoop(acts) => ActedSound(c, acts);
    case Writable(result, onComplete) => FlushedSound(c, result, onComplete);
    case Hangup(callback) => ActedIdle(c.(phase := Disconnected), callback);
    case RunTask(result, onComplete) =>
      if c.batch != [] && c.batch[0].SendTask? {
        var call := c.batch[0].call;
        SentSound(c.(batch := c.batch[1..]), Some(call.thread), call.msg, result, onComplete);
      }
    case _ =>
  }

  /**
    In every run: a queued send that is about to run finds its connection undestroyed if and only if
    its push came before the destruction was queued.
    */
  lemma TasksFindConnection(events: seq<Event>)
    ensures var c := Run(NEW, events);
            && (c.batch != [] && c.batch[0].SendTask? ==> (c.destroyed <==> c.batch[0].late))
            && (c.destroyed ==> forall t :: t in c.batch + c.pending && t.SendTask? ==> t.late)
  {
    var c := Run(NEW, events);
    EveryRunSound(events);
    if c.batch != [] {
      HeadOff(c.batch, c.pending);
    }
    if c.destroyed {
      AllLate(c.batch + c.pending);
    }
  }

  lemma {:induction false} AllLate(tasks: seq<Task>)
    requires Lined(tasks, true)
    ensures forall t :: t in tasks && t.SendTask? ==> t.late
    decreases |tasks|
  {
    if tasks != [] {
      assert tasks == [tasks[0]] + tasks[1..];
      AllLate(tasks[1..]);
    }
  }

  ghost predicate NoneLate(c: Link)
  {
    forall t :: t in c.batch + c.pending && t.SendTask? ==> !t.late
  }

  lemma {:induction false} NoneLateYet(tasks: seq<Task>)
    requires Lined(tasks, false) && DestroyTask !in tasks
    ensures forall t :: t in tasks && t.SendTask? ==> !t.late
    decreases |tasks|
  {
    if tasks != [] {
      assert tasks == [tasks[0]] + tasks[1..];
      NoneLateYet(tasks[1..]);
    }
  }

  /** Once disconnected, with no thread between its test and its push, no task is ever late. */
  lemma {:induction false} QuietStaysInTime(before: seq<Event>, after: seq<Event>)
    requires var c := Run(NEW, before);
             c.phase.Disconnected? && c.between == map[] && NoneLate(c)
    ensures var c := Run(NEW, before + after);
            c.phase.Disconnected? && c.between == map[] && NoneLate(c)
    decreases |after|
  {
    hide NoneLate, Step;
    if after == [] {
      assert before + after == before;
    } else {
      var init, last := after[..|after| - 1], after[|after| - 1];
      assert before + after == (before + init) + [last];
      QuietStaysInTime(before, init);
      RunNext(NEW, before + init, last);
      EveryRunSound(before + init);
      QuietStep(Run(NEW, before + init), last);
    }
  }

  lemma QuietStep(c: Link, event: Event)
    requires Sound(c) && c.phase.Disconnected? && c.between == map[] && NoneLate(c)
    ensures var d := Step(c, event);
            d.phase.Disconnected? && d.between == map[] && NoneLate(d)
  {
    hide Core, Closing, ForeignOf;
    StepSound(c, event);
    match event
    case OnLoop(acts) => ActedIdle(c, acts);
    case Hangup(callback) => ActedIdle(c.(phase := Disconnected), callback);
    case Writable(result, onComplete) => FlushedSound(c, result, onComplete);
    case RunTask(_, _) => if c.batch != [] { HeadOff(c.batch, c.pending); }
    case _ =>
  }

  /**
    The close has been handled and its destruction is about to be queued: whatever happens afterwards
    no send is ever queued behind it, if and only if no thread is then between its test of the state
    and its push.
    */
  lemma RemovalSafeExactly(before: seq<Event>)
    requires Run(NEW, before).phase.Disconnected? && !Run(NEW, before).removed
    ensures (forall after :: NoneLate(Run(NEW, before + [Remove] + after))) <==> Run(NEW, before).between == map[]
  {
    hide Step;
    var c := Run(NEW, before);
    EveryRunSound(before);
    RunNext(NEW, before, Remove);
    AfterRemoval(c);
    if c.between == map[] {
      forall after ensures NoneLate(Run(NEW, before + [Remove] + after)) {
        QuietStaysInTime(before + [Remove], after);
      }
    } else {
      var thread :| thread in c.between;
      RunNext(NEW, before + [Remove], ForeignPush(thread));
      LatePush(Step(c, Remove), thread);
      assert !NoneLate(Run(NEW, before + [Remove] + [ForeignPush(thread)]));
    }
  }

  lemma AfterRemoval(c: Link)
    requires Sound(c) && c.phase.Disconnected? && !c.removed
    ensures var d := Step(c, Remove);
            d.phase.Disconnected? && d.between == c.between && d.removed && NoneLate(d)
  {
    NoneLateYet(c.batch + c.pending);
  }

  lemma LatePush(c: Link, thread: Thread)
    requires thread in c.between && c.removed
    ensures !NoneLate(Step(c, ForeignPush(thread)))
  {
    var d := Step(c, ForeignPush(thread));
    assert d.pending[|d.pending| - 1] in d.batch + d.pending;
  }

  /** A thread that stalls between its test and its push: its task finds the connection destroyed. */
  lemma LateTask(call: Foreign, result: WriteResult)
    ensures var events := [Established([]), ForeignTest(call), Hangup([]), Remove, ForeignPush(call.thread), Swap];
            var c := Run(NEW, events + [RunTask(result, [])]);
            c.destroyed && c.batch == [SendTask(call, true)]
  {
    var events := [Established([]), ForeignTest(call), Hangup([]), Remove, ForeignPush(call.thread), Swap];
    var c := LateQueue(call);
    RunNext(NEW, events, RunTask(result, []));
    assert c.batch[1..] == [SendTask(call, true)];
  }

  lemma LateQueue(call: Foreign) returns (c: Link)
    ensures c == Run(NEW, [Established([]), ForeignTest(call), Hangup([]), Remove, ForeignPush(call.thread), Swap])
    ensures c.batch == [DestroyTask, SendTask(call, true)] && c.phase.Disconnected?
  {
    var e1, e2, e3 := Established([]), ForeignTest(call), Hangup([]);
    var e4, e5, e6 := Remove, ForeignPush(call.thread), Swap;
    var c2 := NEW.(phase := Connected, between := map[call.thread := call.msg]);
    var c4 := c2.(phase := Disconnected, pending := [DestroyTask], removed := true);
    var c5 := c4.(between := map[], calls := [call], pending := [DestroyTask, SendTask(call, true)]);
    c := c5.(batch := c5.pending, pending := []);
    RunSix(NEW, e1, e2, e3, e4, e5, e6);
    assert Step(Step(NEW, e1), e2) == c2;
    assert Step(Step(c2, e3), e4) == c4;
    assert Step(c4, e5) == c5 by { assert map[call.thread := call.msg] - {call.thread} == map[]; }
  }

  // ---------------------------------------------------------------- order on the wire

  /** Every message that was not dropped is one contiguous piece of the stream, at its own offset. */
  lemma Contiguous(started: seq<Started>, i: nat)
    requires i < |started| && !Dropped(started[i])
    ensures var at := |Kept(started[..i])|;
            && at + |started[i].msg| == |Kept(started[..i + 1])| <= |Kept(started)|
            && Kept(started)[at..at + |started[i].msg|] == started[i].msg
  {
    assert started[..i + 1][..i] == started[..i] && started[..|started|] == started;
    KeptGrows(started, i + 1, |started|);
    assert Kept(started)[..|Kept(started[..i + 1])|] == Kept(started[..i + 1]);
  }

  /** Where in the history the sends of a thread started. */
  function Positions(started: seq<Started>, thread: Thread): (ps: seq<nat>)
    ensures forall k :: 0 <= k < |ps| ==> ps[k] < |started|
    ensures forall j, k :: 0 <= j < k < |ps| ==> ps[j] < ps[k]
  {
    if started == [] then [] else
    var last := started[|started| - 1];
    Positions(started[..|started| - 1], thread) + if last.origin == Some(thread) then [|started| - 1] else []
  }

  lemma {:induction false} PositionsOfThread(started: seq<Started>, thread: Thread)
    ensures var ps, msgs := Positions(started, thread), OfThread(ForeignOf(started), thread);
            |ps| == |msgs| && forall k :: 0 <= k < |ps| ==> started[ps[k]].msg == msgs[k]
  {
    if started != [] {
      var init, last := started[..|started| - 1], started[|started| - 1];
      var ps := Positions(init, thread);
      PositionsOfThread(init, thread);
      assert forall k :: 0 <= k < |ps| ==> started[ps[k]] == init[ps[k]];
      OneMore(ForeignOf(init), last, thread);
    }
  }

  lemma OneMore(calls: seq<Foreign>, s: Started, thread: Thread)
    ensures var more := if s.origin.Some? then [Foreign(s.origin.value, s.msg)] else [];
            OfThread(calls + more, thread) == OfThread(calls, thread) + if s.origin == Some(thread) then [s.msg] else []
  {
    if s.origin.Some? {
      var call := Foreign(s.origin.value, s.msg);
      assert (calls + [call])[..|calls|] == calls;
    } else {
      assert calls + [] == calls;
    }
  }

  /**
    In every run, for any two messages that one thread passed to send and that have started, in call
    order the j-th and the k-th, neither dropped: each is a contiguous piece of the stream, and the
    later one lies behind the earlier one, whatever lies between them. While the connection is not
    disconnected, a message that has not started is still queued.
    */
  lemma CrossThreadOrder(events: seq<Event>, thread: Thread, j: nat, k: nat)
    requires var started := Run(NEW, events).started;
             var ps := Positions(started, thread);
             j < k < |ps| && !Dropped(started[ps[j]]) && !Dropped(started[ps[k]])
    ensures var c := Run(NEW, events);
            var ps, msgs, stream := Positions(c.started, thread), OfThread(c.calls, thread), c.wire + c.out;
            && |ps| <= |msgs|
            && (!c.phase.Disconnected? ==> |msgs| == |ps| + |OfThread(SendsOf(c.batch + c.pending), thread)|)
            && var at, next := |Kept(c.started[..ps[j]])|, |Kept(c.started[..ps[k]])|;
               && at + |msgs[j]| <= next && next + |msgs[k]| <= |stream|
               && stream[at..at + |msgs[j]|] == msgs[j]
               && stream[next..next + |msgs[k]|] == msgs[k]
  {
    hide Kept, ForeignOf, SendsOf, Lined, OfThread;
    var c := Run(NEW, events);
    var ps := Positions(c.started, thread);
    EveryRunSound(events);
    PositionsOfThread(c.started, thread);
    var known := ForeignOf(c.started);
    assert c.calls == known + c.calls[|known|..];
    OfThreadConcat(known, c.calls[|known|..], thread);
    Contiguous(c.started, ps[j]);
    Contiguous(c.started, ps[k]);
    KeptGrows(c.started, ps[j] + 1, ps[k]);
  }
}
