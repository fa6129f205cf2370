/**
  What single events bring about, in terms of what anyone can see of a connection: its wire, its
  buffer, its histories and its queue.
  */
module LinkSteps {
  import opened Bytes
  import opened Phases
  import opened Links
  import opened LinkRuns

  // ---------------------------------------------------------------- flushing

  /** The kernel takes `n` bytes of a nonempty buffer: they are on the wire, the rest is still in front. */
  lemma FlushWrites(c: Link, n: nat, onComplete: seq<Act>)
    requires Sound(c) && c.writing && c.shutAt.None?
    ensures var d, k := Step(c, Writable(Wrote(n), onComplete)), Min(n, |c.out|);
            && c.wire + c.out[..k] <= d.wire && c.wire + c.out <= d.wire + d.out
            && (k < |c.out| ==> d == c.(wire := c.wire + c.out[..k], out := c.out[k..]))
  {
    hide Kept, ForeignOf, SendsOf, Lined;
    var k := Min(n, |c.out|);
    var d := c.(wire := c.wire + c.out[..k], out := c.out[k..]);
    assert c.wire + c.out[..k] + c.out[k..] == c.wire + c.out;
    MovedSound(c, k);
    if k == |c.out| {
      var e := d.(writing := false, completions := d.completions + 1);
      ActedSound(e, onComplete);
      ActedExtends(e, onComplete);
    }
  }

  /** Emptying the buffer ends write interest, calls back once, and half closes when that was asked for. */
  lemma FlushEmpties(c: Link, n: nat, onComplete: seq<Act>)
    requires Sound(c) && c.writing && c.shutAt.None? && n >= |c.out|
    ensures var quiet := Step(c, Writable(Wrote(n), []));
            && quiet == c.(wire := c.wire + c.out, out := [], writing := false, completions := c.completions + 1,
                           shutAt := if c.phase.Disconnecting? then Some(Mark(|c.wire + c.out|, |c.started|)) else None)
            && Step(c, Writable(Wrote(n), onComplete)) == Step(quiet, OnLoop(onComplete))
  {
    hide Kept, ForeignOf, SendsOf, Lined;
    var d := Moved(c, |c.out|);
    MovedSound(c, |c.out|);
    assert c.out[..|c.out|] == c.out && d.out == [];
    var e := d.(writing := false, completions := d.completions + 1);
    if c.phase.Connected? {
      ActedSound(e, onComplete);
      if Acted(e, onComplete).phase.Disconnecting? {
        HalfCloseDone(Acted(e, onComplete));
      }
    } else {
      ActedIdle(e, onComplete);
      ActedIdle(HalfClosed(e), onComplete);
    }
  }

  lemma HalfCloseDone(c: Link)
    requires Core(c) && Closing(c) && c.phase.Disconnecting?
    ensures HalfClosed(c) == c
  {
  }

  /** Whatever else the kernel answers, a flush leaves the connection as it was. */
  lemma FlushFails(c: Link, result: WriteResult, onComplete: seq<Act>)
    requires Sound(c) && (!c.writing || !result.Wrote?)
    ensures Step(c, Writable(result, onComplete)) == c
  {
    assert c.out[..0] == [] && c.out[0..] == c.out && c.wire + [] == c.wire;
  }

  /** How many bytes the kernel is ready to take over a run of writable events. */
  function Room(events: seq<Event>): nat
  {
    if events == [] then 0 else
    var last := events[|events| - 1];
    Room(events[..|events| - 1]) + if last.Writable? && last.result.Wrote? then last.result.n else 0
  }

  ghost predicate OnlyWritable(events: seq<Event>)
  {
    forall e :: e in events ==> e.Writable? && e.result.Wrote?
  }

  /** Callbacks may send more: as far as there was room the buffer is on the wire, in order. */
  lemma {:induction false} WritableProgress(c: Link, events: seq<Event>)
    requires Sound(c) && c.writing && c.shutAt.None? && OnlyWritable(events)
    ensures var d := Run(c, events);
            && Sound(d) && c.wire + c.out[..Min(Room(events), |c.out|)] <= d.wire
            && (Room(events) < |c.out| ==>
                  d == c.(wire := c.wire + c.out[..Room(events)], out := c.out[Room(events)..]))
    decreases |events|
  {
    hide Step, Sound;
    if events == [] {
      assert c.out[..0] == [] && c.out[0..] == c.out && c.wire + [] == c.wire;
    } else {
      var init, last := events[..|events| - 1], events[|events| - 1];
      assert last in events && forall e :: e in init ==> e in events;
      WritableProgress(c, init);
      StepSound(Run(c, init), last);
      if Room(init) < |c.out| {
        OneMoreFlush(c, Room(init), last.result.n, last.onComplete);
      }
    }
  }

  /** A flush that comes after `m` bytes of the buffer have been written. */
  lemma OneMoreFlush(c: Link, m: nat, n: nat, onComplete: seq<Act>)
    requires m < |c.out| && c.writing && c.shutAt.None?
    requires Sound(c) && Sound(c.(wire := c.wire + c.out[..m], out := c.out[m..]))
    ensures var d := Step(c.(wire := c.wire + c.out[..m], out := c.out[m..]), Writable(Wrote(n), onComplete));
            && c.wire + c.out[..Min(m + n, |c.out|)] <= d.wire
            && (m + n < |c.out| ==> d == c.(wire := c.wire + c.out[..m + n], out := c.out[m + n..]))
  {
    hide Step, Sound;
    var d := c.(wire := c.wire + c.out[..m], out := c.out[m..]);
    FlushWrites(d, n, onComplete);
    Pieces(c.wire, c.out, m, Min(n, |d.out|));
  }

  lemma Pieces(wire: bytes, out: bytes, m: nat, k: nat)
    requires m + k <= |out|
    ensures wire + out[..m] + out[m..][..k] == wire + out[..m + k] && out[m..][k..] == out[m + k..]
  {
    assert out[..m] + out[m..][..k] == out[..m + k];
  }

  lemma WritingWhileBuffered(c: Link, d: Link)
    requires Sound(c) && c.writing && d == c.(wire := d.wire, out := d.out)
    ensures d.writing && d.shutAt == c.shutAt && c.out != []
  {
  }

  /**
    Once the kernel has had room for it all, the whole buffer is on the wire. If no callback sends more,
    write interest is off, and the half close that was asked for is issued.
    */
  lemma WritableDrains(c: Link, events: seq<Event>)
    requires Sound(c) && c.writing && c.shutAt.None? && OnlyWritable(events) && Room(events) >= |c.out|
    ensures var d := Run(c, events);
            && c.wire + c.out <= d.wire
            && ((forall e :: e in events ==> e.onComplete == []) ==>
                  && d.wire == c.wire + c.out && d.out == [] && !d.writing && d.phase == c.phase
                  && (c.phase.Disconnecting? ==> d.shutAt == Some(Mark(|d.wire|, |d.started|))))
  {
    WritableProgress(c, events);
    assert c.out[..|c.out|] == c.out;
    if forall e :: e in events ==> e.onComplete == [] {
      DrainsQuietly(c, events);
    }
  }

  lemma {:induction false} DrainsQuietly(c: Link, events: seq<Event>)
    requires Sound(c) && c.writing && c.shutAt.None? && OnlyWritable(events) && Room(events) >= |c.out|
    requires forall e :: e in events ==> e.onComplete == []
    ensures Run(c, events)
            == c.(wire := c.wire + c.out, out := [], writing := false, completions := c.completions + 1,
                  shutAt := if c.phase.Disconnecting? then Some(Mark(|c.wire + c.out|, |c.started|)) else None)
    decreases |events|
  {
    hide Step, Sound;
    if events == [] {
      WritingWhileBuffered(c, c);
    } else {
      var init, last := events[..|events| - 1], events[|events| - 1];
      assert last in events && forall e :: e in init ==> e in events;
      var d, m := Run(c, init), Room(init);
      WritableProgress(c, init);
      if m < |c.out| {
        WritingWhileBuffered(c, d);
        FlushEmpties(d, last.result.n, []);
        assert c.wire + c.out[..m] + c.out[m..] == c.wire + c.out;
      } else {
        DrainsQuietly(c, init);
        FlushFails(d, last.result, []);
      }
    }
  }

  // ---------------------------------------------------------------- sending

  /** A send that finds the connection with nothing queued before its message. */
  lemma SendAtOnce(c: Link, origin: Option<Thread>, msg: bytes, result: WriteResult, onComplete: seq<Act>)
    requires Core(c) && !c.phase.Disconnected? && c.shutAt.None? && !c.writing && c.out == []
    ensures var d := Sent(c, origin, msg, result, onComplete);
            var history := c.started + [Started(origin, msg, true, result)];
            if result.Wrote? && result.n < |msg| then
              d == c.(started := history, wire := c.wire + msg[..result.n], out := msg[result.n..], writing := true)
            else if result.Wrote? then
              d == Acted(c.(started := history, wire := c.wire + msg, completions := c.completions + 1), onComplete)
            else if result.Fault? then
              d == c.(started := history)
            else
              d == c.(started := history, out := msg, writing := msg != [])
  {
    hide Core, Acted;
    assert msg[..|msg|] == msg && msg[..0] == [] && msg[0..] == msg && c.wire + [] == c.wire;
    assert forall rest: bytes :: c.out + rest == rest;
  }

  /** A send behind other bytes: its message is buffered behind them, and nothing else happens. */
  lemma SendBehind(c: Link, origin: Option<Thread>, msg: bytes, result: WriteResult, onComplete: seq<Act>)
    requires Core(c) && !c.phase.Disconnected? && (c.writing || c.out != [])
    ensures Sent(c, origin, msg, result, onComplete)
            == c.(started := c.started + [Started(origin, msg, false, result)], out := c.out + msg)
  {
    hide Kept, Acted;
    assert msg[..0] == [] && msg[0..] == msg && c.wire + [] == c.wire;
  }

  /** On the loop thread an open connection sends and shuts down as it is told, in order. */
  lemma OpenActs(c: Link, msg: bytes, result: WriteResult, onComplete: seq<Act>)
    requires Sound(c) && c.phase.Connected?
    ensures Step(c, OnLoop([Send(msg, result, onComplete)])) == Sent(c, None, msg, result, onComplete)
    ensures Step(c, OnLoop([Shutdown]))
            == c.(phase := Disconnecting, shutAt := if c.out == [] then Some(Mark(|c.wire|, |c.started|)) else None)
  {
    hide Kept, ForeignOf, SendsOf, Lined, Sent;
    ActedOne(c, Send(msg, result, onComplete));
    ActedOne(c, Shutdown);
  }

  lemma {:induction false} ActedConcat(c: Link, xs: seq<Act>, ys: seq<Act>)
    ensures Acted(c, xs + ys) == Acted(Acted(c, xs), ys)
    decreases |xs|
  {
    hide Did;
    if xs == [] {
      assert xs + ys == ys;
    } else {
      assert (xs + ys)[1..] == xs[1..] + ys;
      ActedConcat(Did(c, xs[0]), xs[1..], ys);
    }
  }

  // ---------------------------------------------------------------- opening and closing

  lemma Opens(callback: seq<Act>)
    ensures Step(NEW, Established([])) == NEW.(phase := Connected)
    ensures Step(NEW, Established(callback)) == Step(NEW.(phase := Connected), OnLoop(callback))
  {
  }

  /** The close changes the state alone, and no send starts on a closed connection. */
  lemma Closes(c: Link, callback: seq<Act>, event: Event)
    requires Sound(c) && !c.phase.Connecting?
    ensures Step(c, Hangup(callback)) == c.(phase := Disconnected)
    ensures c.phase.Disconnected? ==> Step(c, event).started == c.started
    ensures c.phase.Disconnected? && !event.Writable? ==> Step(c, event).wire == c.wire && Step(c, event).out == c.out
  {
    hide Core, Closing, Ordered, ForeignOf;
    ActedIdle(c.(phase := Disconnected), callback);
    if c.phase.Disconnected? {
      match event
      case OnLoop(acts) => ActedIdle(c, acts);
      case Hangup(acts) => ActedIdle(c, acts);
      case Writable(result, onComplete) => ClosedFlush(c, result, onComplete);
      case _ =>
    }
  }

  lemma ClosedFlush(c: Link, result: WriteResult, onComplete: seq<Act>)
    requires c.phase.Disconnected?
    ensures Step(c, Writable(result, onComplete)).started == c.started
  {
    if c.writing {
      var answer := Answer(c.shutAt, result);
      var d := Moved(c, if answer.Wrote? then Min(answer.n, |c.out|) else 0);
      ActedIdle(d.(writing := false, completions := d.completions + 1), onComplete);
    }
  }

  // ---------------------------------------------------------------- the queue

  /** A send of another thread on an open connection ends at the end of the queue. */
  lemma ForeignQueues(c: Link, call: Foreign)
    requires Sound(c) && c.phase.Connected? && call.thread !in c.between
    ensures Step(Step(c, ForeignTest(call)), ForeignPush(call.thread))
            == c.(calls := c.calls + [call], pending := c.pending + [SendTask(call, false)])
  {
    assert c.between[call.thread := call.msg] - {call.thread} == c.between;
  }

  /** A test that finds the connection not open, and a push without a test, do nothing. */
  lemma ForeignRefused(c: Link, call: Foreign)
    ensures !c.phase.Connected? ==> Step(c, ForeignTest(call)) == c
    ensures call.thread !in c.between ==> Step(c, ForeignPush(call.thread)) == c
  {
  }

  /** The loop takes its queue over as the next batch, and every run of a task takes the oldest off it. */
  lemma TasksTaken(c: Link, result: WriteResult, onComplete: seq<Act>)
    requires Sound(c)
    ensures c.batch == [] ==> Step(c, Swap) == c.(batch := c.pending, pending := [])
    ensures c.batch != [] ==>
              var d := Step(c, RunTask(result, onComplete));
              && d.batch == c.batch[1..] && d.pending == c.pending
              && if c.batch[0].SendTask?
                 then d == Sent(c.(batch := c.batch[1..]), Some(c.batch[0].call.thread), c.batch[0].call.msg,
                                result, onComplete)
                 else d.destroyed && d.phase.Disconnected? && !d.writing
  {
    hide Kept, ForeignOf, SendsOf, Sent;
    if c.batch != [] {
      TaskRunSound(c, result, onComplete);
      HeadOff(c.batch, c.pending);
      if c.batch[0].SendTask? {
        var call := c.batch[0].call;
        SentSound(c.(batch := c.batch[1..]), Some(call.thread), call.msg, result, onComplete);
      }
    }
  }

  lemma {:induction false} BatchRuns(c: Link, events: seq<Event>)
    requires Sound(c) && |events| <= |c.batch| && forall e :: e in events ==> e.RunTask?
    ensures var d := Run(c, events);
            Sound(d) && Onward(c, d) && d.batch == c.batch[|events|..] && d.pending == c.pending && d.calls == c.calls
    decreases |events|
  {
    hide Step, Sound;
    if events == [] {
      assert c.batch[0..] == c.batch;
    } else {
      var init, last := events[..|events| - 1], events[|events| - 1];
      assert last in events && forall e :: e in init ==> e in events;
      BatchRuns(c, init);
      StepSound(Run(c, init), last);
      StepChanges(Run(c, init), last);
      TasksTaken(Run(c, init), last.result, last.onComplete);
    }
  }

  /**
    No accepted send is forgotten: once the loop has swapped its queue and run the batch, every call
    that was pushed before has started, unless the connection was closed meanwhile.
    */
  lemma PushedSendsStart(c: Link, tasks: seq<Event>)
    requires Sound(c) && c.batch == [] && |tasks| == |c.pending| && forall e :: e in tasks ==> e.RunTask?
    ensures var d := Run(Step(c, Swap), tasks);
            && d.batch == [] && d.pending == []
            && (!d.phase.Disconnected? ==> ForeignOf(d.started) == c.calls)
  {
    hide Step, Lined, ForeignOf;
    StepSound(c, Swap);
    StepChanges(c, Swap);
    TasksTaken(c, WouldBlock, []);
    BatchRuns(Step(c, Swap), tasks);
    var d := Run(Step(c, Swap), tasks);
    assert d.batch + d.pending == [];
    assert ForeignOf(d.started) + [] == ForeignOf(d.started);
  }
}
