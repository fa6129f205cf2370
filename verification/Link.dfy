/** The state of a connection. */
module Phases {
  datatype Phase = Connecting | Connected | Disconnecting | Disconnected
}

/**
  One TCP connection as a value that events transform: direct write or buffer, write interest, half
  close, the sends that other threads queue, and the destruction that follows the close. Callbacks
  may call back into the connection; what a callback does, and what the kernel answers meanwhile, is
  a finite tree of acts.
  */
module Links {
  import opened Bytes
  import opened Phases

  type Thread = nat

  /** The answer of write: a count, EWOULDBLOCK, EPIPE or ECONNRESET (Fault), or another error. */
  datatype WriteResult = Wrote(n: nat) | WouldBlock | Fault | OtherError

  /** An act on the loop thread; a send carries the kernel's answer and what its completion callback does. */
  datatype Act = Send(msg: bytes, result: WriteResult, onComplete: seq<Act>) | Shutdown

  /** A message that another thread passed to send. */
  datatype Foreign = Foreign(thread: Thread, msg: bytes)

  /** A task of this connection in its loop's queue; a send is late when a destruction was queued before it. */
  datatype Task = SendTask(call: Foreign, late: bool) | DestroyTask

  /**
    A message for which sendInLoop started, whether nothing was queued before it, so that it was
    written at once, and what the kernel answers to a write at that moment.
    */
  datatype Started = Started(origin: Option<Thread>, msg: bytes, atOnce: bool, result: WriteResult)

  /** The first SHUT_WR: how many bytes had been written and how many sends had started. */
  datatype Mark = Mark(written: nat, starts: nat)

  datatype Link = Link(
    phase: Phase,
    writing: bool,              // write interest
    out: bytes,                 // the output buffer
    wire: bytes,                // the bytes the kernel took
    shutAt: Option<Mark>,
    completions: nat,           // calls of the write-complete callback
    batch: seq<Task>,           // the tasks that the loop is running
    pending: seq<Task>,         // the tasks that wait in its queue
    started: seq<Started>,
    between: map<Thread, bytes>,  // threads in send that have found it open and not queued their task yet
    calls: seq<Foreign>,        // the foreign sends that were queued
    removed: bool,              // a destruction has been queued
    destroyed: bool)

  const NEW := Link(Connecting, false, [], [], None, 0, [], [], [], map[], [], false, false)

  /** What has been or will be written. */
  function Stream(c: Link): bytes
  {
    c.wire + c.out
  }

  // ---------------------------------------------------------------- the operations

  /** What the kernel answers to a write: whatever it likes, but EPIPE once SHUT_WR was issued. */
  function Answer(shutAt: Option<Mark>, result: WriteResult): WriteResult
  {
    if shutAt.Some? then Fault else result
  }

  /** How much of a message the kernel takes at once. */
  function Taken(c: Link, msg: bytes, result: WriteResult): (n: nat)
    ensures n <= |msg|
  {
    if !c.writing && c.out == [] && result.Wrote? then Min(result.n, |msg|) else 0
  }

  /** The direct write took all of the message. */
  predicate Completes(c: Link, msg: bytes, result: WriteResult)
  {
    !c.writing && c.out == [] && result.Wrote? && result.n >= |msg|
  }

  /** A message is lost when it is written at once and the kernel answers EPIPE or ECONNRESET. */
  predicate Loses(c: Link, msg: bytes, result: WriteResult)
  {
    !c.writing && c.out == [] && result.Fault? && msg != []
  }

  /** sendInLoop without its callback: the part taken is written, the rest is buffered unless it is lost. */
  function Begun(c: Link, origin: Option<Thread>, msg: bytes, result: WriteResult): Link
  {
    var rest := if Loses(c, msg, result) then [] else msg[Taken(c, msg, result)..];
    c.(started := c.started + [Started(origin, msg, !c.writing && c.out == [], result)],
       wire := c.wire + msg[..Taken(c, msg, result)],
       out := c.out + rest,
       writing := c.writing || rest != [])
  }

  /** sendInLoop. */
  function Sent(c: Link, origin: Option<Thread>, msg: bytes, result: WriteResult, onComplete: seq<Act>): Link
    decreases onComplete, 1
  {
    if c.phase.Disconnected? then c else
    var answer := Answer(c.shutAt, result);
    var d := Begun(c, origin, msg, answer);
    if Completes(c, msg, answer) then Acted(d.(completions := d.completions + 1), onComplete) else d
  }

  /** send or shutdown on the loop thread: only an open connection takes them. */
  function Did(c: Link, act: Act): Link
    decreases act, 0
  {
    if !c.phase.Connected? then c else
    match act
    case Send(msg, result, onComplete) => Sent(c, None, msg, result, onComplete)
    case Shutdown => HalfClosed(c.(phase := Disconnecting))
  }

  /** The acts of a callback, one after the other. */
  function Acted(c: Link, acts: seq<Act>): Link
    decreases acts, 0
  {
    if acts == [] then c else Acted(Did(c, acts[0]), acts[1..])
  }

  /** shutdownInLoop. */
  function HalfClosed(c: Link): Link
  {
    if c.writing || c.shutAt.Some? then c else c.(shutAt := Some(Mark(|c.wire|, |c.started|)))
  }

  /** handleWrite. */
  function Flushed(c: Link, result: WriteResult, onComplete: seq<Act>): Link
  {
    if !c.writing then c else
    var answer := Answer(c.shutAt, result);
    var n := if answer.Wrote? then Min(answer.n, |c.out|) else 0;
    if n == 0 || n < |c.out| then Moved(c, n) else Emptied(Moved(c, n), onComplete)
  }

  /** The kernel takes bytes from the front of the buffer. */
  function Moved(c: Link, n: nat): Link
    requires n <= |c.out|
  {
    c.(wire := c.wire + c.out[..n], out := c.out[n..])
  }

  /** The buffer has become empty: no more write interest, the callback, and the half close that was asked for. */
  function Emptied(c: Link, onComplete: seq<Act>): Link
  {
    var d := Acted(c.(writing := false, completions := c.completions + 1), onComplete);
    if d.phase.Disconnecting? then HalfClosed(d) else d
  }

  /** connectDestroyed. */
  function Destroyed(c: Link): Link
  {
    c.(phase := if c.phase.Connected? then Disconnected else c.phase, writing := false, destroyed := true)
  }

  /** The oldest task of the batch. */
  function TaskRun(c: Link, result: WriteResult, onComplete: seq<Act>): Link
    requires c.batch != []
  {
    var d := c.(batch := c.batch[1..]);
    match c.batch[0]
    case SendTask(call, _) => Sent(d, Some(call.thread), call.msg, result, onComplete)
    case DestroyTask => Destroyed(d)
  }

  // ---------------------------------------------------------------- events

  datatype Event =
    | Established(callback: seq<Act>)
    | OnLoop(acts: seq<Act>)
    | Writable(result: WriteResult, onComplete: seq<Act>)
    | Hangup(callback: seq<Act>)
    | ForeignTest(call: Foreign)
    | ForeignPush(thread: Thread)
    | Remove
    | Swap
    | RunTask(result: WriteResult, onComplete: seq<Act>)

  /**
    One event, if the connection and its loop are in a position to have it. A send on another thread
    tests the state and pushes its task in two events. The destruction is queued by what the close
    callback sets off, so only once the connection is disconnected.
    */
  function Step(c: Link, event: Event): Link
  {
    match event
    case Established(callback) => if c.phase.Connecting? then Acted(c.(phase := Connected), callback) else c
    case OnLoop(acts) => Acted(c, acts)
    case Writable(result, onComplete) => Flushed(c, result, onComplete)
    case Hangup(callback) => if c.phase.Connecting? then c else Acted(c.(phase := Disconnected), callback)
    case ForeignTest(call) =>
      if c.phase.Connected? && call.thread !in c.between then c.(between := c.between[call.thread := call.msg]) else c
    case ForeignPush(thread) => if thread in c.between then Pushed(c, thread) else c
    case Remove => if c.phase.Disconnected? then c.(pending := c.pending + [DestroyTask], removed := true) else c
    case Swap => if c.batch == [] then c.(batch := c.pending, pending := []) else c
    case RunTask(result, onComplete) => if c.batch == [] then c else TaskRun(c, result, onComplete)
  }

  /** The second half of a send on another thread. */
  function Pushed(c: Link, thread: Thread): Link
    requires thread in c.between
  {
    var call := Foreign(thread, c.between[thread]);
    c.(between := c.between - {thread}, calls := c.calls + [call], pending := c.pending + [SendTask(call, c.removed)])
  }

  function Run(c: Link, events: seq<Event>): Link
  {
    if events == [] then c else Step(Run(c, events[..|events| - 1]), events[|events| - 1])
  }

  // ---------------------------------------------------------------- histories

  predicate Dropped(s: Started)
  {
    s.atOnce && s.result.Fault? && s.msg != []
  }

  /** The messages that were not dropped, one after the other. */
  function Kept(started: seq<Started>): bytes
  {
    if started == [] then [] else
    var last := started[|started| - 1];
    Kept(started[..|started| - 1]) + if Dropped(last) then [] else last.msg
  }

  /** All messages, one after the other. */
  function AllOf(started: seq<Started>): bytes
  {
    if started == [] then [] else AllOf(started[..|started| - 1]) + started[|started| - 1].msg
  }

  function ForeignOf(started: seq<Started>): seq<Foreign>
  {
    if started == [] then [] else
    var last := started[|started| - 1];
    ForeignOf(started[..|started| - 1]) + if last.origin.Some? then [Foreign(last.origin.value, last.msg)] else []
  }

  function SendsOf(tasks: seq<Task>): seq<Foreign>
  {
    if tasks == [] then [] else
    SendsOf(tasks[..|tasks| - 1]) + if tasks[|tasks| - 1].SendTask? then [tasks[|tasks| - 1].call] else []
  }

  function OfThread(calls: seq<Foreign>, thread: Thread): seq<bytes>
  {
    if calls == [] then [] else
    var last := calls[|calls| - 1];
    OfThread(calls[..|calls| - 1], thread) + if last.thread == thread then [last.msg] else []
  }

  lemma Extend(started: seq<Started>, s: Started)
    ensures Kept(started + [s]) == Kept(started) + if Dropped(s) then [] else s.msg
    ensures ForeignOf(started + [s])
            == ForeignOf(started) + if s.origin.Some? then [Foreign(s.origin.value, s.msg)] else []
  {
    assert (started + [s])[..|started|] == started;
  }

  lemma {:induction false} SendsConcat(xs: seq<Task>, ys: seq<Task>)
    ensures SendsOf(xs + ys) == SendsOf(xs) + SendsOf(ys)
    decreases |ys|
  {
    if ys == [] {
      assert xs + ys == xs;
    } else {
      assert (xs + ys)[..|xs + ys| - 1] == xs + ys[..|ys| - 1];
      SendsConcat(xs, ys[..|ys| - 1]);
    }
  }

  lemma {:induction false} OfThreadConcat(xs: seq<Foreign>, ys: seq<Foreign>, thread: Thread)
    ensures OfThread(xs + ys, thread) == OfThread(xs, thread) + OfThread(ys, thread)
    decreases |ys|
  {
    if ys == [] {
      assert xs + ys == xs;
    } else {
      assert (xs + ys)[..|xs + ys| - 1] == xs + ys[..|ys| - 1];
      OfThreadConcat(xs, ys[..|ys| - 1], thread);
    }
  }

  // ---------------------------------------------------------------- what is kept

  ghost predicate Core(c: Link)
  {
    // Conservation: what the kernel took and what is buffered is what was started.
    && Stream(c) == Kept(c.started)
    // Write interest exactly while something is buffered.
    && (!c.destroyed ==> (c.writing <==> c.out != []))
    && (c.destroyed ==> c.phase.Disconnected? && !c.writing)
    && (c.phase.Connecting? ==> c == NEW)
    // Half close: whatever had started was written, and whatever queued send started since met EPIPE.
    && (c.shutAt.Some? ==>
          var m := c.shutAt.value;
          && !c.phase.Connected? && c.out == [] && |c.wire| == m.written
          && m.starts <= |c.started| && c.wire == Kept(c.started[..m.starts])
          && forall i :: m.starts <= i < |c.started| ==>
               c.started[i].origin.Some? && c.started[i].atOnce && c.started[i].result.Fault?)
  }

  /** A half close that was asked for has been issued once nothing is left to write. */
  ghost predicate Closing(c: Link)
  {
    c.phase.Disconnecting? && c.out == [] ==> c.shutAt.Some?
  }

  /** The late sends are those behind a destruction, given whether one has already been run. */
  ghost predicate Lined(tasks: seq<Task>, gone: bool)
    decreases |tasks|
  {
    tasks == [] ||
    match tasks[0]
    case SendTask(_, late) => late == gone && Lined(tasks[1..], gone)
    case DestroyTask => Lined(tasks[1..], true)
  }

  /** Foreign sends start in the order of the pushes and none is skipped; a destruction waits for the close. */
  ghost predicate Ordered(c: Link)
  {
    var tasks := c.batch + c.pending;
    && ForeignOf(c.started) <= c.calls
    && (!c.phase.Disconnected? ==> ForeignOf(c.started) + SendsOf(tasks) == c.calls)
    && Lined(tasks, c.destroyed)
    && (c.removed <==> c.destroyed || DestroyTask in tasks)
    && (c.removed ==> c.phase.Disconnected?)
  }

  ghost predicate Sound(c: Link)
  {
    Core(c) && Closing(c) && Ordered(c)
  }

  /** What every event keeps of the past. */
  ghost predicate Onward(c: Link, d: Link)
  {
    && c.wire <= d.wire && c.started <= d.started && c.calls <= d.calls && c.completions <= d.completions
    && (c.phase.Disconnected? ==> d.phase.Disconnected?) && (c.destroyed ==> d.destroyed) && (c.removed ==> d.removed)
    && (c.shutAt.Some? ==> d.shutAt == c.shutAt)
  }

  /** Acts on the loop thread leave the queue alone, start no foreign send, and do not disconnect. */
  ghost predicate Local(c: Link, d: Link)
  {
    && ForeignOf(c.started) == ForeignOf(d.started)
    && SameQueue(c, d) && (d.phase == c.phase || (c.phase.Connected? && d.phase.Disconnecting?))
  }

  ghost predicate SameQueue(c: Link, d: Link)
  {
    && d.between == c.between && d.calls == c.calls && d.batch == c.batch && d.pending == c.pending
    && d.removed == c.removed && d.destroyed == c.destroyed
  }

  /** Beginning a send extends the stream by the message, or by nothing when it is lost. */
  lemma BegunExtends(c: Link, origin: Option<Thread>, msg: bytes, result: WriteResult)
    ensures var d := Begun(c, origin, msg, result);
            && d.started == c.started + [Started(origin, msg, !c.writing && c.out == [], result)]
            && Stream(d) == Stream(c) + (if Loses(c, msg, result) then [] else msg)
            && c.wire <= d.wire
            && (d.writing <==> c.writing || (d.out != c.out)) && |d.out| >= |c.out|
            && d == c.(started := d.started, wire := d.wire, out := d.out, writing := d.writing)
  {
    var n := Taken(c, msg, result);
    if Loses(c, msg, result) {
      assert msg[..n] == [];
      Split(c.wire, c.out, [], 0);
    } else {
      Split(c.wire, c.out, msg, n);
    }
  }

  lemma Split(wire: bytes, out: bytes, msg: bytes, n: nat)
    requires n <= |msg| && (n > 0 ==> out == [])
    ensures wire + msg[..n] + (out + msg[n..]) == wire + out + msg
  {
  }

  lemma BegunCore(c: Link, origin: Option<Thread>, msg: bytes, result: WriteResult)
    requires Core(c) && !c.phase.Connecting? && !c.phase.Disconnected?
    requires (origin.None? ==> c.phase.Connected?) && (c.shutAt.Some? ==> result.Fault?)
    ensures var d := Begun(c, origin, msg, result);
            && Core(d) && Onward(c, d) && (Closing(c) ==> Closing(d))
            && ForeignOf(d.started) == ForeignOf(c.started) + if origin.Some? then [Foreign(origin.value, msg)] else []
  {
    hide Kept, ForeignOf, Begun;
    var d := Begun(c, origin, msg, result);
    BegunExtends(c, origin, msg, result);
    Extend(c.started, d.started[|c.started|]);
    assert d.started == c.started + [d.started[|c.started|]];
    if c.shutAt.Some? {
      assert d.started[..c.shutAt.value.starts] == c.started[..c.shutAt.value.starts];
      FaultTakesNothing(c, origin, msg);
    }
  }

  /** After SHUT_WR a send neither writes nor buffers anything. */
  lemma FaultTakesNothing(c: Link, origin: Option<Thread>, msg: bytes)
    requires !c.writing && c.out == []
    ensures var d := Begun(c, origin, msg, Fault);
            d.wire == c.wire && d.out == [] && !d.writing
  {
  }

  /** A connection that is not open takes no part in its callbacks. */
  lemma {:induction false} ActedIdle(c: Link, acts: seq<Act>)
    requires !c.phase.Connected?
    ensures Acted(c, acts) == c
    decreases |acts|
  {
    if acts != [] {
      ActedIdle(c, acts[1..]);
    }
  }

  /** Whatever a callback does, re-entering as deeply as it likes. */
  lemma {:induction false} ActedSound(c: Link, acts: seq<Act>)
    requires Core(c)
    ensures var d := Acted(c, acts);
            Core(d) && Onward(c, d) && Local(c, d) && (Closing(c) ==> Closing(d))
    decreases acts, 0
  {
    hide Core, Closing, ForeignOf, Did;
    if acts != [] {
      DidSound(c, acts[0]);
      ActedSound(Did(c, acts[0]), acts[1..]);
    }
  }

  lemma {:induction false} DidSound(c: Link, act: Act)
    requires Core(c)
    ensures var d := Did(c, act);
            Core(d) && Onward(c, d) && Local(c, d) && (Closing(c) ==> Closing(d))
    decreases act, 0
  {
    hide Core, Closing, ForeignOf, Sent;
    if c.phase.Connected? {
      match act
      case Send(msg, result, onComplete) => SentSound(c, None, msg, result, onComplete);
      case Shutdown => ShutdownSound(c);
    }
  }

  lemma ShutdownSound(c: Link)
    requires Core(c) && c.phase.Connected?
    ensures var d := HalfClosed(c.(phase := Disconnecting));
            Core(d) && Onward(c, d) && Local(c, d) && Closing(d)
  {
    assert c.wire[..|c.wire|] == c.wire && c.started[..|c.started|] == c.started;
    assert c.wire + [] == c.wire;
  }

  lemma {:induction false} SentSound(
    c: Link, origin: Option<Thread>, msg: bytes, result: WriteResult, onComplete: seq<Act>)
    requires Core(c) && !c.phase.Connecting? && (origin.None? ==> c.phase.Connected?)
    ensures var d := Sent(c, origin, msg, result, onComplete);
            && Core(d) && Onward(c, d) && (Closing(c) ==> Closing(d))
            && ForeignOf(d.started) == ForeignOf(c.started) +
                 (if origin.Some? && !c.phase.Disconnected? then [Foreign(origin.value, msg)] else [])
            && SameQueue(c, d)
            && (d.phase == c.phase || (c.phase.Connected? && d.phase.Disconnecting?))
    decreases onComplete, 1
  {
    hide ForeignOf, Core, Closing, Begun, Completes;
    if !c.phase.Disconnected? {
      var answer := Answer(c.shutAt, result);
      var d := Begun(c, origin, msg, answer);
      BegunCore(c, origin, msg, answer);
      BegunExtends(c, origin, msg, answer);
      if Completes(c, msg, answer) {
        CompletionCounts(d);
        ActedSound(d.(completions := d.completions + 1), onComplete);
      }
    }
  }

  lemma CompletionCounts(c: Link)
    requires Core(c) && !c.phase.Connecting?
    ensures var d := c.(completions := c.completions + 1);
            Core(d) && Onward(c, d) && Local(c, d) && (Closing(c) ==> Closing(d))
  {
  }

  lemma FlushedSound(c: Link, result: WriteResult, onComplete: seq<Act>)
    requires Core(c) && Closing(c)
    ensures var d := Flushed(c, result, onComplete);
            Core(d) && Onward(c, d) && Local(c, d) && Closing(d)
  {
    hide Core, Kept, ForeignOf, Emptied, Moved;
    if c.writing {
      var answer := Answer(c.shutAt, result);
      var n := if answer.Wrote? then Min(answer.n, |c.out|) else 0;
      MovedSound(c, n);
      if n > 0 && n == |c.out| {
        EmptiedSound(Moved(c, n), onComplete);
      }
    }
  }

  lemma MovedSound(c: Link, n: nat)
    requires Core(c) && c.writing && n <= |c.out|
    ensures var d := Moved(c, n);
            && Core(if n < |c.out| then d else d.(writing := false)) && c.out != [] && !d.phase.Connecting?
            && Onward(c, d) && Local(c, d) && |d.out| == |c.out| - n && d.phase == c.phase
  {
    hide Kept, ForeignOf;
    var d := Moved(c, n);
    assert c.out == c.out[..n] + c.out[n..];
    assert Stream(d) == Stream(c);
  }

  lemma EmptiedSound(c: Link, onComplete: seq<Act>)
    requires Core(c.(writing := false)) && !c.phase.Connecting?
    ensures var d := Emptied(c, onComplete);
            Core(d) && Onward(c, d) && Local(c, d) && Closing(d)
  {
    hide Kept, ForeignOf;
    var d := c.(writing := false, completions := c.completions + 1);
    ActedSound(d, onComplete);
    if !d.phase.Connected? {
      ActedIdle(d, onComplete);
    }
    if Acted(d, onComplete).phase.Disconnecting? {
      HalfClosedSound(Acted(d, onComplete));
    }
  }

  lemma HalfClosedSound(c: Link)
    requires Core(c) && c.phase.Disconnecting?
    ensures var d := HalfClosed(c);
            Core(d) && Onward(c, d) && Local(c, d) && Closing(d)
  {
    assert c.wire[..|c.wire|] == c.wire && c.started[..|c.started|] == c.started;
    assert c.wire + [] == c.wire;
  }

  lemma TaskRunSound(c: Link, result: WriteResult, onComplete: seq<Act>)
    requires Sound(c) && c.batch != []
    ensures var d := TaskRun(c, result, onComplete);
            Sound(d) && Onward(c, d)
  {
    hide Kept, ForeignOf, SendsOf, Sent;
    var d := c.(batch := c.batch[1..]);
    HeadOff(c.batch, c.pending);
    if c.batch[0].SendTask? {
      var call := c.batch[0].call;
      SentSound(d, Some(call.thread), call.msg, result, onComplete);
      assert ForeignOf(c.started) + ([call] + SendsOf(d.batch + d.pending))
             == ForeignOf(c.started) + [call] + SendsOf(d.batch + d.pending);
    }
  }

  /** Taking the head off the batch. */
  lemma HeadOff(batch: seq<Task>, pending: seq<Task>)
    requires batch != []
    ensures var tasks, rest, head := batch + pending, batch[1..] + pending, batch[0];
            && tasks != [] && tasks[0] == head && tasks[1..] == rest
            && (DestroyTask in tasks <==> head.DestroyTask? || DestroyTask in rest)
            && SendsOf(tasks) == (if head.SendTask? then [head.call] else []) + SendsOf(rest)
  {
    hide SendsOf;
    var tasks, rest, head := batch + pending, batch[1..] + pending, batch[0];
    assert tasks == [head] + rest && tasks[0] == head;
    SendsConcat([head], rest);
    SendsOfOne(head);
  }

  lemma SendsOfOne(task: Task)
    ensures SendsOf([task]) == if task.SendTask? then [task.call] else []
  {
    assert [task][..0] == [];
  }

  lemma {:induction false} LinedSnoc(tasks: seq<Task>, gone: bool, task: Task)
    requires Lined(tasks, gone) && (task.SendTask? ==> (task.late <==> gone || DestroyTask in tasks))
    ensures Lined(tasks + [task], gone)
    decreases |tasks|
  {
    if tasks != [] {
      assert (tasks + [task])[1..] == tasks[1..] + [task];
      assert DestroyTask in tasks <==> tasks[0].DestroyTask? || DestroyTask in tasks[1..];
      LinedSnoc(tasks[1..], gone || tasks[0].DestroyTask?, task);
    }
  }

  /** A task joins the queue: a push that was begun on an open connection, or a destruction. */
  lemma QueuedSound(c: Link, event: Event)
    requires Sound(c)
    requires (event.ForeignPush? && event.thread in c.between) || (event.Remove? && c.phase.Disconnected?)
    ensures Sound(Step(c, event)) && Onward(c, Step(c, event))
  {
    hide Kept, ForeignOf, SendsOf, Lined;
    var d := Step(c, event);
    var task, tasks := d.pending[|c.pending|], c.batch + c.pending;
    assert d.batch + d.pending == tasks + [task];
    LinedSnoc(tasks, c.destroyed, task);
    SendsConcat(tasks, [task]);
    SendsOfOne(task);
    if task.SendTask? {
      assert ForeignOf(c.started) + SendsOf(tasks) + [task.call]
             == ForeignOf(c.started) + (SendsOf(tasks) + [task.call]);
    }
  }

  /** Every event keeps the invariant, and takes nothing of the past back. */
  lemma StepSound(c: Link, event: Event)
    requires Sound(c)
    ensures Sound(Step(c, event)) && Onward(c, Step(c, event))
  {
    hide Kept, ForeignOf, SendsOf;
    match event
    case Established(callback) => if c.phase.Connecting? { ActedSound(c.(phase := Connected), callback); }
    case OnLoop(acts) => ActedSound(c, acts);
    case Writable(result, onComplete) => FlushedSound(c, result, onComplete);
    case Hangup(callback) => ActedIdle(c.(phase := Disconnected), callback);
    case ForeignTest(_) =>
    case ForeignPush(thread) => if thread in c.between { QueuedSound(c, event); }
    case Remove => if c.phase.Disconnected? { QueuedSound(c, event); }
    case Swap => assert c.batch == [] ==> c.pending + [] == c.batch + c.pending;
    case RunTask(result, onComplete) => if c.batch != [] { TaskRunSound(c, result, onComplete); }
  }

  lemma NewSound()
    ensures Sound(NEW)
  {
  }

  lemma {:induction false} EveryRunSound(events: seq<Event>)
    ensures Sound(Run(NEW, events))
  {
    hide Sound, Step;
    if events == [] {
      NewSound();
    } else {
      EveryRunSound(events[..|events| - 1]);
      StepSound(Run(NEW, events[..|events| - 1]), events[|events| - 1]);
    }
  }
}
