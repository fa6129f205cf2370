/**
  The connection as the code runs it: state, output buffer and channel change in place, and every
  method is proved against the value that the connection stands for.
  */
module Connections {
  import opened Bytes
  import opened Phases
  import opened Buffers
  import opened Pollers
  import opened Links

  class TcpConnection {
    var phase: Phase
    var channel: Registration
    const outputBuffer: Buffer
    // The socket: the bytes the kernel took, and the first SHUT_WR.
    var wire: bytes
    var shutAt: Option<Mark>
    // The tasks of this connection in the batch the loop is running and in its queue.
    var batch: seq<Task>
    var pending: seq<Task>
    // The other threads that stand in send between their test of the state and their push.
    var between: map<Thread, bytes>
    // Histories: completion callbacks, sends that started, foreign pushes, destruction queued and run.
    var completions: nat
    var started: seq<Started>
    var calls: seq<Foreign>
    var removed: bool
    var destroyed: bool

    /** The connection as a value. */
    ghost function Value(): Link
      requires outputBuffer.Indices()
      reads this, outputBuffer, outputBuffer.buffer
    {
      Link(phase, IsWrite(channel.events), outputBuffer.Contents(), wire, shutAt, completions,
           batch, pending, started, between, calls, removed, destroyed)
    }

    ghost function Repr(): set<object>
      reads this, outputBuffer
    {
      {this, outputBuffer, outputBuffer.buffer}
    }

    /** Channel, poller and kernel agree, and the connection listens for as long as it is there. */
    ghost predicate Valid()
      reads this, outputBuffer, outputBuffer.buffer
    {
      && outputBuffer.Valid()
      && Agreement(channel)
      && (phase.Connecting? ==> channel == FRESH && !destroyed)
      && (!phase.Connecting? && !destroyed ==> IsRead(channel.events) && channel.index == Added)
    }

    /** The vector of the output buffer is the old one or a new one. */
    twostate predicate SameVector()
      reads outputBuffer
    {
      outputBuffer.buffer == old(outputBuffer.buffer) || fresh(outputBuffer.buffer)
    }

    constructor ()
      ensures Valid() && fresh(Repr()) && Value() == NEW
    {
      phase, channel, wire, shutAt, completions := Connecting, FRESH, [], None, 0;
      pending, batch, started, between, calls, removed, destroyed := [], [], [], map[], [], false, false;
      outputBuffer := new Buffer();
    }

    /** The channel changes its interest and tells the poller. */
    method Enable(action: Action)
      requires Agreement(channel) && action in {AbleRead, AbleWrite, DisableWrite}
      modifies this`channel
      ensures Agreement(channel)
      ensures IsWrite(channel.events) ==
              match action
              case AbleWrite => true
              case DisableWrite => false
              case _ => IsWrite(old(channel.events))
      ensures action.AbleRead? || IsRead(old(channel.events)) ==> IsRead(channel.events) && channel.index == Added
    {
      ActKeepsAgreement(channel, action);
      ReadInterest(Interest(channel.events, action));
      ReadInterest(channel.events);
      WriteLeavesRead(channel.events);
      UnwriteLeavesRead(channel.events);
      WriteInterest(channel.events);
      channel := Pollers.Act(channel, action);
    }

    // -------------------------------------------------------------- on the loop thread

    method ConnectEstablished(callback: seq<Links.Act>)
      requires Valid() && phase.Connecting?
      modifies this, outputBuffer, outputBuffer.buffer
      ensures Valid() && SameVector() && Value() == Step(old(Value()), Established(callback))
    {
      hide Acted;
      phase := Connected;
      Enable(AbleRead);
      RunActs(callback);
    }

    method ConnectDestroyed()
      requires Valid() && !phase.Connecting?
      modifies this`phase, this`channel, this`destroyed
      ensures Valid() && Value() == Destroyed(old(Value()))
      ensures channel == FRESH
    {
      if phase.Connected? {
        phase := Disconnected;
      }
      destroyed := true;
      ActKeepsAgreement(channel, DisableAll);
      WriteInterest(channel.events);
      channel := Pollers.Act(channel, DisableAll);
      channel := Pollers.Act(channel, RemoveIt);
    }

    /** send on the loop thread. */
    method SendHere(msg: bytes, result: WriteResult, onComplete: seq<Links.Act>)
      requires Valid()
      modifies this, outputBuffer, outputBuffer.buffer
      ensures Valid() && SameVector() && Value() == Did(old(Value()), Send(msg, result, onComplete))
      decreases onComplete, 3
    {
      hide Sent;
      if phase.Connected? {
        SendInLoop(None, msg, result, onComplete);
      }
    }

    method SendInLoop(origin: Option<Thread>, msg: bytes, result: WriteResult, onComplete: seq<Links.Act>)
      requires Valid() && !phase.Connecting?
      modifies this, outputBuffer, outputBuffer.buffer
      ensures Valid() && SameVector() && Value() == Sent(old(Value()), origin, msg, result, onComplete)
      decreases onComplete, 2
    {
      hide Begun, Agreement, Acted, IsWrite, IsRead;
      if phase.Disconnected? {
        return;
      }
      var complete := Begin(origin, msg, result);
      if complete {
        completions := completions + 1;
        RunActs(onComplete);
      }
    }

    /** sendInLoop up to its callback. */
    method Begin(origin: Option<Thread>, msg: bytes, result: WriteResult) returns (complete: bool)
      requires Valid() && !phase.Connecting?
      modifies this`started, this`wire, this`channel, outputBuffer, outputBuffer.buffer
      ensures Valid() && SameVector()
      ensures Value() == Begun(old(Value()), origin, msg, Answer(shutAt, result))
      ensures complete == Completes(old(Value()), msg, Answer(shutAt, result))
    {
      hide Agreement, IsWrite, IsRead;
      var atOnce := !IsWrite(channel.events) && outputBuffer.ReadableBytes() == 0;
      started := started + [Started(origin, msg, atOnce, Answer(shutAt, result))];
      var rest;
      rest, complete := WriteFirst(msg, result);
      if rest != [] {
        BufferRest(rest);
      }
    }

    /**
      The first half of sendInLoop: writes at once when nothing is queued before the message. `rest`
      is what remains to be buffered, nothing after a fault; `complete` that write took everything.
      */
    method WriteFirst(msg: bytes, result: WriteResult) returns (rest: bytes, complete: bool)
      requires outputBuffer.Valid()
      modifies this`wire
      ensures var c, answer := old(Value()), Answer(shutAt, result);
              && complete == Completes(c, msg, answer)
              && wire == c.wire + msg[..Taken(c, msg, answer)]
              && rest == if Loses(c, msg, answer) then [] else msg[Taken(c, msg, answer)..]
    {
      rest, complete := msg, false;
      if !IsWrite(channel.events) && outputBuffer.ReadableBytes() == 0 {
        var answer := WriteNow(msg, result);
        if answer.Wrote? {
          rest := msg[answer.n..];
          complete := rest == [];
        } else if answer.Fault? {
          rest := [];
        }
      }
    }

    /** write: takes a prefix of `data`, or fails; after SHUT_WR it always fails. */
    method WriteNow(data: bytes, result: WriteResult) returns (answer: WriteResult)
      modifies this`wire
      ensures answer == match Answer(shutAt, result)
                        case Wrote(n) => Wrote(Min(n, |data|))
                        case failure => failure
      ensures wire == old(wire) + if answer.Wrote? then data[..answer.n] else []
    {
      answer := Answer(shutAt, result);
      if answer.Wrote? {
        answer := Wrote(Min(answer.n, |data|));
        wire := wire + data[..answer.n];
      }
    }

    /** The end of sendInLoop: what was not written goes to the buffer, and write interest with it. */
    method BufferRest(rest: bytes)
      requires Valid() && !phase.Connecting?
      modifies this`channel, outputBuffer, outputBuffer.buffer
      ensures Valid() && SameVector()
      ensures Value() == old(Value()).(out := old(Value()).out + rest, writing := true)
    {
      hide Agreement, IsRead;
      outputBuffer.Append(rest);
      if !IsWrite(channel.events) {
        Enable(AbleWrite);
      }
    }

    /** What a callback does, one act after the other. */
    method RunActs(acts: seq<Links.Act>)
      requires Valid()
      modifies this, outputBuffer, outputBuffer.buffer
      ensures Valid() && SameVector() && Value() == Acted(old(Value()), acts)
      decreases acts, 0
    {
      hide Did, Agreement, IsWrite, IsRead;
      if acts != [] {
        match acts[0] {
          case Send(msg, result, onComplete) => SendHere(msg, result, onComplete);
          case Shutdown => ShutdownHere();
        }
        RunActs(acts[1..]);
      }
    }

    /** shutdown on the loop thread. */
    method ShutdownHere()
      requires Valid()
      modifies this`phase, this`shutAt
      ensures Valid() && Value() == Did(old(Value()), Shutdown)
    {
      if phase.Connected? {
        phase := Disconnecting;
        ShutdownInLoop();
      }
    }

    method ShutdownInLoop()
      requires outputBuffer.Valid()
      modifies this`shutAt
      ensures Value() == HalfClosed(old(Value()))
    {
      if !IsWrite(channel.events) {
        shutAt := if shutAt.None? then Some(Mark(|wire|, |started|)) else shutAt;
      }
    }

    /** The socket is writable: flush, and on an empty buffer complete and half close. */
    method HandleWrite(result: WriteResult, onComplete: seq<Links.Act>)
      requires Valid()
      modifies this, outputBuffer, outputBuffer.buffer
      ensures Valid() && SameVector() && Value() == Flushed(old(Value()), result, onComplete)
    {
      hide Agreement, Emptied, Moved, IsRead, IsWrite;
      if IsWrite(channel.events) {
        var n := Flush(result);
        if n > 0 && outputBuffer.ReadableBytes() == 0 {
          WriteInterest(channel.events);
          EndWrite(onComplete);
        }
      }
    }

    /** The output buffer has just been emptied. */
    method EndWrite(onComplete: seq<Links.Act>)
      requires Valid() && !phase.Connecting?
      modifies this, outputBuffer, outputBuffer.buffer
      ensures Valid() && SameVector() && Value() == Emptied(old(Value()), onComplete)
    {
      hide Agreement, Acted, IsRead;
      Enable(DisableWrite);
      completions := completions + 1;
      RunActs(onComplete);
      if phase.Disconnecting? {
        ShutdownInLoop();
      }
    }

    /** Writes from the front of the buffer and retrieves what the kernel took. */
    method Flush(result: WriteResult) returns (n: nat)
      requires outputBuffer.Valid()
      modifies this`wire, outputBuffer
      ensures outputBuffer.Valid() && outputBuffer.buffer == old(outputBuffer.buffer)
      ensures var answer := Answer(shutAt, result);
              n == if answer.Wrote? then Min(answer.n, |old(Value()).out|) else 0
      ensures Value() == Moved(old(Value()), n) && outputBuffer.ReadableBytes() == |old(Value()).out| - n
    {
      var data := outputBuffer.Peek(0, outputBuffer.ReadableBytes());
      assert data == Value().out;
      var answer := WriteNow(data, result);
      n := if answer.Wrote? then answer.n else 0;
      if n > 0 {
        outputBuffer.Retrieve(n);
      }
    }

    method HandleClose(callback: seq<Links.Act>)
      requires Valid() && !phase.Connecting?
      modifies this, outputBuffer, outputBuffer.buffer
      ensures Valid() && SameVector() && Value() == Step(old(Value()), Hangup(callback))
      ensures phase.Disconnected? && wire == old(wire) && Value().out == old(Value()).out && started == old(started)
    {
      hide Acted;
      phase := Disconnected;
      ActedIdle(Value(), callback);
      RunActs(callback);
    }

    // -------------------------------------------------------------- other threads and the loop's queue

    /** send on another thread, first half: the state is tested. */
    method TestState(call: Foreign)
      requires Valid()
      modifies this`between
      ensures Valid() && Value() == Step(old(Value()), ForeignTest(call))
    {
      if phase.Connected? && call.thread !in between {
        between := between[call.thread := call.msg];
      }
    }

    /** Second half: the message is copied into the loop's queue, whatever has become of the state. */
    method PushTask(thread: Thread)
      requires Valid() && thread in between
      modifies this`between, this`pending, this`calls
      ensures Valid() && Value() == Step(old(Value()), ForeignPush(thread))
    {
      var call := Foreign(thread, between[thread]);
      between := between - {thread};
      pending := pending + [SendTask(call, removed)];
      calls := calls + [call];
    }

    /** Runs the oldest task of the batch. */
    method RunQueued(result: WriteResult, onComplete: seq<Links.Act>)
      requires Valid() && !phase.Connecting? && batch != []
      modifies this, outputBuffer, outputBuffer.buffer
      ensures Valid() && SameVector() && Value() == TaskRun(old(Value()), result, onComplete)
    {
      hide Sent;
      var task := batch[0];
      batch := batch[1..];
      match task {
        case SendTask(call, _) => SendInLoop(Some(call.thread), call.msg, result, onComplete);
        case DestroyTask => ConnectDestroyed();
      }
    }
  }

  // ---------------------------------------------------------------- runs

  /** One event, if the connection and its loop are in a position to have it. */
  method Handle(c: TcpConnection, event: Event)
    requires c.Valid() && (c.phase.Connecting? ==> c.Value() == NEW)
    modifies c, c.outputBuffer, c.outputBuffer.buffer
    ensures c.Valid() && c.SameVector() && c.Value() == Step(old(c.Value()), event)
  {
    hide Agreement, IsWrite, IsRead, Flushed, Acted, TaskRun;
    match event {
      case Established(callback) =>
        if c.phase.Connecting? {
          c.ConnectEstablished(callback);
        }
      case OnLoop(acts) =>
        c.RunActs(acts);
      case Writable(result, onComplete) =>
        c.HandleWrite(result, onComplete);
      case Hangup(callback) =>
        if !c.phase.Connecting? {
          c.HandleClose(callback);
        }
      case ForeignTest(call) =>
        c.TestState(call);
      case ForeignPush(thread) =>
        if thread in c.between {
          c.PushTask(thread);
        }
      case Remove =>
        if c.phase.Disconnected? {
          c.pending, c.removed := c.pending + [DestroyTask], true;
        }
      case Swap =>
        if c.batch == [] {
          c.batch, c.pending := c.pending, [];
        }
      case RunTask(result, onComplete) =>
        if c.batch != [] {
          c.RunQueued(result, onComplete);
        }
    }
  }

  /** A real connection that lives through any events ends as the run of its value does. */
  method Replay(events: seq<Event>) returns (end: Link)
    ensures end == Run(NEW, events)
  {
    hide Step, Agreement, IsRead;
    var c := new TcpConnection();
    for i := 0 to |events|
      invariant c.Valid() && fresh(c.Repr()) && c.Value() == Run(NEW, events[..i])
    {
      assert events[..i + 1][..i] == events[..i];
      EveryRunSound(events[..i]);
      Handle(c, events[i]);
    }
    assert events[..|events|] == events;
    var out := c.outputBuffer.Peek(0, c.outputBuffer.ReadableBytes());
    end := Link(c.phase, IsWrite(c.channel.events), out, c.wire, c.shutAt, c.completions,
                c.batch, c.pending, c.started, c.between, c.calls, c.removed, c.destroyed);
  }
}
