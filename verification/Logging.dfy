/**
  The asynchronous logger: a closing blocking queue, the thread that flushes it, and the destructor's
  handshake, interleaved with any number of threads that log.
  */
module Logging {
  type Line = string

  // ---------------------------------------------------------------- the threads

  /** The flush thread: about to test the queue, asleep on the condition, holding a popped line, or done. */
  datatype Flush = Testing | Asleep | Holding(line: Line) | Ended

  /** The owner: alive, has set the exit flag, has closed the queue and joins, or has joined. */
  datatype Owner = Alive | ExitSet | Joining | Joined

  datatype State = State(
    queue: seq<Line>, closed: bool, exit: bool, flush: Flush, owner: Owner,
    accepted: seq<Line>,      // pushes that found the queue open
    written: seq<Line>)       // lines in the file

  datatype Step = Push(line: Line) | Test | SpuriousWakeup | Consume | SetExit | Close | Join

  predicate Enabled(s: State, step: Step)
  {
    match step
    case Push(_) => true
    case Test => s.flush.Testing?
    case SpuriousWakeup => s.flush.Asleep?
    case Consume => s.flush.Holding?
    case SetExit => s.owner.Alive?
    case Close => s.owner.ExitSet?
    case Join => s.owner.Joining? && s.flush.Ended?
  }

  /** A notification reaches the flush thread if it sleeps. */
  function Notified(flush: Flush): Flush
  {
    if flush.Asleep? then Testing else flush
  }

  function Next(s: State, step: Step): State
    requires Enabled(s, step)
  {
    match step
    case Push(line) =>
      if s.closed then s
      else s.(queue := s.queue + [line], accepted := s.accepted + [line], flush := Notified(s.flush))
    case Test =>
      if s.queue != [] then s.(flush := Holding(s.queue[0]), queue := s.queue[1..])
      else s.(flush := if s.closed then Holding("") else Asleep)
    case SpuriousWakeup => s.(flush := Testing)
    case Consume =>
      if s.flush.line == "" then s.(flush := if s.exit then Ended else Testing)
      else s.(flush := Testing, written := s.written + [s.flush.line])
    case SetExit => s.(exit := true, owner := ExitSet)
    case Close => s.(closed := true, owner := Joining, flush := Notified(s.flush))
    case Join => s.(owner := Joined)
  }

  const INITIAL := State([], false, false, Testing, Alive, [], [])

  predicate CanRun(s: State, steps: seq<Step>)
    decreases |steps|
  {
    steps == [] || (Enabled(s, steps[0]) && CanRun(Next(s, steps[0]), steps[1..]))
  }

  function Run(s: State, steps: seq<Step>): State
    requires CanRun(s, steps)
    decreases |steps|
  {
    if steps == [] then s else Run(Next(s, steps[0]), steps[1..])
  }

  // ---------------------------------------------------------------- what is kept

  /** The lines that the flush thread would write: the empty ones are skipped. */
  function Visible(lines: seq<Line>): seq<Line>
  {
    if lines == [] then [] else
    Visible(lines[..|lines| - 1]) + if lines[|lines| - 1] == "" then [] else [lines[|lines| - 1]]
  }

  lemma {:induction false} VisibleConcat(xs: seq<Line>, ys: seq<Line>)
    ensures Visible(xs + ys) == Visible(xs) + Visible(ys)
    decreases |ys|
  {
    if ys == [] {
      assert xs + ys == xs;
    } else {
      assert (xs + ys)[..|xs + ys| - 1] == xs + ys[..|ys| - 1];
      VisibleConcat(xs, ys[..|ys| - 1]);
    }
  }

  lemma {:induction false} VisibleAll(lines: seq<Line>)
    ensures "" !in Visible(lines)
    ensures Visible(lines) == lines <==> "" !in lines
  {
    if lines != [] {
      VisibleAll(lines[..|lines| - 1]);
      assert lines == lines[..|lines| - 1] + [lines[|lines| - 1]];
    }
  }

  function InHand(flush: Flush): seq<Line>
  {
    if flush.Holding? then [flush.line] else []
  }

  ghost predicate Sound(s: State)
  {
    // Nothing is lost, doubled or reordered on the way from push to file.
    && Visible(s.accepted) == s.written + Visible(InHand(s.flush)) + Visible(s.queue)
    && (s.closed <==> s.owner.Joining? || s.owner.Joined?)
    && (s.exit <==> !s.owner.Alive?)
    // The flush thread never sleeps on a line or on the end.
    && (s.flush.Asleep? ==> s.queue == [] && !s.closed)
    && (s.owner.Joined? ==> s.flush.Ended?)
    // Without empty lines an empty pop means the end.
    && ("" !in s.accepted ==>
          && "" !in s.queue
          && (s.flush == Holding("") || s.flush.Ended? ==> s.queue == [] && s.closed))
  }

  lemma PushSound(s: State, line: Line)
    requires Sound(s)
    ensures Sound(Next(s, Push(line)))
  {
    hide Visible;
    if !s.closed {
      VisibleConcat(s.accepted, [line]);
      VisibleConcat(s.queue, [line]);
      var before := s.written + Visible(InHand(s.flush));
      assert before + Visible(s.queue) + Visible([line]) == before + (Visible(s.queue) + Visible([line]));
    }
  }

  lemma TestSound(s: State)
    requires Sound(s) && Enabled(s, Test)
    ensures Sound(Next(s, Test))
  {
    if s.queue != [] {
      hide Visible;
      assert s.queue == [s.queue[0]] + s.queue[1..];
      VisibleConcat([s.queue[0]], s.queue[1..]);
      NothingVisible();
      var hand, rest := Visible([s.queue[0]]), Visible(s.queue[1..]);
      assert s.written + [] + (hand + rest) == s.written + hand + rest;
    }
  }

  lemma NothingVisible()
    ensures Visible([]) == []
  {
  }

  lemma StepSound(s: State, step: Step)
    requires Sound(s) && Enabled(s, step)
    ensures Sound(Next(s, step))
  {
    match step
    case Push(line) => PushSound(s, line);
    case Test => TestSound(s);
    case _ =>
  }

  lemma {:induction false} RunSound(s: State, steps: seq<Step>)
    requires Sound(s) && CanRun(s, steps)
    ensures Sound(Run(s, steps))
    decreases |steps|
  {
    hide Sound, Next;
    if steps != [] {
      StepSound(s, steps[0]);
      RunSound(Next(s, steps[0]), steps[1..]);
    }
  }

  lemma EveryRunSound(steps: seq<Step>)
    requires CanRun(INITIAL, steps)
    ensures Sound(Run(INITIAL, steps))
  {
    RunSound(INITIAL, steps);
  }

  /** Without empty lines: the file, the line in hand and the queue are the accepted lines in order. */
  lemma LinesConserved(steps: seq<Step>)
    requires CanRun(INITIAL, steps) && "" !in Run(INITIAL, steps).accepted
    ensures var s := Run(INITIAL, steps);
            s.written + (if s.flush == Holding("") then [] else InHand(s.flush)) + s.queue == s.accepted
  {
    var s := Run(INITIAL, steps);
    EveryRunSound(steps);
    VisibleAll(s.accepted);
    VisibleAll(s.queue);
    VisibleAll(InHand(s.flush));
  }

  /**
    When the destructor's join returns, the file holds exactly the accepted lines, in order, if and
    only if none of them is empty.
    */
  lemma JoinedMeansWritten(steps: seq<Step>)
    requires CanRun(INITIAL, steps) && Run(INITIAL, steps).owner.Joined?
    ensures var s := Run(INITIAL, steps);
            s.written == s.accepted <==> "" !in s.accepted
  {
    var s := Run(INITIAL, steps);
    EveryRunSound(steps);
    VisibleAll(s.accepted);
    VisibleAll(s.queue);
    if "" !in s.accepted {
      assert s.written + [] + [] == s.written;
    } else {
      assert forall i :: 0 <= i < |s.written| ==> s.written[i] == Visible(s.accepted)[i];
    }
  }

  /** An empty line that is popped once the exit flag is up ends the thread with lines still queued. */
  lemma EmptyLineStopsEarly(line: Line)
    requires line != ""
    ensures var steps := [Push(""), Push(line), SetExit, Close, Test, Consume, Join];
            && CanRun(INITIAL, steps)
            && var s := Run(INITIAL, steps);
               s.owner.Joined? && s.written == [] && s.queue == [line] && s.accepted == ["", line]
  {
    var s1 := Next(INITIAL, Push(""));
    var s2 := Next(s1, Push(line));
    var s3 := Next(s2, SetExit);
    var s4 := Next(s3, Close);
    var s5 := Next(s4, Test);
    var s6 := Next(s5, Consume);
    var s7 := Next(s6, Join);
    assert s2.queue[1..] == [line];
    RunsOn(s6, Join, []);
    RunsOn(s5, Consume, [Join]);
    RunsOn(s4, Test, [Consume, Join]);
    RunsOn(s3, Close, [Test, Consume, Join]);
    RunsOn(s2, SetExit, [Close, Test, Consume, Join]);
    RunsOn(s1, Push(line), [SetExit, Close, Test, Consume, Join]);
    RunsOn(INITIAL, Push(""), [Push(line), SetExit, Close, Test, Consume, Join]);
    assert [Join] + [] == [Join];
  }

  lemma RunsOn(s: State, step: Step, steps: seq<Step>)
    requires Enabled(s, step) && CanRun(Next(s, step), steps)
    ensures CanRun(s, [step] + steps) && Run(s, [step] + steps) == Run(Next(s, step), steps)
  {
    assert ([step] + steps)[1..] == steps;
  }

  /** The lines pushed before the queue was closed. */
  function PushedOpen(steps: seq<Step>): seq<Line>
  {
    if steps == [] || steps[0].Close? then [] else
    (if steps[0].Push? then [steps[0].line] else []) + PushedOpen(steps[1..])
  }

  /** In every run exactly the lines pushed before the close are accepted. */
  lemma {:induction false} AcceptedExactly(s: State, steps: seq<Step>)
    requires CanRun(s, steps)
    ensures Run(s, steps).accepted == s.accepted + if s.closed then [] else PushedOpen(steps)
    decreases |steps|
  {
    if steps == [] {
      assert s.accepted + [] == s.accepted;
    } else {
      var step, rest := steps[0], PushedOpen(steps[1..]);
      AcceptedExactly(Next(s, step), steps[1..]);
      if step.Push? {
        assert s.accepted + [step.line] + rest == s.accepted + ([step.line] + rest);
      } else {
        assert [] + rest == rest;
      }
    }
  }

  // ---------------------------------------------------------------- the end of the flush thread

  function Pops(steps: seq<Step>): nat
  {
    if steps == [] then 0 else (if steps[0].Test? then 1 else 0) + Pops(steps[1..])
  }

  /** How many pops a closed queue still allows. */
  function PopsLeft(s: State): nat
  {
    if s.flush.Ended? || s.flush == Holding("") then 0 else |s.queue| + 1
  }

  lemma StepPops(s: State, step: Step)
    requires Sound(s) && s.closed && Enabled(s, step)
    ensures Next(s, step).closed
    ensures PopsLeft(Next(s, step)) + (if step.Test? then 1 else 0) <= PopsLeft(s)
  {
    hide Visible;
  }

  /** Once the queue is closed, the flush thread pops at most one time more than there are lines queued. */
  lemma {:induction false} FewPopsAfterClose(s: State, steps: seq<Step>)
    requires Sound(s) && s.closed && CanRun(s, steps)
    ensures Pops(steps) + PopsLeft(Run(s, steps)) <= PopsLeft(s) <= |s.queue| + 1
    decreases |steps|
  {
    hide Sound, Next;
    if steps != [] {
      StepPops(s, steps[0]);
      StepSound(s, steps[0]);
      FewPopsAfterClose(Next(s, steps[0]), steps[1..]);
    }
  }

  /** It cannot get stuck on the way: until it has ended it can pop or consume. */
  lemma FlushMoves(s: State)
    requires Sound(s) && s.closed && !s.flush.Ended?
    ensures Enabled(s, Test) || Enabled(s, Consume)
    ensures PopsLeft(s) == 0 ==> Enabled(s, Consume) && Next(s, Consume).flush.Ended?
  {
    hide Visible;
  }

  // ---------------------------------------------------------------- the queue's own code

  /** The blocking queue between two holders of its mutex; each method is one step of the threads. */
  class LockQueue {
    var queue: seq<Line>
    var closed: bool

    /** The queue as it is in a state of the threads. */
    ghost predicate Shows(s: State)
      reads this
    {
      queue == s.queue && closed == s.closed
    }

    constructor ()
      ensures Shows(INITIAL)
    {
      queue, closed := [], false;
    }

    method Push(data: Line)
      modifies this
      ensures queue == (if old(closed) then old(queue) else old(queue) + [data]) && closed == old(closed)
      ensures forall s: State :: old(Shows(s)) ==> Shows(Next(s, Step.Push(data)))
    {
      if closed {
        return;
      }
      queue := queue + [data];
    }

    /** Pop from the moment its wait is over: a closed and empty queue gives the empty line. */
    method Pop() returns (data: Line)
      requires queue != [] || closed
      modifies this
      ensures [data] + queue == if old(queue) == [] then [""] else old(queue)
      ensures closed == old(closed)
      ensures forall s: State :: old(Shows(s)) && s.flush.Testing? ==>
                                   Shows(Next(s, Test)) && Next(s, Test).flush == Holding(data)
    {
      if queue == [] {
        return "";
      }
      data := queue[0];
      queue := queue[1..];
    }

    method Close()
      modifies this
      ensures closed && queue == old(queue)
      ensures forall s: State :: old(Shows(s)) && s.owner.ExitSet? ==> Shows(Next(s, Step.Close))
    {
      closed := true;
    }
  }
}
