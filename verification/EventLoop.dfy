/**
  The event loop's task queue and wakeup protocol as interleaved steps: the loop thread with its
  program counter, any number of other threads, and the eventfd counter between them.
  */
module EventLoops {
  import opened Bytes

  type Task = nat
  type Thread = nat

  // The eventfd counter stops one short of its 64-bit maximum; a write beyond fails.
  const COUNTER_MAX: nat := TWO64 - 2

  /** Where the loop thread stands inside a call of its own: between the push and the wakeup, if any. */
  datatype Call = Outside | AfterPush | AfterQuit | BeforeWakeup

  datatype Pc =
    | BeforeLoop
    | LoopTest
    | AtPoll
    | Dispatching(wake: bool)
    | Swapping
    | Running(batch: seq<Task>)
    | Exited

  /** A foreign thread between the first half of queueInLoop or quit and its wakeup. */
  datatype Foreign = Pushed | Quitting

  datatype State = State(
    pc: Pc,
    call: Call,
    calling: bool,                   // callingPendingFunctions_
    quit: bool,
    pending: seq<Task>,
    counter: nat,
    foreign: map<Thread, Foreign>,
    pushed: seq<Task>,               // every task in the order of the pushes
    executed: seq<Task>)

  datatype Step =
    | Start
    | TestQuit
    | PollReturns(ready: bool)
    | HandleRead
    | BeginPending
    | Swap
    | RunTask
    | EndPending
    | OwnPush(task: Task)
    | OwnQuit
    | OwnTest
    | OwnWakeup
    | ForeignPush(thread: Thread, task: Task)
    | ForeignQuit(thread: Thread)
    | ForeignWakeup(thread: Thread)

  function Wakeup(counter: nat): nat
  {
    if counter < COUNTER_MAX then counter + 1 else counter
  }

  predicate InCallback(pc: Pc)
  {
    pc.Dispatching? || pc.Running?
  }

  predicate Enabled(s: State, step: Step)
  {
    match step
    case Start => s.pc.BeforeLoop? && s.call.Outside?
    case TestQuit => s.pc.LoopTest?
    case PollReturns(ready) => s.pc.AtPoll? && (ready ==> s.counter > 0)
    case HandleRead => s.pc.Dispatching? && s.pc.wake && s.call.Outside?
    case BeginPending => s.pc.Dispatching? && !s.pc.wake && s.call.Outside?
    case Swap => s.pc.Swapping?
    case RunTask => s.pc.Running? && s.pc.batch != [] && s.call.Outside?
    case EndPending => s.pc.Running? && s.pc.batch == [] && s.call.Outside?
    case OwnPush(_) => (s.pc.BeforeLoop? || InCallback(s.pc)) && s.call.Outside?
    case OwnQuit => InCallback(s.pc) && s.call.Outside?
    case OwnTest => s.call.AfterPush? || s.call.AfterQuit?
    case OwnWakeup => s.call.BeforeWakeup?
    case ForeignPush(t, _) => t !in s.foreign
    case ForeignQuit(t) => t !in s.foreign && !s.pc.BeforeLoop?
    case ForeignWakeup(t) => t in s.foreign
  }

  function Next(s: State, step: Step): State
    requires Enabled(s, step)
  {
    match step
    case Start => s.(pc := LoopTest, quit := false)
    case TestQuit => s.(pc := if s.quit then Exited else AtPoll)
    case PollReturns(ready) => s.(pc := Dispatching(ready))
    case HandleRead => s.(pc := Dispatching(false), counter := 0)
    case BeginPending => s.(pc := Swapping, calling := true)
    case Swap => s.(pc := Running(s.pending), pending := [])
    case RunTask => s.(pc := Running(s.pc.batch[1..]), executed := s.executed + [s.pc.batch[0]])
    case EndPending => s.(pc := LoopTest, calling := false)
    case OwnPush(task) => s.(call := AfterPush, pending := s.pending + [task], pushed := s.pushed + [task])
    case OwnQuit => s.(call := AfterQuit, quit := true)
    case OwnTest => s.(call := if s.call.AfterPush? && s.calling then BeforeWakeup else Outside)
    case OwnWakeup => s.(call := Outside, counter := Wakeup(s.counter))
    case ForeignPush(t, task) =>
      s.(foreign := s.foreign[t := Pushed], pending := s.pending + [task], pushed := s.pushed + [task])
    case ForeignQuit(t) => s.(foreign := s.foreign[t := Quitting], quit := true)
    case ForeignWakeup(t) => s.(foreign := s.foreign - {t}, counter := Wakeup(s.counter))
  }

  const INITIAL := State(BeforeLoop, Outside, false, false, [], 0, map[], [], [])

  // ---------------------------------------------------------------- runs

  predicate CanRun(s: State, steps: seq<Step>)
    decreases |steps|
  {
    steps == [] || (Enabled(s, steps[0]) && CanRun(Next(s, steps[0]), steps[1..]))
  }

  function Run(s: State, steps: seq<Step>): State
    requires CanRun(s, steps)
    decreases |steps|
  {
    if steps == [] then s else Run(Next(s, steps[0]), steps[1..])
  }

  // ---------------------------------------------------------------- exactness of the queue

  function Batch(pc: Pc): seq<Task>
  {
    if pc.Running? then pc.batch else []
  }

  /** What has run, what the current batch still holds and what is pending: all pushes, in order. */
  ghost predicate Exact(s: State)
  {
    s.executed + Batch(s.pc) + s.pending == s.pushed
  }

  /** The flag is up exactly while the batch is taken and run, and calls happen only in callbacks. */
  ghost predicate Flagged(s: State)
  {
    && (s.calling <==> s.pc.Swapping? || s.pc.Running?)
    && (s.call.AfterPush? ==> s.pc.BeforeLoop? || InCallback(s.pc))
    && (s.call.AfterQuit? ==> InCallback(s.pc))
    && (s.call.BeforeWakeup? ==> s.pc.Running?)
  }

  lemma StepExact(s: State, step: Step)
    requires Enabled(s, step) && Exact(s)
    ensures Exact(Next(s, step))
  {
  }

  /** Every task runs at most once, none is lost, and they run in the order of the pushes. */
  lemma {:induction false} QueueExact(s: State, steps: seq<Step>)
    requires Exact(s) && CanRun(s, steps)
    ensures Exact(Run(s, steps))
    decreases |steps|
  {
    hide Exact;
    if steps != [] {
      StepExact(s, steps[0]);
      QueueExact(Next(s, steps[0]), steps[1..]);
    }
  }

  lemma StepShrinks(s: State, step: Step)
    requires s.pc.Running? && Enabled(s, step) && !step.EndPending?
    ensures var next := Next(s, step);
            && next.pc.Running? && next.executed + next.pc.batch == s.executed + s.pc.batch
            && s.executed <= next.executed
  {
    if step.RunTask? {
      assert s.pc.batch == [s.pc.batch[0]] + s.pc.batch[1..];
    }
  }

  /** While a batch runs nothing is added to it, whatever its tasks or other threads push. */
  lemma {:induction false} BatchOnlyShrinks(s: State, steps: seq<Step>)
    requires s.pc.Running? && CanRun(s, steps)
    requires forall step :: step in steps ==> !step.EndPending?
    ensures var end := Run(s, steps);
            && end.pc.Running? && end.executed + end.pc.batch == s.executed + s.pc.batch
            && s.executed <= end.executed
    decreases |steps|
  {
    hide Next;
    if steps != [] {
      assert steps[0] in steps;
      StepShrinks(s, steps[0]);
      BatchOnlyShrinks(Next(s, steps[0]), steps[1..]);
    }
  }

  // ---------------------------------------------------------------- no lost wakeup

  /** Pending tasks have a wakeup: already counted, or owed by a thread that has pushed. */
  ghost predicate Covered(s: State)
  {
    s.pending == [] || s.counter > 0 || exists t :: t in s.foreign && s.foreign[t].Pushed?
  }

  /** The same for a request to quit. */
  ghost predicate QuitCovered(s: State)
  {
    s.quit ==> s.counter > 0 || exists t :: t in s.foreign && s.foreign[t].Quitting?
  }

  ghost predicate Protected(s: State)
  {
    && Flagged(s)
    && !s.pc.BeforeLoop?
    && (s.pc.LoopTest? || s.pc.AtPoll? ==> Covered(s))
    && (s.pc.AtPoll? ==> QuitCovered(s))
    && (s.pc.Running? ==> Covered(s) || s.call.AfterPush? || s.call.BeforeWakeup?)
  }

  lemma StepProtected(s: State, step: Step)
    requires Enabled(s, step) && Protected(s)
    ensures Protected(Next(s, step))
  {
    var next := Next(s, step);
    match step
    case ForeignPush(t, _) =>
      assert next.foreign[t].Pushed?;
      assert forall u :: u in s.foreign ==> next.foreign[u] == s.foreign[u];
    case ForeignQuit(t) =>
      assert next.foreign[t].Quitting?;
      assert forall u :: u in s.foreign ==> next.foreign[u] == s.foreign[u];
    case _ =>
  }

  /**
    Once the loop has been entered with its queue covered, it never stands at poll with a pending
    task, or a request to quit, for which no wakeup has been counted or is owed.
    */
  lemma {:induction false} NoLostWakeup(s: State, steps: seq<Step>)
    requires Protected(s) && CanRun(s, steps)
    ensures Protected(Run(s, steps))
    ensures Run(s, steps).pc.AtPoll? ==> Covered(Run(s, steps)) && QuitCovered(Run(s, steps))
    decreases |steps|
  {
    hide Protected;
    if steps == [] {
      if s.pc.AtPoll? {
        AtPollCovered(s);
      }
    } else {
      StepProtected(s, steps[0]);
      NoLostWakeup(Next(s, steps[0]), steps[1..]);
    }
  }

  lemma AtPollCovered(s: State)
    requires Protected(s) && s.pc.AtPoll?
    ensures Covered(s) && QuitCovered(s)
  {
  }

  /** In no run from `s` does the loop stand at poll with an uncovered task. */
  ghost predicate NeverSleepsOnTasks(s: State)
  {
    forall steps :: CanRun(s, steps) ==> (Run(s, steps).pc.AtPoll? ==> Covered(Run(s, steps)))
  }

  /** A state in which the owner is about to enter the loop. */
  ghost predicate AboutToStart(s: State)
  {
    s.pc.BeforeLoop? && s.call.Outside? && !s.calling
  }

  /**
    Exactly when the guarantee holds from the first poll on: the tasks queued before the loop
    started, if any, come with a wakeup. Tasks that the owner alone queued do not.
    */
  lemma CoveredAtStart(s: State)
    requires AboutToStart(s)
    ensures Enabled(s, Start) && (Covered(s) <==> NeverSleepsOnTasks(Next(s, Start)))
  {
    var started := Next(s, Start);
    if Covered(s) {
      forall steps | CanRun(started, steps)
        ensures Run(started, steps).pc.AtPoll? ==> Covered(Run(started, steps))
      {
        NoLostWakeup(started, steps);
      }
    } else {
      var polling := Next(started, TestQuit);
      RunsOn(started, TestQuit, []);
      assert [TestQuit] + [] == [TestQuit];
      assert CanRun(started, [TestQuit]) && Run(started, [TestQuit]) == polling;
      assert polling.pc.AtPoll? && polling.foreign == s.foreign && !Covered(polling);
    }
  }

  lemma {:induction false} ForeignTasksCovered(s: State, steps: seq<Step>)
    requires AboutToStart(s) && Covered(s) && CanRun(s, steps)
    requires forall step :: step in steps ==> !step.OwnPush? && !step.Start?
    ensures AboutToStart(Run(s, steps)) && Covered(Run(s, steps))
    decreases |steps|
  {
    if steps != [] {
      var next := Next(s, steps[0]);
      assert steps[0] in steps;
      if steps[0].ForeignPush? {
        assert next.foreign[steps[0].thread].Pushed?;
      }
      ForeignTasksCovered(next, steps[1..]);
    }
  }

  /** A new loop after some steps: whether the owner or another thread has queued a task yet. */
  ghost predicate Primed(s: State, own: bool, foreign: bool)
  {
    && s.pc.BeforeLoop? && !s.calling && (s.call.Outside? || s.call.AfterPush?)
    && (s.pending == [] <==> !own && !foreign)
    && (!foreign ==> s.counter == 0 && s.foreign == map[])
    && (foreign ==> s.counter > 0 || exists t :: t in s.foreign && s.foreign[t].Pushed?)
  }

  lemma StepPrimed(s: State, step: Step, own: bool, foreign: bool)
    requires Primed(s, own, foreign) && Enabled(s, step) && !step.Start?
    ensures Primed(Next(s, step), own || step.OwnPush?, foreign || step.ForeignPush?)
  {
    if step.ForeignPush? {
      assert Next(s, step).foreign[step.thread].Pushed?;
    }
  }

  lemma {:induction false} RunPrimed(s: State, steps: seq<Step>, own: bool, foreign: bool)
    requires Primed(s, own, foreign) && CanRun(s, steps) && Start !in steps
    ensures Primed(Run(s, steps), own || exists step :: step in steps && step.OwnPush?,
                   foreign || exists step :: step in steps && step.ForeignPush?)
    decreases |steps|
  {
    hide Primed, Next, Enabled;
    if steps != [] {
      assert steps == [steps[0]] + steps[1..];
      StepPrimed(s, steps[0], own, foreign);
      RunPrimed(Next(s, steps[0]), steps[1..], own || steps[0].OwnPush?, foreign || steps[0].ForeignPush?);
    }
  }

  /**
    A new loop that its owner enters after the steps `before`: no later run sleeps on a task if and
    only if the owner has queued nothing, or some other thread has queued a task as well.
    */
  lemma SafeAfterExactly(before: seq<Step>)
    requires CanRun(INITIAL, before) && Start !in before && Run(INITIAL, before).call.Outside?
    ensures Enabled(Run(INITIAL, before), Start)
    ensures NeverSleepsOnTasks(Next(Run(INITIAL, before), Start)) <==>
            (forall step :: step in before ==> !step.OwnPush?) || exists step :: step in before && step.ForeignPush?
  {
    hide CanRun, Run, Next, NeverSleepsOnTasks;
    RunPrimed(INITIAL, before, false, false);
    CoveredAtStart(Run(INITIAL, before));
  }

  /**
    Every interleaving from a new loop, as long as the owner queues nothing before it enters the
    loop: no task and no request to quit is ever slept on.
    */
  lemma NoWakeupLostInAnyRun(before: seq<Step>, after: seq<Step>)
    requires CanRun(INITIAL, before) && forall step :: step in before ==> !step.OwnPush? && !step.Start?
    requires var s := Run(INITIAL, before);
             Enabled(s, Start) && CanRun(Next(s, Start), after)
    ensures var end := Run(Next(Run(INITIAL, before), Start), after);
            end.pc.AtPoll? ==> Covered(end) && QuitCovered(end)
  {
    ForeignTasksCovered(INITIAL, before);
    NoLostWakeup(Next(Run(INITIAL, before), Start), after);
  }

  /** One task queued by the owner before it enters the loop: the first poll sleeps on it. */
  lemma OwnerTaskSleeps(task: Task)
    ensures var steps := [OwnPush(task), OwnTest, Start, TestQuit];
            && CanRun(INITIAL, steps)
            && var s := Run(INITIAL, steps);
               s.pc.AtPoll? && s.pending == [task] && s.counter == 0 && s.foreign == map[] && !Covered(s)
  {
    var s1 := Next(INITIAL, OwnPush(task));
    var s2 := Next(s1, OwnTest);
    var s3 := Next(s2, Start);
    var s4 := Next(s3, TestQuit);
    RunsOn(s3, TestQuit, []);
    RunsOn(s2, Start, [TestQuit]);
    RunsOn(s1, OwnTest, [Start, TestQuit]);
    RunsOn(INITIAL, OwnPush(task), [OwnTest, Start, TestQuit]);
    assert [OwnPush(task)] + ([OwnTest] + ([Start] + ([TestQuit] + []))) == [OwnPush(task), OwnTest, Start, TestQuit];
    assert [OwnTest] + [Start, TestQuit] == [OwnTest, Start, TestQuit];
    assert [Start] + [TestQuit] == [Start, TestQuit];
  }

  lemma RunsOn(s: State, step: Step, steps: seq<Step>)
    requires Enabled(s, step) && CanRun(Next(s, step), steps)
    ensures CanRun(s, [step] + steps) && Run(s, [step] + steps) == Run(Next(s, step), steps)
  {
    assert ([step] + steps)[1..] == steps;
  }

  /**
    Progress: a covered loop at poll with all wakeups delivered cannot block, and the iteration that
    follows takes every task that was pending.
    */
  lemma PollTakesPending(s: State)
    requires Protected(s) && s.pc.AtPoll? && s.pending != [] && s.foreign == map[]
    ensures Enabled(s, PollReturns(true))
    ensures var steps := [PollReturns(true), HandleRead, BeginPending, Swap];
            CanRun(s, steps) && Run(s, steps).pc == Running(s.pending) && Run(s, steps).pending == []
  {
    var s1 := Next(s, PollReturns(true));
    var s2 := Next(s1, HandleRead);
    var s3 := Next(s2, BeginPending);
    RunsOn(s3, Swap, []);
    RunsOn(s2, BeginPending, [Swap]);
    RunsOn(s1, HandleRead, [BeginPending, Swap]);
    RunsOn(s, PollReturns(true), [HandleRead, BeginPending, Swap]);
    assert [BeginPending] + [Swap] == [BeginPending, Swap];
    assert [HandleRead] + [BeginPending, Swap] == [HandleRead, BeginPending, Swap];
    assert [PollReturns(true)] + [HandleRead, BeginPending, Swap]
           == [PollReturns(true), HandleRead, BeginPending, Swap];
  }

  // ---------------------------------------------------------------- what the state says of the history

  /** The wakeups since the loop last read the eventfd, starting from `n`. */
  function Wakes(steps: seq<Step>, n: nat): nat
  {
    if steps == [] then n else
    Wakes(steps[1..], if steps[0].OwnWakeup? || steps[0].ForeignWakeup? then n + 1
                      else if steps[0].HandleRead? then 0 else n)
  }

  function PushedBy(steps: seq<Step>): seq<Task>
  {
    if steps == [] then [] else
    (if steps[0].OwnPush? || steps[0].ForeignPush? then [steps[0].task] else []) + PushedBy(steps[1..])
  }

  /**
    In every run the counter is the number of wakeups since the last read, up to the eventfd's limit:
    a read empties it, so the loop does not spin.
    */
  lemma {:induction false} CounterCounts(s: State, steps: seq<Step>, n: nat)
    requires CanRun(s, steps) && s.counter == Min(n, COUNTER_MAX)
    ensures Run(s, steps).counter == Min(Wakes(steps, n), COUNTER_MAX)
    decreases |steps|
  {
    hide Enabled;
    if steps != [] {
      var step := steps[0];
      var next := if step.OwnWakeup? || step.ForeignWakeup? then n + 1 else if step.HandleRead? then 0 else n;
      CounterCounts(Next(s, step), steps[1..], next);
    }
  }

  /** What was pushed is what the threads pushed, in the order of their steps. */
  lemma {:induction false} PushesRecorded(s: State, steps: seq<Step>)
    requires CanRun(s, steps)
    ensures Run(s, steps).pushed == s.pushed + PushedBy(steps)
    decreases |steps|
  {
    hide Enabled;
    if steps == [] {
      assert s.pushed + [] == s.pushed;
    } else {
      var step, rest := steps[0], PushedBy(steps[1..]);
      PushesRecorded(Next(s, step), steps[1..]);
      if step.OwnPush? || step.ForeignPush? {
        assert s.pushed + [step.task] + rest == s.pushed + ([step.task] + rest);
      } else {
        assert [] + rest == rest;
      }
    }
  }

  /** A request to quit stands until the loop is entered anew. */
  lemma {:induction false} QuitStands(s: State, steps: seq<Step>)
    requires CanRun(s, steps) && Start !in steps
    ensures Run(s, steps).quit <==> s.quit || exists step :: step in steps && (step.OwnQuit? || step.ForeignQuit?)
    decreases |steps|
  {
    if steps != [] {
      assert steps == [steps[0]] + steps[1..];
      QuitStands(Next(s, steps[0]), steps[1..]);
    }
  }

  /**
    A loop that stands at poll with a request to quit, all wakeups delivered, cannot block; after one
    more batch it has left.
    */
  lemma QuitLeaves(s: State)
    requires Protected(s) && s.pc.AtPoll? && s.call.Outside? && s.quit && s.foreign == map[]
    ensures var steps := [PollReturns(true), HandleRead] + PendingSteps(s.pending, (_: Task) => []) + [TestQuit];
            && CanRun(s, steps)
            && Run(s, steps).pc.Exited? && Run(s, steps).executed == s.executed + s.pending
  {
    hide CanRun, Run, PendingSteps;
    var s1 := Next(s, PollReturns(true));
    var s2 := Next(s1, HandleRead);
    var batch := PendingSteps(s.pending, (_: Task) => []);
    PendingRuns(s2, (_: Task) => []);
    var s3 := Run(s2, batch);
    NoSteps(Next(s3, TestQuit));
    RunsOn(s3, TestQuit, []);
    assert [TestQuit] + [] == [TestQuit];
    RunConcat(s2, batch, [TestQuit]);
    RunsOn(s1, HandleRead, batch + [TestQuit]);
    RunsOn(s, PollReturns(true), [HandleRead] + (batch + [TestQuit]));
    assert [PollReturns(true)] + ([HandleRead] + (batch + [TestQuit]))
           == [PollReturns(true), HandleRead] + batch + [TestQuit];
  }

  // ---------------------------------------------------------------- the loop's own code

  /** The tasks that the given tasks queue when they run, in order. */
  function Requeued(tasks: seq<Task>, queues: Task -> seq<Task>): seq<Task>
  {
    if tasks == [] then [] else Requeued(tasks[..|tasks| - 1], queues) + queues(tasks[|tasks| - 1])
  }

  /** The counter after so many wakeups. */
  function Wakeups(counter: nat, n: nat): (c: nat)
    ensures n > 0 ==> c > 0
    ensures c >= counter
  {
    if n == 0 then counter else Wakeup(Wakeups(counter, n - 1))
  }

  /** The steps of a running task that queues `tasks`. */
  function Pushes(tasks: seq<Task>): seq<Step>
  {
    if tasks == [] then [] else Pushes(tasks[..|tasks| - 1]) + [OwnPush(tasks[|tasks| - 1]), OwnTest, OwnWakeup]
  }

  /** The steps of a batch whose tasks queue others. */
  function BatchSteps(tasks: seq<Task>, queues: Task -> seq<Task>): seq<Step>
  {
    if tasks == [] then [] else
    BatchSteps(tasks[..|tasks| - 1], queues) + ([RunTask] + Pushes(queues(tasks[|tasks| - 1])))
  }

  /** The steps of one call of doPendingFunctions while no other thread moves. */
  function PendingSteps(tasks: seq<Task>, queues: Task -> seq<Task>): seq<Step>
  {
    [BeginPending, Swap] + BatchSteps(tasks, queues) + [EndPending]
  }

  lemma {:induction false} RunConcat(s: State, xs: seq<Step>, ys: seq<Step>)
    requires CanRun(s, xs) && CanRun(Run(s, xs), ys)
    ensures CanRun(s, xs + ys) && Run(s, xs + ys) == Run(Run(s, xs), ys)
    decreases |xs|
  {
    hide Next, Enabled;
    if xs == [] {
      assert xs + ys == ys;
    } else {
      assert (xs + ys)[1..] == xs[1..] + ys;
      RunConcat(Next(s, xs[0]), xs[1..], ys);
    }
  }

  lemma PushRuns(s: State, task: Task)
    requires s.pc.Running? && s.call.Outside? && s.calling
    ensures var steps := [OwnPush(task), OwnTest, OwnWakeup];
            && CanRun(s, steps)
            && Run(s, steps)
               == s.(pending := s.pending + [task], pushed := s.pushed + [task], counter := Wakeup(s.counter))
  {
    var s1 := Next(s, OwnPush(task));
    var s2 := Next(s1, OwnTest);
    RunsOn(s2, OwnWakeup, []);
    RunsOn(s1, OwnTest, [OwnWakeup]);
    RunsOn(s, OwnPush(task), [OwnTest, OwnWakeup]);
    assert [OwnTest] + [OwnWakeup] == [OwnTest, OwnWakeup];
    assert [OwnPush(task)] + [OwnTest, OwnWakeup] == [OwnPush(task), OwnTest, OwnWakeup];
  }

  lemma {:induction false} PushesRun(s: State, tasks: seq<Task>)
    requires s.pc.Running? && s.call.Outside? && s.calling
    ensures CanRun(s, Pushes(tasks))
    ensures Run(s, Pushes(tasks))
            == s.(pending := s.pending + tasks, pushed := s.pushed + tasks, counter := Wakeups(s.counter, |tasks|))
  {
    hide CanRun, Run;
    if tasks == [] {
      assert s.pending + tasks == s.pending && s.pushed + tasks == s.pushed;
      NoSteps(s);
    } else {
      var init, last := tasks[..|tasks| - 1], tasks[|tasks| - 1];
      PushesRun(s, init);
      PushRuns(Run(s, Pushes(init)), last);
      RunConcat(s, Pushes(init), [OwnPush(last), OwnTest, OwnWakeup]);
      assert tasks == init + [last];
      assert s.pending + init + [last] == s.pending + tasks && s.pushed + init + [last] == s.pushed + tasks;
    }
  }

  lemma NoSteps(s: State)
    ensures CanRun(s, []) && Run(s, []) == s
  {
  }

  /** Running the first `tasks` of a batch. */
  lemma {:induction false} BatchRuns(s: State, tasks: seq<Task>, rest: seq<Task>, queues: Task -> seq<Task>)
    requires s.pc == Running(tasks + rest) && s.call.Outside? && s.calling
    ensures CanRun(s, BatchSteps(tasks, queues))
    ensures var more := Requeued(tasks, queues);
            Run(s, BatchSteps(tasks, queues))
            == s.(pc := Running(rest), executed := s.executed + tasks, pending := s.pending + more,
                  pushed := s.pushed + more, counter := Wakeups(s.counter, |more|))
    decreases |tasks|
  {
    hide CanRun, Run, Pushes;
    if tasks == [] {
      assert tasks + rest == rest && s.executed + tasks == s.executed;
      assert s.pending + [] == s.pending && s.pushed + [] == s.pushed;
      NoSteps(s);
    } else {
      var init, last := tasks[..|tasks| - 1], tasks[|tasks| - 1];
      assert tasks + rest == init + ([last] + rest);
      BatchRuns(s, init, [last] + rest, queues);
      var mid := Run(s, BatchSteps(init, queues));
      TaskRuns(mid, last, rest, queues(last));
      RunConcat(s, BatchSteps(init, queues), [RunTask] + Pushes(queues(last)));
      var more := Requeued(init, queues);
      assert s.executed + init + [last] == s.executed + tasks by { assert tasks == init + [last]; }
      assert s.pending + more + queues(last) == s.pending + (more + queues(last));
      assert s.pushed + more + queues(last) == s.pushed + (more + queues(last));
      WakeupsAdd(s.counter, |more|, |queues(last)|);
    }
  }

  lemma TaskRuns(s: State, task: Task, rest: seq<Task>, queued: seq<Task>)
    requires s.pc == Running([task] + rest) && s.call.Outside? && s.calling
    ensures var steps := [RunTask] + Pushes(queued);
            && CanRun(s, steps)
            && Run(s, steps)
               == s.(pc := Running(rest), executed := s.executed + [task], pending := s.pending + queued,
                     pushed := s.pushed + queued, counter := Wakeups(s.counter, |queued|))
  {
    hide CanRun, Run, Pushes;
    assert ([task] + rest)[1..] == rest;
    PushesRun(Next(s, RunTask), queued);
    RunsOn(s, RunTask, Pushes(queued));
  }

  lemma {:induction false} WakeupsAdd(counter: nat, m: nat, n: nat)
    ensures Wakeups(Wakeups(counter, m), n) == Wakeups(counter, m + n)
  {
    if n > 0 {
      WakeupsAdd(counter, m, n - 1);
    }
  }

  /** What one undisturbed call of doPendingFunctions does to the state. */
  lemma PendingRuns(s: State, queues: Task -> seq<Task>)
    requires s.pc == Dispatching(false) && s.call.Outside?
    ensures var steps, more := PendingSteps(s.pending, queues), Requeued(s.pending, queues);
            && CanRun(s, steps)
            && Run(s, steps)
               == s.(pc := LoopTest, calling := false, executed := s.executed + s.pending, pending := more,
                     pushed := s.pushed + more, counter := Wakeups(s.counter, |more|))
  {
    hide CanRun, Run, BatchSteps;
    var s1 := Next(s, BeginPending);
    var s2 := Next(s1, Swap);
    var tasks, batch := s.pending, BatchSteps(s.pending, queues);
    assert tasks + [] == tasks && [] + Requeued(tasks, queues) == Requeued(tasks, queues);
    BatchRuns(s2, tasks, [], queues);
    var s3 := Run(s2, batch);
    NoSteps(Next(s3, EndPending));
    RunsOn(s3, EndPending, []);
    assert [EndPending] + [] == [EndPending];
    RunConcat(s2, batch, [EndPending]);
    RunsOn(s1, Swap, batch + [EndPending]);
    RunsOn(s, BeginPending, [Swap] + (batch + [EndPending]));
    assert [BeginPending] + ([Swap] + (batch + [EndPending])) == PendingSteps(tasks, queues);
  }

  /** The queue and its flag as the methods run on one thread at a time. */
  class EventLoop {
    var pendingFunctions: seq<Task>
    var callingPendingFunctions: bool
    var counter: nat
    var executed: seq<Task>

    constructor ()
      ensures pendingFunctions == [] && !callingPendingFunctions && counter == 0 && executed == []
    {
      pendingFunctions, callingPendingFunctions, counter, executed := [], false, 0, [];
    }

    /** The object as it is in a state of the threads, between two calls of the owner. */
    ghost predicate Shows(s: State)
      reads this
    {
      && s.call.Outside? && pendingFunctions == s.pending && callingPendingFunctions == s.calling
      && counter == s.counter && executed == s.executed
    }

    method QueueInLoop(task: Task, isInLoopThread: bool)
      modifies this`pendingFunctions, this`counter
      ensures pendingFunctions == old(pendingFunctions) + [task]
      ensures counter == if !isInLoopThread || callingPendingFunctions then Wakeup(old(counter)) else old(counter)
    {
      pendingFunctions := pendingFunctions + [task];
      if !isInLoopThread || callingPendingFunctions {
        counter := Wakeup(counter);
      }
    }

    /** A foreign thread queues the task, the owner runs it at once. */
    method RunInLoop(task: Task, isInLoopThread: bool)
      modifies this`pendingFunctions, this`counter, this`executed
      ensures isInLoopThread ==>
                && executed == old(executed) + [task] && pendingFunctions == old(pendingFunctions)
                && counter == old(counter)
      ensures !isInLoopThread ==>
                && executed == old(executed) && pendingFunctions == old(pendingFunctions) + [task]
                && counter == Wakeup(old(counter)) && counter > 0
    {
      if isInLoopThread {
        executed := executed + [task];
      } else {
        QueueInLoop(task, isInLoopThread);
      }
    }

    /** Runs the batch that was pending at entry; what its tasks queue waits, with a wakeup. */
    method DoPendingFunctions(queues: Task -> seq<Task>)
      requires !callingPendingFunctions
      modifies this
      ensures executed == old(executed) + old(pendingFunctions) && !callingPendingFunctions
      ensures pendingFunctions == Requeued(old(pendingFunctions), queues)
      ensures counter == Wakeups(old(counter), |pendingFunctions|)
      ensures forall s: State :: old(Shows(s)) && s.pc == Dispatching(false) ==>
                && CanRun(s, PendingSteps(s.pending, queues))
                && Shows(Run(s, PendingSteps(s.pending, queues)))
    {
      hide PendingSteps;
      var functions := pendingFunctions;
      callingPendingFunctions, pendingFunctions := true, [];
      for i := 0 to |functions|
        invariant callingPendingFunctions && executed == old(executed) + functions[..i]
        invariant pendingFunctions == Requeued(functions[..i], queues)
        invariant counter == Wakeups(old(counter), |pendingFunctions|)
      {
        assert functions[..i + 1][..i] == functions[..i];
        executed := executed + [functions[i]];
        WakeupsAdd(old(counter), |pendingFunctions|, |queues(functions[i])|);
        RunBody(queues(functions[i]));
      }
      assert functions[..|functions|] == functions;
      callingPendingFunctions := false;
      forall s: State | old(Shows(s)) && s.pc == Dispatching(false)
        ensures CanRun(s, PendingSteps(s.pending, queues)) && Shows(Run(s, PendingSteps(s.pending, queues)))
      {
        PendingRuns(s, queues);
      }
    }

    /** A task's body, as far as the loop can see it: the tasks it queues. */
    method RunBody(tasks: seq<Task>)
      requires callingPendingFunctions
      modifies this`pendingFunctions, this`counter
      ensures pendingFunctions == old(pendingFunctions) + tasks
      ensures counter == Wakeups(old(counter), |tasks|)
    {
      for j := 0 to |tasks|
        invariant pendingFunctions == old(pendingFunctions) + tasks[..j]
        invariant counter == Wakeups(old(counter), j)
      {
        QueueInLoop(tasks[j], true);
      }
    }
  }

  /** queueInLoop on another thread is its push and its wakeup. */
  lemma QueueInLoopForeign(s: State, thread: Thread, task: Task)
    requires thread !in s.foreign
    ensures var steps := [ForeignPush(thread, task), ForeignWakeup(thread)];
            && CanRun(s, steps)
            && Run(s, steps)
               == s.(pending := s.pending + [task], pushed := s.pushed + [task], counter := Wakeup(s.counter))
  {
    var s1 := Next(s, ForeignPush(thread, task));
    assert s1.foreign - {thread} == s.foreign;
    RunsOn(s1, ForeignWakeup(thread), []);
    RunsOn(s, ForeignPush(thread, task), [ForeignWakeup(thread)]);
    assert [ForeignPush(thread, task)] + ([ForeignWakeup(thread)] + [])
           == [ForeignPush(thread, task), ForeignWakeup(thread)];
  }
}
