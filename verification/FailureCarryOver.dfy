/**
 Failures across plays and batches.  Every play gets a fresh iterator, in which the hosts
 that failed earlier are marked failed again; the table of failed hosts is cleared and, after
 the strategy has run, filled from the iterator.
*/
module FailureCarryOver {
  import opened Basics
  import opened PlaySemantics
  import opened IteratorModel
  import opened IteratorInvariants
  import opened HandlerFlush
  import opened SaneStates
  import opened HostStates
  import opened PlayIterators

  type States = map<HostName, State>

  /** What a strategy does with the iterator while a play runs. */
  datatype StrategyStep =
    | Get(host: HostName, facts: HostFacts, peek: bool)
    | FailTask(host: HostName)
    | Include(host: HostName, tasks: seq<Task>)
    | LoseHost(host: HostName)  // the host became unreachable
    | Record(host: HostName)    // the strategy itself enters the host into the table of failed hosts

  datatype Play = Play(blocks: seq<Block>, handlers: seq<TaskId>, batch: seq<HostName>)

  function StepEnv(play: Play, facts: HostFacts): Env {
    EnvOf(play.blocks, play.handlers, facts)
  }

  function AfterStep(states: States, play: Play, step: StrategyStep): States {
    match step
    case Get(h, facts, peek) =>
      var known := WithStub(states, h);
      if peek then known else known[h := Next(known[h], StepEnv(play, facts)).state]
    case FailTask(h) =>
      var known := WithStub(states, h);
      known[h := SetFailed(known[h])]
    case Include(h, ts) =>
      var known := WithStub(states, h);
      known[h := Insert(known[h], ts)]
    case LoseHost(_) => states
    case Record(_) => states
  }

  function AfterSteps(states: States, play: Play, steps: seq<StrategyStep>): States {
    if steps == [] then states
    else AfterStep(AfterSteps(states, play, steps[..|steps| - 1]), play, steps[|steps| - 1])
  }

  /** The tasks the strategy is given, with the hosts they are for. */
  datatype Given = Given(host: HostName, task: TaskId)

  function GivenBy(states: States, play: Play, step: StrategyStep): seq<Given> {
    match step
    case Get(h, facts, peek) =>
      var r := Next(WithStub(states, h)[h], StepEnv(play, facts));
      if r.task.Some? then [Given(h, r.task.value)] else []
    case _ => []
  }

  function AllGiven(states: States, play: Play, steps: seq<StrategyStep>): seq<Given> {
    if steps == [] then []
    else
      var before := steps[..|steps| - 1];
      AllGiven(states, play, before) + GivenBy(AfterSteps(states, play, before), play, steps[|steps| - 1])
  }

  function Lost(steps: seq<StrategyStep>): set<HostName> {
    set s | s in steps && s.LoseHost? :: s.host
  }

  function Recorded(steps: seq<StrategyStep>): set<HostName> {
    set s | s in steps && s.Record? :: s.host
  }

  /** Marking every host of `hosts` failed. */
  function Marked(states: States, hosts: set<HostName>): States {
    map h | h in states.Keys + hosts ::
      if h in hosts then SetFailed(WithStub(states, h)[h]) else states[h]
  }

  /** Without a task to start at, a new iterator asks for no facts. */
  const NO_HOST_FACTS: HostName -> HostFacts := (host: HostName) => HostFacts(false, {})

  function FreshStates(play: Play): States {
    StartStates(play.blocks, play.handlers, NO_HOST_FACTS, play.batch, None).states
  }

  /** The states of the play's hosts when the strategy is done. */
  function FinalStates(play: Play, failed: set<HostName>, steps: seq<StrategyStep>): States {
    AfterSteps(Marked(FreshStates(play), failed), play, steps)
  }

  // ---------------------------------------------------------------- carried-over hosts stay out

  lemma {:induction false} CompleteUntouched(s: State, env: Env, ts: seq<Task>)
    requires s.run == COMPLETE
    ensures Next(s, env) == Turn(s, None) && SetFailed(s) == s && Insert(s, ts) == s
  {
  }

  lemma {:induction false} CompleteStep(states: States, play: Play, step: StrategyStep, h: HostName)
    requires h in states && states[h].run == COMPLETE
    ensures h in AfterStep(states, play, step) && AfterStep(states, play, step)[h] == states[h]
    ensures forall g :: g in GivenBy(states, play, step) ==> g.host != h
  {
    hide Next, SetFailed, Insert, EnvOf, Initial;
    match step
    case Get(_, facts, _) => CompleteUntouched(states[h], StepEnv(play, facts), []);
    case FailTask(_) => CompleteUntouched(states[h], Env(false, None, [], {}), []);
    case Include(_, ts) => CompleteUntouched(states[h], Env(false, None, [], {}), ts);
    case LoseHost(_) =>
    case Record(_) =>
  }

  /** Whatever the strategy does, a host that is done stays as it is and is given nothing. */
  lemma {:induction false} CompleteSteps(states: States, play: Play, steps: seq<StrategyStep>, h: HostName)
    requires h in states && states[h].run == COMPLETE
    ensures h in AfterSteps(states, play, steps) && AfterSteps(states, play, steps)[h] == states[h]
    ensures forall g :: g in AllGiven(states, play, steps) ==> g.host != h
    decreases |steps|
  {
    hide AfterStep, GivenBy;
    if steps != [] {
      var before := steps[..|steps| - 1];
      CompleteSteps(states, play, before, h);
      CompleteStep(AfterSteps(states, play, before), play, steps[|steps| - 1], h);
    }
  }

  lemma {:induction false} FreshInitial(blocks: seq<Block>, handlers: seq<TaskId>, batch: seq<HostName>)
    ensures var r := StartStates(blocks, handlers, NO_HOST_FACTS, batch, None);
            r.states.Keys == (set h | h in batch) && forall h :: h in r.states ==> r.states[h] == Initial(blocks)
    decreases |batch|
  {
    hide Initial;
    if batch != [] {
      FreshInitial(blocks, handlers, batch[..|batch| - 1]);
      assert forall h :: h in batch <==> h in batch[..|batch| - 1] || h == batch[|batch| - 1];
    }
  }

  lemma {:induction false} MarkedFresh(blocks: seq<Block>)
    ensures SetFailed(Initial(blocks)).run == COMPLETE && CheckFailed(SetFailed(Initial(blocks)))
  {
  }

  /**
   A host that failed in an earlier play: failed in this one, whether or not it is in the batch,
   and given nothing.
  */
  lemma {:induction false} CarriedOver(play: Play, failed: set<HostName>, steps: seq<StrategyStep>, h: HostName)
    requires h in failed
    ensures h in FailedHosts(FinalStates(play, failed, steps))
    ensures forall g :: g in AllGiven(Marked(FreshStates(play), failed), play, steps) ==> g.host != h
  {
    hide SetFailed, CheckFailed, Initial, AfterSteps, AllGiven, StartStates, EnvOf;
    FreshInitial(play.blocks, play.handlers, play.batch);
    MarkedFresh(play.blocks);
    MarkedFresh([]);
    CompleteSteps(Marked(FreshStates(play), failed), play, steps, h);
  }

  // ---------------------------------------------------------------- every host by itself

  /** What a step of the strategy is for host `h`. */
  function EventOf(play: Play, step: StrategyStep, h: HostName): seq<Event> {
    if step.host != h then []
    else
      match step
      case Get(_, facts, peek) => if peek then [] else [Ask(StepEnv(play, facts))]
      case FailTask(_) => [Fail]
      case Include(_, ts) => [Add(ts)]
      case _ => []
  }

  function EventsOf(play: Play, steps: seq<StrategyStep>, h: HostName): seq<Event> {
    if steps == [] then []
    else EventsOf(play, steps[..|steps| - 1], h) + EventOf(play, steps[|steps| - 1], h)
  }

  /** The tasks that host `h` was given to run; what a peek shows is not run. */
  function TakenBy(states: States, play: Play, steps: seq<StrategyStep>, h: HostName): Log {
    if steps == [] then []
    else
      var before, last := steps[..|steps| - 1], steps[|steps| - 1];
      var given := if last.Get? && !last.peek && last.host == h
                   then GivenBy(AfterSteps(states, play, before), play, last) else [];
      TakenBy(states, play, before, h) + seq(|given|, i requires 0 <= i < |given| => given[i].task)
  }

  lemma {:induction false} OneStepOf(states: States, play: Play, step: StrategyStep, h: HostName)
    requires h in states
    ensures h in AfterStep(states, play, step)
    ensures AfterStep(states, play, step)[h] == Run(states[h], EventOf(play, step, h))
    ensures var given := GivenBy(states, play, step);
            step.Get? && !step.peek && step.host == h ==>
              HandedOut(states[h], EventOf(play, step, h)) ==
              seq(|given|, i requires 0 <= i < |given| => given[i].task)
    ensures !(step.Get? && !step.peek && step.host == h) ==> HandedOut(states[h], EventOf(play, step, h)) == []
  {
    hide Next, SetFailed, Insert, EnvOf, Initial;
    var es := EventOf(play, step, h);
    if es != [] {
      assert es[1..] == [];
    }
  }

  /**
   Whatever the strategy does with other hosts in between, a host of the batch is in the state, and
   was given the tasks, that its own requests, failures and insertions lead to from the start.
  */
  lemma {:induction false} HostsApart(play: Play, failed: set<HostName>, steps: seq<StrategyStep>, h: HostName)
    requires h in play.batch && h !in failed
    ensures var final := FinalStates(play, failed, steps);
            && h in final && final[h] == Run(Initial(play.blocks), EventsOf(play, steps, h))
            && TakenBy(Marked(FreshStates(play), failed), play, steps, h)
               == HandedOut(Initial(play.blocks), EventsOf(play, steps, h))
    decreases |steps|
  {
    hide Initial, AfterStep, GivenBy, EventOf, StartStates, SetFailed;
    var start := Marked(FreshStates(play), failed);
    FreshInitial(play.blocks, play.handlers, play.batch);
    assert start[h] == Initial(play.blocks);
    if steps != [] {
      var before, last := steps[..|steps| - 1], steps[|steps| - 1];
      HostsApart(play, failed, before, h);
      var s0, es := Initial(play.blocks), EventsOf(play, before, h);
      OneStepOf(AfterSteps(start, play, before), play, last, h);
      HandedOutAppend(s0, es, EventOf(play, last, h));
      RunAppend(s0, es, EventOf(play, last, h));
    }
  }

  /** A host of another play is done at once. */
  lemma {:induction false} StubIsDone(states: States, h: HostName, env: Env)
    requires h !in states
    ensures var known := WithStub(states, h);
            && h in known && Next(known[h], env).task.None? && !CheckFailed(known[h])
            && forall g :: g in states ==> g in known && known[g] == states[g]
  {
  }

  // ---------------------------------------------------------------- the task queue manager

  /** One step of the strategy on the iterator object. */
  method ExecuteStep(it: PlayIterator, ghost play: Play, step: StrategyStep) returns (given: seq<Given>)
    requires it.Valid() && it.blocks == play.blocks && it.handlers == play.handlers
    modifies it`hostStates, it`States, it`Repr, it`removedHosts
    ensures it.Valid() && fresh(it.Repr - old(it.Repr))
    ensures it.States == AfterStep(old(it.States), play, step)
    ensures given == GivenBy(old(it.States), play, step)
  {
    hide PlayIterator.Valid, HostState.Valid, Next, SetFailed, Insert, Sane, Parked, EnvOf, Initial;
    given := [];
    match step
    case Get(h, facts, peek) =>
      var s, task := it.GetNextTaskForHost(h, facts, peek);
      if task.Some? {
        given := [Given(h, task.value)];
      }
    case FailTask(h) => it.MarkHostFailed(h);
    case Include(h, ts) => it.AddTasks(h, ts);
    case LoseHost(_) =>
    case Record(_) =>
  }

  class TaskQueueManager {
    var failedHosts: set<HostName>
    var unreachableHosts: set<HostName>

    constructor ()
      ensures failedHosts == {} && unreachableHosts == {}
    {
      failedHosts, unreachableHosts := {}, {};
    }

    method ClearFailedHosts()
      modifies `failedHosts
      ensures failedHosts == {}
    {
      failedHosts := {};
    }

    /**
     Runs one play: a new iterator, the earlier failures marked in it, the table cleared, the
     strategy's steps, which may enter hosts themselves, and the table filled up from the iterator.
    */
    method RunPlay(play: Play, steps: seq<StrategyStep>) returns (given: seq<Given>)
      modifies this
      ensures failedHosts == Recorded(steps) + FailedHosts(FinalStates(play, old(failedHosts), steps))
      ensures unreachableHosts == old(unreachableHosts) + Lost(steps)
      ensures given == AllGiven(Marked(FreshStates(play), old(failedHosts)), play, steps)
      ensures old(failedHosts) <= failedHosts && old(unreachableHosts) <= unreachableHosts
      ensures forall g :: g in given ==> g.host !in old(failedHosts)
    {
      hide PlayIterator.Valid, SetFailed, CheckFailed, Initial, AfterStep, GivenBy, EnvOf, StartStates;
      var it := new PlayIterator(play.blocks, play.handlers, play.batch, NO_HOST_FACTS, None);
      MarkEarlierFailures(it, failedHosts);
      NoteEarlierUnreachable(it, unreachableHosts);
      ClearFailedHosts();
      ghost var marked := it.States;
      given := [];
      for i := 0 to |steps|
        invariant it.Valid() && fresh(it) && fresh(it.Repr)
        invariant it.blocks == play.blocks && it.handlers == play.handlers
        invariant failedHosts == Recorded(steps[..i])
        invariant unreachableHosts == old(unreachableHosts) + Lost(steps[..i])
        invariant it.States == AfterSteps(marked, play, steps[..i])
        invariant given == AllGiven(marked, play, steps[..i])
      {
        assert steps[..i + 1][..i] == steps[..i];
        LostGrows(steps, i);
        var now := ExecuteStep(it, play, steps[i]);
        given := given + now;
        if steps[i].LoseHost? {
          unreachableHosts := unreachableHosts + {steps[i].host};
        }
        if steps[i].Record? {
          failedHosts := failedHosts + {steps[i].host};
        }
      }
      assert steps[..|steps|] == steps;
      var fromIterator := it.GetFailedHosts();
      failedHosts := failedHosts + fromIterator;
      forall h | h in old(failedHosts)
        ensures h in failedHosts && forall g :: g in given ==> g.host != h
      {
        CarriedOver(play, old(failedHosts), steps, h);
      }
    }
  }

  method MarkEarlierFailures(it: PlayIterator, failed: set<HostName>)
    requires it.Valid()
    modifies it`hostStates, it`States, it`Repr, it`removedHosts
    ensures it.Valid() && fresh(it.Repr - old(it.Repr))
    ensures it.States == Marked(old(it.States), failed)
  {
    hide PlayIterator.Valid, SetFailed, Initial;
    var todo := failed;
    while todo != {}
      invariant it.Valid() && fresh(it.Repr - old(it.Repr))
      invariant todo <= failed
      invariant it.States == Marked(old(it.States), failed - todo)
      decreases todo
    {
      var h :| h in todo;
      ghost var done := failed - todo;
      it.MarkHostFailed(h);
      todo := todo - {h};
      MarkOneMore(old(it.States), done, h);
      assert failed - todo == done + {h};
    }
  }

  /** Unreachable hosts are put on the play's list of removed hosts; their states stay. */
  method NoteEarlierUnreachable(it: PlayIterator, unreachable: set<HostName>)
    requires it.Valid()
    modifies it`removedHosts
    ensures it.Valid()
    ensures forall h :: h in it.removedHosts <==> h in old(it.removedHosts) || h in unreachable
  {
    hide PlayIterator.Holds;
    var todo := unreachable;
    while todo != {}
      invariant it.Valid() && todo <= unreachable
      invariant forall h :: h in it.removedHosts <==> h in old(it.removedHosts) || h in unreachable - todo
      decreases todo
    {
      var h :| h in todo;
      it.NoteRemoved(h);
      todo := todo - {h};
    }
  }

  lemma {:induction false} MarkOneMore(states: States, done: set<HostName>, h: HostName)
    requires h !in done
    ensures var m := WithStub(Marked(states, done), h);
            m[h := SetFailed(m[h])] == Marked(states, done + {h})
  {
    hide SetFailed, Initial;
    var m := WithStub(Marked(states, done), h);
    assert m[h := SetFailed(m[h])].Keys == Marked(states, done + {h}).Keys;
  }

  lemma {:induction false} LostGrows(steps: seq<StrategyStep>, i: nat)
    requires i < |steps|
    ensures Lost(steps[..i + 1]) == Lost(steps[..i]) + (if steps[i].LoseHost? then {steps[i].host} else {})
    ensures Recorded(steps[..i + 1]) == Recorded(steps[..i]) + (if steps[i].Record? then {steps[i].host} else {})
  {
    assert forall s :: s in steps[..i + 1] <==> s in steps[..i] || s == steps[i];
  }
}
