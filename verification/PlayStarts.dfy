/**
 Starting a play at a task, on the iterator object.  The tasks of a play have an order, in which
 they come as long as nothing fails; what every host of the batch is given is said in terms of
 that order and of the first wanted task in it.
*/
module PlayStarts {
  import opened Basics
  import opened PlaySemantics
  import opened IteratorModel
  import opened IteratorInvariants
  import opened IteratorBound
  import opened IteratorShape
  import opened IteratorRefinement
  import opened RemainingWork
  import opened StartAtTask
  import opened HostStates
  import opened SaneStates
  import opened PlayIterators
  import opened PlayRuns

  /** Position `j` is that of the first wanted task, or the end if there is none. */
  predicate FirstAt(order: Log, wanted: set<TaskId>, j: nat) {
    && j <= |order|
    && (forall i :: 0 <= i < j ==> order[i] !in wanted)
    && (j < |order| ==> order[j] in wanted)
  }

  /** The tasks a host is still given if nothing fails. */
  function Rest(s: State, env: Env): Log
    requires Ok(s)
  {
    Drive(s, env, [], NEVER).log
  }

  lemma {:induction false} RestUnfold(s: State, env: Env)
    requires Ok(s)
    ensures var r := Next(s, env);
            Ok(r.state) && Rest(s, env) == if r.task.None? then [] else [r.task.value] + Rest(r.state, env)
  {
    hide Ok, Next, CheckFailed, Ahead;
    var r := Next(s, env);
    NextOk(s, env);
    if r.task.Some? {
      NextUses(s, env);
      DriveShift(r.state, env, [] + [r.task.value]);
    }
  }

  // ---------------------------------------------------------------- where the search ends

  /** The search stops before the first wanted task in the order, or at the end of the order. */
  lemma {:induction false} SeekStops(s: State, env: Env, wanted: set<TaskId>, j: nat)
    requires Sought(s) && FirstAt(Rest(s, env), wanted, j)
    ensures var f := Seek(s, env, wanted);
            && Ok(f.state) && Rest(f.state, env) == Rest(s, env)[j..]
            && (f.matched <==> j < |Rest(s, env)|)
            && (j == 0 ==> f.state == s)
    decreases Ahead(s)
  {
    hide Ok, Next, Ahead, CheckFailed, Shaped, Smooth, Rest;
    var r := Next(s, env);
    NextOk(s, env);
    NextUses(s, env);
    RestUnfold(s, env);
    assert Rest(s, env)[0..] == Rest(s, env);
    if r.task.Some? {
      LiveUnfinished(r.state);
      assert Rest(s, env)[0] == r.task.value;
      if r.task.value !in wanted {
        NextSmooth(s, env);
        NextShaped(s, env);
        SmoothNotRescue(r.state);
        LaterFirst(r.task.value, Rest(r.state, env), wanted, j);
        SeekStops(r.state, env, wanted, j - 1);
      }
    }
  }

  lemma {:induction false} LaterFirst(id: TaskId, order: Log, wanted: set<TaskId>, j: nat)
    requires FirstAt([id] + order, wanted, j) && id !in wanted
    ensures j > 0 && FirstAt(order, wanted, j - 1) && ([id] + order)[j..] == order[j - 1..]
  {
    assert forall i :: 0 <= i < |order| ==> order[i] == ([id] + order)[i + 1];
  }

  // ---------------------------------------------------------------- fact gathering on the way

  /** A cursor that was given a task: it waits for facts, or is past the setup block. */
  predicate OnTheWay(s: State, env: Env) {
    if s.run == SETUP then s.pendingSetup && SetupTask(env).Some? else !s.pendingSetup
  }

  predicate PastSetup(s: State) {
    s.run != SETUP ==> !s.pendingSetup
  }

  lemma {:induction false} StepPastSetup(s: State, env: Env, a: Option<Turn>)
    requires PastSetup(s) && InRange(s) && s.run != COMPLETE
    ensures PastSetup(Step(s, env, a).state)
    ensures Step(s, env, a).state.run == SETUP ==> InRange(Step(s, env, a).state)
  {
    hide CheckFailed, FailHere, Leave, WithChild, Advance, Section, Position;
    if InSection(s) {
      var e := Entered(s);
      assert InSection(e) && InRange(e) && !e.pendingSetup;
      if a.Some? {
        KeepsPending(e, None);
        KeepsPending(e, Some(a.value.state));
        KeepsPending(WithChild(e, None), None);
      } else {
        KeepsPending(e, None);
        if Position(e) < |Section(e)| && Section(e)[Position(e)].Nested? {
          KeepsPending(Advance(e), Some(Child(Section(e)[Position(e)].body)));
        }
      }
    }
  }

  lemma {:induction false} KeepsPending(s: State, c: Option<State>)
    requires InSection(s) && InRange(s) && !s.pendingSetup
    ensures !FailHere(s).pendingSetup && !Leave(s).pendingSetup && FailHere(s).run != SETUP && Leave(s).run != SETUP
    ensures !WithChild(s, c).pendingSetup && InSection(WithChild(s, c)) && InRange(WithChild(s, c))
    ensures !Advance(s).pendingSetup && InSection(Advance(s)) && InRange(Advance(s))
  {
    hide CheckFailed;
  }

  lemma {:induction false} NextPastSetup(s: State, env: Env)
    requires PastSetup(s) && (s.run == SETUP ==> InRange(s))
    ensures PastSetup(Next(s, env).state)
    decreases Size(s, 1)
  {
    hide Step, Size;
    if InRange(s) && s.run != COMPLETE {
      NextUnfold(s, env);
      var a := Answer(s, env);
      StepPastSetup(s, env, a);
      if Step(s, env, a).task.None? {
        StepShrinks(s, env, a, 1);
        NextPastSetup(Step(s, env, a).state, env);
      }
    }
  }

  /** What the search leaves behind once it has moved. */
  lemma {:induction false} NextOnTheWay(s: State, env: Env)
    requires Ok(s) && (s.run == SETUP ==> InRange(s))
    requires (s.run == SETUP && !s.pendingSetup) || OnTheWay(s, env)
    ensures Next(s, env).task.Some? ==> OnTheWay(Next(s, env).state, env)
  {
    hide Ok, CheckFailed, Resume, Start, Size;
    NextPastSetup(s, env);
    if s.run == SETUP {
      if s.pendingSetup {
        SetupMovesOn(s, env);
      } else {
        NextUnfold(s, env);
        StepOk(s, env, None);
        if SetupTask(env).None? {
          SetupMovesOn(StepSetup(s, env).state, env);
        }
      }
    } else {
      NextKeepsSetup(s, env);
    }
  }

  lemma {:induction false} SeekOnTheWay(s: State, env: Env, wanted: set<TaskId>)
    requires Sought(s) && AtSetupBlock(s, env)
    requires (s.run == SETUP && !s.pendingSetup) || OnTheWay(s, env)
    ensures var t := Seek(s, env, wanted).state; t == s || OnTheWay(t, env)
    decreases Ahead(s)
  {
    hide Ok, Next, Ahead, CheckFailed, Smooth, Shaped, OnTheWay;
    var r := Next(s, env);
    NextOk(s, env);
    NextUses(s, env);
    NextSmooth(s, env);
    NextShaped(s, env);
    NextKeepsSetup(s, env);
    NextOnTheWay(s, env);
    if r.task.Some? && r.task.value !in wanted {
      LiveUnfinished(r.state);
      SmoothNotRescue(r.state);
      SeekOnTheWay(r.state, env, wanted);
    }
  }

  // ---------------------------------------------------------------- what a host is given

  /** What comes before the order from position `j` on: facts, if they are wanted or nothing was passed over. */
  function Gathered(setup: Option<TaskId>, gather: bool, j: nat): Log {
    if setup.Some? && (gather || j == 0) then [setup.value] else []
  }

  /** A host that was sent back to setup is given the order from its first wanted task on, after fact gathering. */
  lemma {:induction false} RestartedOrder(blocks: seq<Block>, env: Env, wanted: set<TaskId>, j: nat)
    requires blocks != [] && SetupBlock(blocks[0], env)
    requires Ok(Initial(blocks)) && FirstAt(Rest(Initial(blocks), env), wanted, j)
    ensures var t := Seek(Initial(blocks), env, wanted).state;
            && Ok(Restart(t))
            && Rest(Restart(t), env) == Gathered(env.setup, env.gather, j) + Rest(Initial(blocks), env)[j..]
  {
    hide Ok, Rest, Seek, Restart, Resumed, Initial;
    var s0 := Initial(blocks);
    InitialSought(blocks);
    SeekFound(s0, env, wanted);
    SeekStops(s0, env, wanted, j);
    SeekStays(s0, env, wanted);
    FreshSetup(blocks);
    SeekOnTheWay(s0, env, wanted);
    var t := Seek(s0, env, wanted).state;
    RestartOk(t);
    AgainThenRest(t, env);
  }

  lemma {:induction false} FreshSetup(blocks: seq<Block>)
    ensures Initial(blocks).run == SETUP && !Initial(blocks).pendingSetup
  {
  }

  lemma {:induction false} AgainThenRest(s: State, env: Env)
    requires Sought(s) && AtSetupBlock(s, env) && !s.didStartAt
    ensures Ok(Restart(s)) && Ok(Resumed(s)) && Ok(s)
    ensures Rest(Restart(s), env) == Again(s, env) + Rest(Resumed(s), env)
    ensures Rest(s, env) ==
            (if s.run == SETUP && !s.pendingSetup && SetupTask(env).Some? then [SetupTask(env).value] else [])
            + Rest(Resumed(s), env)
  {
    hide Ok, Smooth, Shaped, Restart, Resumed, Drive, Meaning;
    RestartOk(s);
    ResumedOk(s);
    SetupThenRest(s, env);
    assert Quiet(NEVER, Again(s, env));
    RestartMeaning(s, env, NEVER);
    DriveMeaning(Restart(s), env, [], NEVER);
    DriveMeaning(Resumed(s), env, Again(s, env), NEVER);
    DriveShift(Resumed(s), env, Again(s, env));
  }

  lemma {:induction false} SetupThenRest(s: State, env: Env)
    requires Sought(s) && AtSetupBlock(s, env) && !s.didStartAt && Ok(Resumed(s))
    ensures Rest(s, env) ==
            (if s.run == SETUP && !s.pendingSetup && SetupTask(env).Some? then [SetupTask(env).value] else [])
            + Rest(Resumed(s), env)
  {
    hide Ok, Smooth, Shaped, Drive, Meaning;
    var first := if s.run == SETUP && !s.pendingSetup && SetupTask(env).Some? then [SetupTask(env).value] else [];
    if s.run == SETUP {
      SetupMeans(s, env, first);
      DriveMeaning(s, env, [], NEVER);
      DriveMeaning(Resumed(s), env, first, NEVER);
      DriveShift(Resumed(s), env, first);
    }
  }

  lemma {:induction false} SetupMeans(s: State, env: Env, first: Log)
    requires Sought(s) && s.run == SETUP && InRange(s) && !s.didStartAt
    requires first == if !s.pendingSetup && SetupTask(env).Some? then [SetupTask(env).value] else []
    ensures Meaning(s, [], NEVER, SetupTask(env)) == Meaning(Resumed(s), first, NEVER, SetupTask(env))
  {
    hide Ok, Smooth, Shaped, RunBlocks;
    SoughtFacts(s);
    var r := Resumed(s);
    assert r.curBlock == s.curBlock + 1 && r.blocks == s.blocks;
    FreshBlockMeaning(r, first, NEVER, SetupTask(env));
    assert s.blocks[r.curBlock..] == Later(s);
    assert [] + first == first;
    assert StartedMeaning(s, first, NEVER) == RunBlocks(Later(s), first, NEVER);
    assert MeaningAs(s, SETUP, [], NEVER, SetupTask(env)) == StartedMeaning(s, first, NEVER);
  }

  /** A host whose search found nothing is at its end. */
  lemma {:induction false} NothingLeft(s: State, env: Env, fails: Oracle)
    requires Ok(s) && Next(s, env).state.run == COMPLETE
    ensures Drive(s, env, [], fails).log == []
  {
    hide Ok, Next, CheckFailed;
    NextOk(s, env);
    if Next(s, env).task.Some? {
      LiveUnfinished(Next(s, env).state);
    }
  }

  // ---------------------------------------------------------------- the hosts of a batch

  /** A play to be started at a task, for the hosts of a batch. */
  datatype StartedPlay = StartedPlay(blocks: seq<Block>, handlers: seq<TaskId>, facts: HostName -> HostFacts,
                                     batch: seq<HostName>, wanted: set<TaskId>)

  function EnvAt(p: StartedPlay, k: nat): Env
    requires k < |p.batch|
  {
    EnvOf(p.blocks, p.handlers, p.facts(p.batch[k]))
  }

  /** Where the search of host `k` ends. */
  function Searched(p: StartedPlay, k: nat): Found
    requires k < |p.batch|
  {
    InitialOk(p.blocks);
    Seek(Initial(p.blocks), EnvAt(p, k), p.wanted)
  }

  /** One of the first `n` hosts found a wanted task. */
  predicate FoundBy(p: StartedPlay, n: nat)
    requires n <= |p.batch|
  {
    exists i :: 0 <= i < n && Searched(p, i).matched
  }

  lemma {:induction false} FoundOneMore(p: StartedPlay, n: nat)
    requires n < |p.batch|
    ensures FoundBy(p, n + 1) <==> FoundBy(p, n) || Searched(p, n).matched
  {
    hide Searched;
  }

  lemma {:induction false} OneHostMore(p: StartedPlay, n: nat)
    requires n < |p.batch|
    ensures var earlier := StartStates(p.blocks, p.handlers, p.facts, p.batch[..n], Some(p.wanted));
            var m := earlier.matched || Searched(p, n).matched;
            StartStates(p.blocks, p.handlers, p.facts, p.batch[..n + 1], Some(p.wanted)) ==
            Started(earlier.states[p.batch[n] := if m then Restart(Searched(p, n).state) else Searched(p, n).state], m)
  {
    hide Seek, Initial, EnvOf, Restart;
    assert p.batch[..n + 1][..n] == p.batch[..n] && p.batch[..n + 1][n] == p.batch[n];
  }

  /** The constructed states: from the first host that found a wanted task on, every host is sent back to setup. */
  lemma {:induction false} StartStatesAre(p: StartedPlay, n: nat)
    requires n <= |p.batch| && Distinct(p.batch)
    ensures var r := StartStates(p.blocks, p.handlers, p.facts, p.batch[..n], Some(p.wanted));
            && (r.matched <==> FoundBy(p, n))
            && (forall k :: 0 <= k < n ==>
                  && p.batch[k] in r.states
                  && r.states[p.batch[k]] ==
                     if FoundBy(p, k + 1) then Restart(Searched(p, k).state) else Searched(p, k).state)
    decreases n
  {
    hide Searched, FoundBy, Restart, StartStates;
    if n == 0 {
      NobodyYet(p);
    } else {
      StartStatesAre(p, n - 1);
      OneHostMore(p, n - 1);
      FoundOneMore(p, n - 1);
    }
  }

  lemma {:induction false} NobodyYet(p: StartedPlay)
    ensures !FoundBy(p, 0)
    ensures !StartStates(p.blocks, p.handlers, p.facts, p.batch[..0], Some(p.wanted)).matched
  {
  }

  // ---------------------------------------------------------------- the promise

  /** The tasks of a play for one host in the order in which they come if nothing fails. */
  function Order(p: StartedPlay, setup: Option<TaskId>, k: nat): Log
    requires k < |p.batch| && p.blocks != []
  {
    RunPlay(if p.facts(p.batch[k]).gather then setup else None, p.blocks[1..], NEVER).log
  }

  /** The first block is the setup block, with the fact-gathering task unless tags filtered it out. */
  predicate SetsUp(p: StartedPlay, setup: Option<TaskId>) {
    p.blocks != [] && p.blocks[0] == Block(if setup.Some? then [Leaf(setup.value)] else [], [], [])
  }

  lemma {:induction false} EnvSetsUp(p: StartedPlay, setup: Option<TaskId>, k: nat)
    requires SetsUp(p, setup) && k < |p.batch|
    ensures var env := EnvAt(p, k);
            && env.setup == setup && env.gather == p.facts(p.batch[k]).gather && SetupBlock(p.blocks[0], env)
            && Ok(Initial(p.blocks)) && Order(p, setup, k) == Rest(Initial(p.blocks), env)
  {
    hide Ok, Drive, RunPlay, Initial;
    PlayRefinement(p.blocks, EnvAt(p, k), NEVER);
  }

  /** A host finds a wanted task exactly when there is one in its order. */
  lemma {:induction false} FoundExactly(p: StartedPlay, setup: Option<TaskId>, k: nat)
    requires SetsUp(p, setup) && k < |p.batch|
    ensures Searched(p, k).matched <==> exists id :: id in Order(p, setup, k) && id in p.wanted
  {
    hide Ok, Rest, Seek, Initial, EnvAt, Order;
    EnvSetsUp(p, setup, k);
    InitialSought(p.blocks);
    var order := Order(p, setup, k);
    var j := First(order, p.wanted);
    SeekStops(Initial(p.blocks), EnvAt(p, k), p.wanted, j);
    if j < |order| {
      assert order[j] in order && order[j] in p.wanted;
    }
  }

  lemma {:induction false} First(order: Log, wanted: set<TaskId>) returns (j: nat)
    ensures FirstAt(order, wanted, j)
  {
    j := 0;
    while j < |order| && order[j] !in wanted
      invariant j <= |order| && forall i :: 0 <= i < j ==> order[i] !in wanted
    {
      j := j + 1;
    }
  }

  /** The fact-gathering task does not fail, whether it is run once or twice. */
  predicate GathersWell(setup: Option<TaskId>, fails: Oracle) {
    setup.Some? ==> !fails([setup.value]) && !fails([setup.value, setup.value])
  }

  /** Some of the first hosts, up to host `k`, has a wanted task in its order. */
  predicate WantedBy(p: StartedPlay, setup: Option<TaskId>, k: nat)
    requires k < |p.batch| && p.blocks != []
  {
    exists i, id :: 0 <= i <= k && id in Order(p, setup, i) && id in p.wanted
  }

  lemma {:induction false} FoundIsWanted(p: StartedPlay, setup: Option<TaskId>, k: nat)
    requires SetsUp(p, setup) && k < |p.batch|
    ensures FoundBy(p, k + 1) <==> WantedBy(p, setup, k)
  {
    hide Searched, Order;
    forall i | 0 <= i <= k
      ensures Searched(p, i).matched <==> exists id :: id in Order(p, setup, i) && id in p.wanted
    {
      FoundExactly(p, setup, i);
    }
  }

  /** What host `k` is given, in terms of its order and its first wanted task in it. */
  lemma {:induction false} HostStarts(p: StartedPlay, setup: Option<TaskId>, k: nat, j: nat, fails: Oracle)
    requires SetsUp(p, setup) && k < |p.batch| && FirstAt(Order(p, setup, k), p.wanted, j)
    ensures var t := Searched(p, k).state;
            var order := Order(p, setup, k);
            && Ok(t) && Settled(t) && Ok(Restart(t)) && Settled(Restart(t))
            && (j == |order| ==> Drive(t, EnvAt(p, k), [], fails).log == [])
            && Drive(Restart(t), EnvAt(p, k), [], NEVER).log
               == Gathered(setup, p.facts(p.batch[k]).gather, j) + order[j..]
            && (j < |order| && GathersWell(setup, fails) ==>
                  exists g: Log :: |g| <= 2 && (forall id :: id in g ==> setup == Some(id))
                                   && g + [order[j]] <= Drive(Restart(t), EnvAt(p, k), [], fails).log)
  {
    hide Ok, Drive, Seek, Initial, EnvAt, Restart, Order, RunPlay, Next, Quiet, Before, Again, Settled;
    EnvSetsUp(p, setup, k);
    var env, s0 := EnvAt(p, k), Initial(p.blocks);
    InitialSought(p.blocks);
    SeekFound(s0, env, p.wanted);
    SeekStops(s0, env, p.wanted, j);
    RestartedOrder(p.blocks, env, p.wanted, j);
    var t := Searched(p, k).state;
    RestartOk(t);
    SoughtSettled(t);
    if j == |Order(p, setup, k)| {
      NothingLeft(t, env, fails);
    } else if GathersWell(setup, fails) {
      RestUnfold(t, env);
      assert Rest(t, env)[0] == Order(p, setup, k)[j];
      StartsAtTheMatch(p.blocks, env, p.wanted, fails);
      assert Quiet(fails, Again(t, env)) by { AgainIsQuiet(t, env, fails); }
    }
  }

  lemma {:induction false} SoughtSettled(s: State)
    requires Sought(s)
    ensures Settled(s)
  {
  }

  lemma {:induction false} AgainIsQuiet(s: State, env: Env, fails: Oracle)
    requires GathersWell(env.setup, fails)
    ensures Quiet(fails, Again(s, env))
  {
    var g := Again(s, env);
    forall n | 0 < n <= |g|
      ensures !fails(g[..n])
    {
      assert n == 1 ==> g[..n] == [env.setup.value];
      assert n == 2 ==> g[..n] == [env.setup.value, env.setup.value];
    }
  }

  /**
   A play started at a task, on the objects, for host `k` of the batch; `j` is the position of its
   first wanted task.  If no host up to it has a wanted task, it is given nothing.  Otherwise, even
   if it has none itself, it goes back to setup: at most fact gathering comes first, and then its
   first wanted task.  If nothing fails, it is given exactly its order from there on.
  */
  method PlayFromTask(p: StartedPlay, ghost setup: Option<TaskId>, k: nat, ghost j: nat, fails: Oracle)
    returns (log: Log)
    requires SetsUp(p, setup) && Distinct(p.batch) && k < |p.batch|
    requires FirstAt(Order(p, setup, k), p.wanted, j)
    ensures !WantedBy(p, setup, k) ==> log == []
    ensures var order := Order(p, setup, k);
            && (WantedBy(p, setup, k) && fails == NEVER ==>
                  log == Gathered(setup, p.facts(p.batch[k]).gather, j) + order[j..])
            && (j < |order| && GathersWell(setup, fails) ==>
                  exists g: Log :: |g| <= 2 && (forall id :: id in g ==> setup == Some(id)) && g + [order[j]] <= log)
  {
    hide PlayIterator.Valid, HostState.Valid, Ok, Settled, Drive, Next, Sane, Parked, EnvOf, Initial, Order, Restart;
    hide StartStates, FoundBy, WantedBy, Searched;
    var host := p.batch[k];
    var it := new PlayIterator(p.blocks, p.handlers, p.batch, p.facts, Some(p.wanted));
    assert p.batch[..|p.batch|] == p.batch;
    StartStatesAre(p, |p.batch|);
    FoundIsWanted(p, setup, k);
    HostStarts(p, setup, k, j, fails);
    WantedInOrder(p, setup, k, j);
    log := DriveHost(it, host, p.facts(host), fails);
  }

  lemma {:induction false} WantedInOrder(p: StartedPlay, setup: Option<TaskId>, k: nat, j: nat)
    requires SetsUp(p, setup) && k < |p.batch| && FirstAt(Order(p, setup, k), p.wanted, j)
    ensures j < |Order(p, setup, k)| ==> WantedBy(p, setup, k)
  {
    hide Order;
    if j < |Order(p, setup, k)| {
      assert Order(p, setup, k)[j] in Order(p, setup, k);
    }
  }
}
