/**
 Starting a play at a given task: the iterator is first run forward, without executing
 anything, to just before the first task that matches, and then sent back to setup.
*/
module StartAtTask {
  import opened Basics
  import opened PlaySemantics
  import opened IteratorModel
  import opened IteratorInvariants
  import opened IteratorBound
  import opened IteratorShape
  import opened IteratorRefinement

  /** Where the search for one host ends, and whether its own search found a match. */
  datatype Found = Found(state: State, matched: bool)

  /** The fast-forward loop: peek, stop on completion or on a match, and otherwise move on. */
  function Seek(s: State, env: Env, wanted: set<TaskId>): Found
    requires Ok(s)
    decreases Ahead(s)
  {
    var r := Next(s, env);
    NextOk(s, env);
    NextUses(s, env);
    if r.state.run == COMPLETE then Found(s, false)
    else if r.task.Some? && r.task.value in wanted then Found(s, true)
    else if r.task.None? then Found(s, false)  // never reached: no task means complete
    else Seek(r.state, env, wanted)
  }

  /** The host is sent back to setup, to go on from where the search ended. */
  function Restart(s: State): State {
    s.(didStartAt := true, run := SETUP)
  }

  // ---------------------------------------------------------------- the search meets no failure

  /** A cursor that no failure has ever touched. */
  predicate Smooth(s: State)
    decreases s
  {
    && s.fail == NO_FAILURE && !s.didRescue && s.run != RESCUE
    && (s.run == ALWAYS && InRange(s) ==> s.curTask >= |Here(s).block|)
    && (ActiveChild(s).Some? ==> Smooth(ActiveChild(s).value))
  }

  lemma {:induction false} SmoothUnfailed(s: State)
    requires Smooth(s)
    ensures !CheckFailed(s)
    decreases s
  {
    if ActiveChild(s).Some? {
      SmoothUnfailed(ActiveChild(s).value);
    }
  }

  lemma {:induction false} WithChildSmooth(s: State, c: Option<State>)
    requires Smooth(s) && InSection(s) && (c.Some? ==> Smooth(c.value))
    ensures Smooth(WithChild(s, c))
  {
  }

  lemma {:induction false} ResumeSmooth(s: State, a: Turn)
    requires Smooth(s) && InSection(s) && Smooth(a.state)
    ensures Smooth(Resume(s, a).state)
  {
    hide CheckFailed, FailHere, WithChild, Smooth;
    SmoothUnfailed(a.state);
    WithChildSmooth(s, None);
    WithChildSmooth(s, Some(a.state));
  }

  lemma {:induction false} LeaveSmooth(s: State)
    requires Smooth(s) && InSection(s) && InRange(s) && ActiveChild(s).None? && !CheckFailed(s)
    requires Abandoned(s) || Position(s) >= |Section(s)|
    requires s.alwaysChild.Some? ==> Smooth(s.alwaysChild.value)
    ensures Smooth(Leave(s))
  {
    hide CheckFailed;
  }

  lemma {:induction false} AdvanceSmooth(s: State)
    requires Smooth(s) && InSection(s) && InRange(s) && ActiveChild(s).None?
    ensures Smooth(Advance(s)) && InSection(Advance(s))
  {
  }

  lemma {:induction false} ChildSmooth(b: Block)
    ensures Smooth(Child(b))
  {
  }

  lemma {:induction false} StartSmooth(s: State)
    requires Smooth(s) && InSection(s) && InRange(s) && ActiveChild(s).None?
    requires s.alwaysChild.Some? ==> Smooth(s.alwaysChild.value)
    ensures Smooth(Start(s).state)
  {
    hide CheckFailed, WithChild, Smooth, Leave, Advance, Section, Position;
    SmoothUnfailed(s);
    if Abandoned(s) || Position(s) >= |Section(s)| {
      LeaveSmooth(s);
    } else {
      AdvanceSmooth(s);
      if Section(s)[Position(s)].Nested? {
        var c := Child(Section(s)[Position(s)].body);
        ChildSmooth(Section(s)[Position(s)].body);
        WithChildSmooth(Advance(s), Some(c));
      }
    }
  }

  lemma {:induction false} StepSmooth(s: State, env: Env, a: Option<Turn>)
    requires Ok(s) && Smooth(s) && Shaped(s) && InRange(s) && s.run != COMPLETE
    requires a.Some? <==> ActiveChild(s).Some?
    requires a.Some? ==> Smooth(a.value.state)
    ensures Smooth(Step(s, env, a).state)
  {
    hide CheckFailed, Resume, Start, Ok, Shaped, Entered, Smooth;
    if s.run == SETUP {
      SetupSmooth(s, env);
    } else {
      OkNotHandlers(s);
      EnteredSmooth(s);
      if a.Some? {
        ResumeSmooth(Entered(s), a.value);
      } else {
        StartSmooth(Entered(s));
      }
    }
  }

  lemma {:induction false} SetupSmooth(s: State, env: Env)
    requires Smooth(s) && Shaped(s) && s.run == SETUP
    ensures Smooth(StepSetup(s, env).state)
  {
  }

  lemma {:induction false} EnteredSmooth(s: State)
    requires Shaped(s) && Smooth(s) && InSection(s) && InRange(s)
    ensures var t := Entered(s);
            Smooth(t) && InSection(t) && InRange(t) && ActiveChild(t) == ActiveChild(s)
              && (ActiveChild(s).None? ==> t.alwaysChild.None?)
  {
  }

  lemma {:induction false} CompleteSmooth(s: State)
    requires Smooth(s)
    ensures Smooth(s.(run := COMPLETE))
  {
  }

  /** As long as no failure is reported, no cursor is ever touched by one. */
  lemma {:induction false} NextSmooth(s: State, env: Env)
    requires Ok(s) && Smooth(s) && Shaped(s)
    ensures Smooth(Next(s, env).state)
    decreases Size(s, 1)
  {
    hide Ok, Step, Size, CheckFailed, Shaped, Smooth, ActiveChild;
    if !InRange(s) {
      CompleteSmooth(s);
    } else if s.run != COMPLETE {
      NextUnfold(s, env);
      var a := Answer(s, env);
      AnswersOk(s, env);
      if ActiveChild(s).Some? {
        ActiveChildOk(s);
        ActiveChildShrinks(s, 1);
        ShapedLevel(s);
        SmoothChild(s);
        NextSmooth(ActiveChild(s).value, env);
        NextShaped(ActiveChild(s).value, env);
      }
      StepSmooth(s, env, a);
      if Step(s, env, a).task.None? {
        StepOk(s, env, a);
        StepShaped(s, env, a);
        StepShrinks(s, env, a, 1);
        NextSmooth(Step(s, env, a).state, env);
      }
    }
  }

  lemma {:induction false} SmoothChild(s: State)
    requires Smooth(s) && ActiveChild(s).Some?
    ensures Smooth(ActiveChild(s).value)
  {
  }

  // ---------------------------------------------------------------- after a match

  /** What the search keeps about the stored state of its host. */
  predicate Sought(s: State) {
    Ok(s) && Smooth(s) && Shaped(s) && (s.run == SETUP || (InSection(s) && InRange(s)))
  }

  lemma {:induction false} SeekFound(s: State, env: Env, wanted: set<TaskId>)
    requires Sought(s)
    ensures var f := Seek(s, env, wanted);
            && Sought(f.state)
            && (f.matched ==> Next(f.state, env).task.Some? && Next(f.state, env).task.value in wanted)
            && (!f.matched ==> Next(f.state, env).state.run == COMPLETE)
    decreases Ahead(s)
  {
    hide Ok, Next, Ahead, CheckFailed, Shaped, Smooth;
    var r := Next(s, env);
    NextOk(s, env);
    NextUses(s, env);
    NextSmooth(s, env);
    NextShaped(s, env);
    if r.task.Some? && r.task.value !in wanted {
      LiveUnfinished(r.state);
      SmoothNotRescue(r.state);
      SeekFound(r.state, env, wanted);
    }
  }

  lemma {:induction false} LiveUnfinished(s: State)
    requires Live(s)
    ensures s.run != COMPLETE && (s.run == SETUP || InRange(s))
  {
  }

  lemma {:induction false} SmoothNotRescue(s: State)
    requires Smooth(s)
    ensures s.run != RESCUE
  {
  }

  lemma {:induction false} RestartOk(s: State)
    requires Sought(s)
    ensures Ok(Restart(s)) && Settled(Restart(s))
  {
    SoughtFacts(s);
    assert ChildrenOk(Restart(s)) by { SameKidsOk(s, Restart(s)); }
  }

  lemma {:induction false} SameKidsOk(s: State, t: State)
    requires Ok(s) && t.tasksChild == s.tasksChild && t.rescueChild == s.rescueChild && t.alwaysChild == s.alwaysChild
    ensures ChildrenOk(t)
  {
    hide KidOk;
    assert ChildrenOk(s);
  }

  /** The stored setup block of the play, with the one fact-gathering task unless tags filtered it out. */
  predicate SetupBlock(b: Block, env: Env) {
    b == Block(if env.setup.Some? then [Leaf(env.setup.value)] else [], [], [])
  }

  /** A host that is still in setup stands at the setup block. */
  predicate AtSetupBlock(s: State, env: Env) {
    s.run == SETUP ==> InRange(s) && SetupBlock(Here(s), env)
  }

  /**
   What a restarted host is given before it gets to where its search ended: facts are gathered
   once more if they are wanted, and the setup block is run as an ordinary block if the search
   never left it.
  */
  function Again(s: State, env: Env): Log {
    (if s.pendingSetup || SetupTask(env).None? then [] else [SetupTask(env).value])
    + (if s.run == SETUP && env.setup.Some? then [env.setup.value] else [])
  }

  /** Where a restarted host goes on once that is done. */
  function Resumed(s: State): State {
    if s.run == SETUP then NextBlock(s.(pendingSetup := false)) else s
  }

  /** The oracle fails none of the first `n` tasks of `log`. */
  predicate Quiet(fails: Oracle, log: Log) {
    forall n :: 0 < n <= |log| ==> !fails(log[..n])
  }

  lemma {:induction false} StartedAgain(s: State, env: Env, log: Log, fails: Oracle, setup: Option<TaskId>)
    requires Sought(s) && AtSetupBlock(s, env)
    requires s.run == SETUP && env.setup.Some? ==> !fails(log + [env.setup.value])
    ensures StartedMeaning(Restart(s), log, fails) ==
            Meaning(Resumed(s), if s.run == SETUP && env.setup.Some? then log + [env.setup.value] else log,
                    fails, setup)
  {
    hide Ok, Smooth, Shaped, CheckFailed, Meaning, AlwaysMeaning, RescueMeaning, SectionFailed;
    var r := Restart(s);
    SoughtFacts(s);
    if s.run == SETUP {
      GatherAgain(s, env, log, fails);
      FreshBlockMeaning(Resumed(s), if env.setup.Some? then log + [env.setup.value] else log, fails, setup);
    } else if s.run == TASKS {
      var f := Finish(s.tasksChild, From(Here(s).block, s.curTask), log, fails);
      SectionEndsAgree(s, r, TASKS, f.log, fails);
      InSectionMeaning(s, log, fails, setup);
    } else {
      assert From(Here(s).block, s.curTask) == [];
      NoKidFinish([], log, fails);
      NoTasksRun(log, fails);
      assert SectionMeaning(r, TASKS, log, fails) == AlwaysMeaning(r, log, false, fails);
      SameAlways(s, r, log, fails);
      SectionEndsAgree(s, r, RESCUE, log, fails);
      InSectionMeaning(s, log, fails, setup);
      AlwaysSection(s, log, fails);
    }
  }

  lemma {:induction false} NoTasksRun(log: Log, fails: Oracle)
    ensures RunTasks([], log, fails) == Outcome(log, false)
  {
  }

  lemma {:induction false} SameAlways(s: State, t: State, log: Log, fails: Oracle)
    requires InRange(s) && SameBeyond(s, t, RESCUE)
    ensures AlwaysMeaning(t, log, false, fails) == AlwaysMeaning(s, log, false, fails)
  {
    hide Finish;
  }

  lemma {:induction false} SoughtFacts(s: State)
    requires Sought(s)
    ensures s.fail == NO_FAILURE && !s.didRescue && (s.run == SETUP || s.run == TASKS || s.run == ALWAYS)
    ensures s.run == ALWAYS ==> s.curTask >= |Here(s).block| && s.tasksChild.None?
    ensures s.run == SETUP ==> s.curTask == s.curRescue == s.curAlways == 0 && s.tasksChild.None? && s.alwaysChild.None?
  {
  }

  /** Running the setup block as an ordinary block. */
  lemma {:induction false} GatherAgain(s: State, env: Env, log: Log, fails: Oracle)
    requires InRange(s) && SetupBlock(Here(s), env)
    requires s.curTask == s.curAlways == 0 && s.tasksChild.None? && s.alwaysChild.None?
    requires env.setup.Some? ==> !fails(log + [env.setup.value])
    ensures StartedMeaning(Restart(s), log, fails) ==
            RunBlocks(Later(s), if env.setup.Some? then log + [env.setup.value] else log, fails)
  {
    var r := Restart(s);
    var ts := Here(s).block;
    var l := if env.setup.Some? then log + [env.setup.value] else log;
    assert From(ts, 0) == ts;
    assert RunTasks(ts, log, fails) == Outcome(l, false) by {
      if env.setup.Some? {
        assert ts[1..] == [];
        assert RunTask(ts[0], log, fails) == Outcome(l, false);
      }
    }
    NoKidFinish(ts, log, fails);
    NoKidFinish([], l, fails);
    assert AlwaysMeaning(r, l, false, fails) == RunBlocks(Later(s), l, fails);
    assert SectionMeaning(r, TASKS, log, fails) == AlwaysMeaning(r, l, false, fails);
  }

  /** After the repeated fact gathering, a restarted host has exactly the work of the state its search ended in. */
  lemma {:induction false} RestartMeaning(s: State, env: Env, fails: Oracle)
    requires Sought(s) && AtSetupBlock(s, env) && Quiet(fails, Again(s, env))
    ensures Meaning(Restart(s), [], fails, SetupTask(env)) == Meaning(Resumed(s), Again(s, env), fails, SetupTask(env))
  {
    hide Ok, Smooth, Shaped, CheckFailed, Finish, StartedMeaning, Resumed;
    var r := Restart(s);
    var setup := SetupTask(env);
    var g := Again(s, env);
    var first := if s.pendingSetup || setup.None? then [] else [setup.value];
    assert InRange(r);
    if first != [] {
      assert g[..1] == [] + [setup.value] == first;
    }
    if s.run == SETUP && env.setup.Some? {
      assert g[..|g|] == first + [env.setup.value] == g;
    } else {
      assert g == first;
    }
    StartedAgain(s, env, first, fails, setup);
    assert MeaningAs(r, SETUP, [], fails, setup) == StartedMeaning(r, first, fails);
  }

  lemma {:induction false} ResumedOk(s: State)
    requires Sought(s) && (s.run == SETUP ==> InRange(s))
    ensures Ok(Resumed(s))
  {
    hide Smooth, Shaped, CheckFailed;
    SoughtFacts(s);
    if s.run == SETUP {
      NoKidsOk(Resumed(s));
    }
  }

  lemma {:induction false} NoKidsOk(s: State)
    requires s.tasksChild.None? && s.rescueChild.None? && s.alwaysChild.None?
    ensures ChildrenOk(s)
  {
  }

  /** The search and the resumed host agree on the next task, unless the search stopped at fact gathering itself. */
  lemma {:induction false} ResumedNext(s: State, env: Env)
    requires Sought(s) && (s.run == SETUP ==> InRange(s)) && !s.didStartAt
    requires s.run == SETUP ==> s.pendingSetup || SetupTask(env).None?
    ensures Next(Resumed(s), env).task == Next(s, env).task
  {
    hide Ok, Smooth, Shaped, CheckFailed, Size, NextBlock;
    if s.run == SETUP {
      var p := s.(pendingSetup := true);
      NextUnfold(s, env);
      NextUnfold(p, env);
      assert p.(pendingSetup := false) == s.(pendingSetup := false);
    }
  }

  /** The tasks before the match: none if fact gathering itself matched. */
  function Before(s: State, env: Env): Log {
    if s.run == SETUP && !s.pendingSetup && SetupTask(env).Some? then [] else Again(s, env)
  }

  /**
   The start-at-task promise.  For a host whose own search found a match `m`, whatever the
   nesting of `m`, everything the restarted host is given before `m` is the fact-gathering
   task, at most twice, as long as that does not fail.
  */
  lemma {:induction false} StartsAtTheMatch(blocks: seq<Block>, env: Env, wanted: set<TaskId>, fails: Oracle)
    requires blocks != [] && SetupBlock(blocks[0], env)
    ensures Ok(Initial(blocks))
    ensures var f := Seek(Initial(blocks), env, wanted);
            && Ok(Restart(f.state))
            && var g := Before(f.state, env);
               |g| <= 2 && (forall id :: id in g ==> env.setup == Some(id))
               && (f.matched && Quiet(fails, Again(f.state, env)) ==>
                     var m := Next(f.state, env).task;
                     m.Some? && m.value in wanted && g + [m.value] <= Drive(Restart(f.state), env, [], fails).log)
  {
    hide Ok, Smooth, Shaped, CheckFailed, Meaning, Next, Restart, Resumed, Initial, Quiet, Seek;
    var s0 := Initial(blocks);
    InitialOk(blocks);
    InitialSought(blocks);
    SeekFound(s0, env, wanted);
    var f := Seek(s0, env, wanted);
    SeekStays(s0, env, wanted);
    var s := f.state;
    RestartOk(s);
    var g := Before(s, env);
    if f.matched && Quiet(fails, Again(s, env)) {
      var m := Next(s, env).task.value;
      assert s.run == SETUP ==> InRange(s);
      if s.run == SETUP && !s.pendingSetup && SetupTask(env).Some? {
        SetupFirst(s, env);
        DriveExtends(Restart(s), env, [], fails);
        assert g + [m] == [] + [m];
      } else {
        ResumedNext(s, env);
        ResumedOk(s);
        RestartMeaning(s, env, fails);
        DriveMeaning(Restart(s), env, [], fails);
        DriveMeaning(Resumed(s), env, g, fails);
        DriveExtends(Resumed(s), env, g, fails);
      }
    }
  }

  lemma {:induction false} InitialSought(blocks: seq<Block>)
    ensures Sought(Initial(blocks)) && !Initial(blocks).didStartAt
    ensures Initial(blocks).blocks == blocks && Initial(blocks).run == SETUP && Initial(blocks).curBlock == 0
  {
    InitialOk(blocks);
  }

  lemma {:induction false} SetupFirst(s: State, env: Env)
    requires s.run == SETUP && !s.pendingSetup && SetupTask(env).Some? && InRange(s)
    ensures Next(s, env).task == SetupTask(env) && Next(Restart(s), env).task == SetupTask(env)
  {
    hide Resume, Start, CheckFailed;
    NextUnfold(s, env);
    NextUnfold(Restart(s), env);
  }

  /** A search that is still in setup has not moved from the setup block. */
  lemma {:induction false} SeekStays(s: State, env: Env, wanted: set<TaskId>)
    requires Sought(s) && AtSetupBlock(s, env)
    ensures AtSetupBlock(Seek(s, env, wanted).state, env) && !Seek(s, env, wanted).state.didStartAt
    decreases Ahead(s)
  {
    hide Ok, Next, Ahead, CheckFailed, Smooth;
    var r := Next(s, env);
    NextOk(s, env);
    NextUses(s, env);
    NextSmooth(s, env);
    NextShaped(s, env);
    NextKeepsSetup(s, env);
    if r.task.Some? && r.task.value !in wanted {
      LiveUnfinished(r.state);
      SmoothNotRescue(r.state);
      SeekStays(r.state, env, wanted);
    }
  }

  lemma {:induction false} NextKeepsSetup(s: State, env: Env)
    requires Ok(s)
    ensures Next(s, env).state.run == SETUP ==>
              s.run == SETUP && Next(s, env).state.blocks == s.blocks && Next(s, env).state.curBlock == s.curBlock
  {
    hide Ok, CheckFailed, Resume, Start;
    NextOk(s, env);
    if InRange(s) && s.run == SETUP {
      NextUnfold(s, env);
      var t := StepSetup(s, env);
      StepOk(s, env, None);
      if t.task.None? {
        if !s.pendingSetup {
          NextUnfold(t.state, env);
          SetupMovesOn(t.state, env);
        } else {
          SetupMovesOn(s, env);
        }
      }
    }
  }

  lemma {:induction false} SetupMovesOn(s: State, env: Env)
    requires s.run == SETUP && s.pendingSetup && InRange(s) && Ok(s)
    ensures Next(s, env).state.run != SETUP
  {
    hide CheckFailed, KidOk;
    NextUnfold(s, env);
    StepOk(s, env, None);
    NextOk(StepSetup(s, env).state, env);
  }
}
