/**
 What the failure verdict of a host is worth while the play is still running.
*/
module IteratorVerdict {
  import opened Basics
  import opened PlaySemantics
  import opened IteratorModel
  import opened IteratorInvariants
  import opened IteratorRefinement
  import opened IteratorInsertion
  import opened IteratorShape

  /** The host can no longer end the play unfailed. */
  predicate Doomed(s: State)
    decreases s
  {
    match s.run
    case COMPLETE => s.fail != NO_FAILURE
    case ALWAYS => s.fail != NO_FAILURE || (s.alwaysChild.Some? && Doomed(s.alwaysChild.value))
    case RESCUE => s.rescueChild.Some? && Doomed(s.rescueChild.value)
    case TASKS => s.tasksChild.Some? && Doomed(s.tasksChild.value) && InRange(s) && Here(s).rescue == []
    case _ => false
  }

  predicate KidDoomed(s: State) {
    ActiveChild(s).Some? && Doomed(ActiveChild(s).value)
  }

  /** The active path ends in a completed failure that no rescue section above it can take up. */
  predicate DeadEnd(s: State)
    decreases s
  {
    match s.run
    case COMPLETE => s.fail != NO_FAILURE
    case TASKS => s.tasksChild.Some? && DeadEnd(s.tasksChild.value) && InRange(s) && Here(s).rescue == []
    case ALWAYS => s.alwaysChild.Some? && DeadEnd(s.alwaysChild.value)
    case RESCUE => s.rescueChild.Some? && DeadEnd(s.rescueChild.value)
    case _ => false
  }

  /** Some level of the active path cleans up a failed block, and no rescue section above it can take that up. */
  predicate CleaningUp(s: State)
    decreases s
  {
    match s.run
    case ALWAYS => s.fail != NO_FAILURE || (s.alwaysChild.Some? && CleaningUp(s.alwaysChild.value))
    case TASKS => s.tasksChild.Some? && CleaningUp(s.tasksChild.value) && InRange(s) && Here(s).rescue == []
    case RESCUE => s.rescueChild.Some? && CleaningUp(s.rescueChild.value)
    case _ => false
  }

  /** The verdict lags behind: a failed block is being cleaned up, and the path has not come to an end yet. */
  predicate Lags(s: State) {
    CleaningUp(s) && !DeadEnd(s)
  }

  // ---------------------------------------------------------------- doomed means failed in the end

  lemma {:induction false} DoomedSection(s: State)
    requires Ok(s) && InSection(s)
    ensures Doomed(s) <==>
            match s.run
            case ALWAYS => s.fail != NO_FAILURE || KidDoomed(s)
            case RESCUE => KidDoomed(s)
            case TASKS => KidDoomed(s) && InRange(s) && Here(s).rescue == []
  {
    hide Ok;
  }

  lemma {:induction false} DoomedEnds(s: State, log: Log, fails: Oracle, setup: Option<TaskId>)
    requires Ok(s) && Settled(s) && Doomed(s)
    ensures Meaning(s, log, fails, setup).failed
    decreases s
  {
    hide Ok, Meaning, Doomed, RunTasks, From;
    OkNotHandlers(s);
    if s.run == COMPLETE {
      DoomedComplete(s);
      CompleteMeaning(s, log, fails, setup);
    } else if InSection(s) {
      DoomedSection(s);
      if KidDoomed(s) {
        ActiveChildOk(s);
        DoomedEnds(ActiveChild(s).value, log, fails, None);
        var f := Finish(ActiveChild(s), From(Section(s), Position(s)), log, fails);
        FailedKid(ActiveChild(s).value, From(Section(s), Position(s)), log, fails);
        SectionEnded(s, f, log, fails, setup);
        FailedSection(s, f.log, fails);
      } else {
        InSectionMeaning(s, log, fails, setup);
        AlwaysAfterFailure(s, log, fails);
      }
    } else {
      DoomedNotSetup(s);
    }
  }

  lemma {:induction false} FailedSection(s: State, log: Log, fails: Oracle)
    requires InRange(s) && (s.run == TASKS ==> Here(s).rescue == [])
    ensures SectionFailed(s, s.run, log, fails).failed
  {
  }

  lemma {:induction false} FailedKid(c: State, rest: seq<Task>, log: Log, fails: Oracle)
    requires Meaning(c, log, fails, None).failed
    ensures Finish(Some(c), rest, log, fails).failed
  {
  }

  lemma {:induction false} DoomedComplete(s: State)
    requires Ok(s) && s.run == COMPLETE
    ensures Doomed(s) <==> CheckFailed(s)
  {
  }

  lemma {:induction false} DoomedNotSetup(s: State)
    requires s.run == SETUP
    ensures !Doomed(s)
  {
  }

  // ---------------------------------------------------------------- and only doomed hosts must fail

  lemma {:induction false} BlocksNeverFail(bs: seq<Block>, log: Log)
    ensures !RunBlocks(bs, log, NEVER).failed
    decreases |bs|
  {
    if bs != [] {
      RunPlainBlock(bs[0], log);
      BlocksNeverFail(bs[1..], log + PlainBlock(bs[0]));
    }
  }

  lemma {:induction false} AlwaysNeverFails(s: State, log: Log)
    requires InRange(s) && s.alwaysChild.None?
    ensures !AlwaysMeaning(s, log, false, NEVER).failed
  {
    var rest := From(Here(s).always, s.curAlways);
    RunPlain(rest, log);
    NoKidFinish(rest, log, NEVER);
    BlocksNeverFail(Later(s), log + Plain(rest));
  }

  lemma {:induction false} RescueNeverFails(s: State, log: Log)
    requires InRange(s) && s.rescueChild.None? && s.alwaysChild.None?
    ensures !RescueMeaning(s, log, NEVER).failed
  {
    hide Plain, AlwaysMeaning;
    var rest := From(Here(s).rescue, s.curRescue);
    RunPlain(rest, log);
    NoKidFinish(rest, log, NEVER);
    AlwaysNeverFails(s, log + Plain(rest));
  }

  lemma {:induction false} DoneNeverFails(s: State, log: Log)
    requires Ok(s) && LevelShaped(s) && InSection(s) && InRange(s) && (s.run == ALWAYS ==> s.fail == NO_FAILURE)
    ensures !SectionDone(s, s.run, log, NEVER).failed
  {
    hide Ok, AlwaysMeaning;
    if s.run == ALWAYS {
      BlocksNeverFail(Later(s), log);
    } else {
      AlwaysNeverFails(s, log);
    }
  }

  lemma {:induction false} UnfailedKid(kid: Option<State>, rest: seq<Task>, log: Log)
    requires kid.Some? ==> !Meaning(kid.value, log, NEVER, None).failed
    ensures !Finish(kid, rest, log, NEVER).failed
  {
    hide Meaning;
    var k := if kid.Some? then Meaning(kid.value, log, NEVER, None) else Outcome(log, false);
    RunPlain(rest, k.log);
  }

  lemma {:induction false} NotDoomedEnds(s: State, log: Log, setup: Option<TaskId>)
    requires Ok(s) && Settled(s) && Shaped(s) && !Doomed(s)
    ensures !Meaning(s, log, NEVER, setup).failed
    decreases s
  {
    hide Ok, Meaning, Doomed, RunTasks, From, Shaped, Finish, SectionDone, SectionFailed, CheckFailed;
    OkNotHandlers(s);
    if s.run == COMPLETE {
      DoomedComplete(s);
      CompleteMeaning(s, log, NEVER, setup);
    } else if s.run == SETUP {
      ShapedLevel(s);
      NotStartedEnds(s, log, setup);
    } else {
      DoomedSection(s);
      ShapedLevel(s);
      var kid, rest := ActiveChild(s), From(Section(s), Position(s));
      var f := Finish(kid, rest, log, NEVER);
      SectionEnded(s, f, log, NEVER, setup);
      if KidDoomed(s) {
        ActiveChildOk(s);
        DoomedEnds(kid.value, log, NEVER, None);
        FailedKid(kid.value, rest, log, NEVER);
        RescuableSection(s, f.log);
      } else {
        if kid.Some? {
          ActiveChildOk(s);
          NotDoomedEnds(kid.value, log, None);
        }
        UnfailedKid(kid, rest, log);
        DoneNeverFails(s, f.log);
      }
    }
  }

  lemma {:induction false} RescuableSection(s: State, log: Log)
    requires InRange(s) && LevelShaped(s) && s.run == TASKS && Here(s).rescue != []
    ensures !SectionFailed(s, TASKS, log, NEVER).failed
  {
    hide RescueMeaning;
    RescueNeverFails(s, log);
  }

  lemma {:induction false} NotStartedEnds(s: State, log: Log, setup: Option<TaskId>)
    requires s.run == SETUP && LevelShaped(s)
    ensures !Meaning(s, log, NEVER, setup).failed
  {
    if InRange(s) {
      BlocksNeverFail(Later(s), log);
      assert !StartedMeaning(s, log, NEVER).failed;
      if setup.Some? {
        BlocksNeverFail(Later(s), log + [setup.value]);
        assert !StartedMeaning(s, log + [setup.value], NEVER).failed;
      }
      assert !MeaningAs(s, SETUP, log, NEVER, setup).failed;
    }
  }

  /** A host is doomed exactly when it fails even if every remaining task succeeds. */
  lemma {:induction false} DoomedExactly(s: State, log: Log, setup: Option<TaskId>)
    requires Ok(s) && Settled(s) && Shaped(s)
    ensures Doomed(s) <==> Meaning(s, log, NEVER, setup).failed
  {
    hide Ok, Doomed, Meaning;
    if Doomed(s) {
      DoomedEnds(s, log, NEVER, setup);
    } else {
      NotDoomedEnds(s, log, setup);
    }
  }

  // ---------------------------------------------------------------- the reported verdict

  /** What the verdict sees, and what it would have to see to know that the host is doomed. */
  lemma {:induction false} ReportedExactly(s: State)
    requires Ok(s) && Settled(s)
    ensures CheckFailed(s) <==> DeadEnd(s)
    ensures Doomed(s) <==> DeadEnd(s) || CleaningUp(s)
    decreases s
  {
    if ActiveChild(s).Some? {
      ActiveChildOk(s);
      ReportedExactly(ActiveChild(s).value);
    }
  }

  /** The verdict is right exactly when it does not lag, and when it lags, it misses a doomed host. */
  lemma {:induction false} RightExactly(s: State)
    requires Ok(s) && Settled(s)
    ensures (CheckFailed(s) <==> Doomed(s)) <==> !Lags(s)
    ensures Lags(s) <==> Doomed(s) && !CheckFailed(s)
  {
    hide Ok, CheckFailed, Doomed, CleaningUp, DeadEnd;
    ReportedExactly(s);
  }

  /** When a task was just handed out, the verdict lags exactly when a failed block is cleaned up for good. */
  lemma {:induction false} LagsAfterTask(s: State, env: Env)
    requires Ok(s) && Next(s, env).task.Some?
    ensures Lags(Next(s, env).state) <==> CleaningUp(Next(s, env).state)
    ensures Doomed(Next(s, env).state) <==> CleaningUp(Next(s, env).state)
  {
    hide Ok, CheckFailed, Doomed, CleaningUp, DeadEnd, Next;
    NextOk(s, env);
    ReportedExactly(Next(s, env).state);
  }

  /** A failed block without rescue section: while its always section runs, the host is doomed and not reported. */
  lemma {:induction false} LaggingRun(env: Env)
    requires !env.gather
    ensures var play := [Block([], [], []), Block([Leaf(1)], [], [Leaf(2)])];
            var es := [Ask(env), Fail, Ask(env)];
            HandedOut(Initial(play), es) == [1, 2] && Lags(Run(Initial(play), es))
  {
    var play := [Block([], [], []), Block([Leaf(1)], [], [Leaf(2)])];
    var s0 := Initial(play);
    var s1 := s0.(curBlock := 1, run := TASKS);
    var s2 := s1.(curTask := 1);
    var s3 := s2.(run := ALWAYS, fail := NO_FAILURE.(tasks := true));
    NextUnfold(s0, env);
    NextUnfold(s0.(pendingSetup := true), env);
    NextUnfold(s1, env);
    assert Next(s0, env) == Turn(s2, Some(1));
    assert SetFailed(s2) == s3;
    NextUnfold(s3, env);
    assert Next(s3, env) == Turn(s3.(curAlways := 1), Some(2));
    AskFailAsk(s0, env);
  }

  lemma {:induction false} AskFailAsk(s: State, env: Env)
    requires Next(s, env).task.Some? && Next(SetFailed(Next(s, env).state), env).task.Some?
    ensures var t := Next(s, env);
            var u := Next(SetFailed(t.state), env);
            && Run(s, [Ask(env), Fail, Ask(env)]) == u.state
            && HandedOut(s, [Ask(env), Fail, Ask(env)]) == [t.task.value, u.task.value]
  {
    hide Next, SetFailed;
    var t := Next(s, env).state;
    var f := SetFailed(t);
    var u := Next(f, env).state;
    assert [Ask(env), Fail, Ask(env)][1..] == [Fail, Ask(env)];
    assert [Fail, Ask(env)][1..] == [Ask(env)];
    assert [Ask(env)][1..] == [];
    assert Run(f, [Ask(env)]) == Run(u, []);
    assert HandedOut(f, [Ask(env)]) == [Next(f, env).task.value] + HandedOut(u, []);
  }

  // ---------------------------------------------------------------- a reported failure is final

  lemma {:induction false} DoomedFails(s: State)
    requires Ok(s) && Settled(s) && Doomed(s)
    ensures Doomed(SetFailed(s))
    decreases s
  {
    if ActiveChild(s).Some? {
      ActiveChildOk(s);
      if Doomed(ActiveChild(s).value) {
        DoomedFails(ActiveChild(s).value);
      }
    }
  }

  lemma {:induction false} DoomedNext(s: State, env: Env)
    requires Ok(s) && Settled(s) && Shaped(s) && Doomed(s)
    ensures Doomed(Next(s, env).state)
  {
    hide Ok, Settled, Shaped, Doomed, Next, Meaning, SetFailed, SetupTask;
    var r := Next(s, env);
    NextOk(s, env);
    NextShaped(s, env);
    NextMeaning(s, env, [], NEVER);
    DoomedEnds(s, [], NEVER, SetupTask(env));
    assert Settled(r.state) by { NextSettled(s, env); }
    DoomedExactly(r.state, if r.task.Some? then [] + [r.task.value] else [], SetupTask(env));
  }

  lemma {:induction false} NextSettled(s: State, env: Env)
    requires Ok(s)
    ensures Settled(Next(s, env).state)
  {
    hide Ok, Next, CheckFailed;
    NextOk(s, env);
  }

  lemma {:induction false} DoomedInsert(s: State, ts: seq<Task>)
    requires Ok(s) && Settled(s) && Shaped(s) && Doomed(s)
    ensures Doomed(Insert(s, ts))
  {
    hide Ok, Settled, Shaped, Doomed, Meaning, Insert, Active;
    InsertTakesEffect(s, ts);
    if Insert(s, ts) != s {
      InsertOk(s, ts);
      InsertShaped(s, ts);
      InsertPlain(s, ts, [], None);
      DoomedEnds(s, [] + Plain(ts), NEVER, None);
      DoomedExactly(Insert(s, ts), [], None);
    }
  }

  lemma {:induction false} DoomedForever(s: State, es: seq<Event>)
    requires Ok(s) && Settled(s) && Shaped(s) && Doomed(s)
    ensures Doomed(Run(s, es))
    decreases |es|
  {
    hide Ok, Settled, Shaped, Doomed, Next, SetFailed, Insert;
    if es != [] {
      match es[0] {
        case Ask(env) => DoomedNext(s, env); NextShaped(s, env);
        case Fail => DoomedFails(s); SetFailedShaped(s);
        case Add(ts) => DoomedInsert(s, ts); InsertShaped(s, ts);
      }
      AfterOk(s, es[0]);
      DoomedForever(After(s, es[0]), es[1..]);
    }
  }

  /**
   Once the iterator reports a host as failed, no continuation undoes it: whatever is asked,
   added or fails afterwards, if the host completes it is reported as failed.
  */
  lemma {:induction false} VerdictIsFinal(blocks: seq<Block>, es: seq<Event>, later: seq<Event>)
    requires CheckFailed(Run(Initial(blocks), es))
    ensures var t := Run(Run(Initial(blocks), es), later);
            Doomed(t) && (t.run == COMPLETE ==> CheckFailed(t))
  {
    hide Ok, Settled, Shaped, Doomed, Run, Initial, CheckFailed;
    var s := Run(Initial(blocks), es);
    RunShaped(blocks, es);
    ReportedExactly(s);
    DoomedForever(s, later);
    RunOk(s, later);
    var t := Run(s, later);
    if t.run == COMPLETE {
      DoomedComplete(t);
    }
  }
}
