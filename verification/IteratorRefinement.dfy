/**
 The iterator refines the try / catch / finally meaning of a play.  `Meaning` says what is
 left to do from a cursor, in the terms of PlaySemantics only; every request and every
 reported failure moves the cursor along without changing it.
*/
module IteratorRefinement {
  import opened Basics
  import opened PlaySemantics
  import opened IteratorModel
  import opened IteratorInvariants
  import opened IteratorBound

  // ---------------------------------------------------------------- what is left to do

  function Later(s: State): seq<Block>
    requires InRange(s)
  {
    s.blocks[s.curBlock + 1..]
  }

  /** A child first, and then the rest of the section it stands in. */
  function Finish(kid: Option<State>, rest: seq<Task>, log: Log, fails: Oracle): Outcome
    decreases kid, 0
  {
    var k := if kid.Some? then Meaning(kid.value, log, fails, None) else Outcome(log, false);
    if k.failed then k else RunTasks(rest, k.log, fails)
  }

  function AlwaysMeaning(s: State, log: Log, failed: bool, fails: Oracle): Outcome
    requires InRange(s)
    decreases s, 0
  {
    var a := Finish(s.alwaysChild, From(Here(s).always, s.curAlways), log, fails);
    if failed || a.failed then Outcome(a.log, true) else RunBlocks(Later(s), a.log, fails)
  }

  function RescueMeaning(s: State, log: Log, fails: Oracle): Outcome
    requires InRange(s)
    decreases s, 1
  {
    var r := Finish(s.rescueChild, From(Here(s).rescue, s.curRescue), log, fails);
    AlwaysMeaning(s, r.log, r.failed, fails)
  }

  /** How the block goes on once the current section has failed. */
  function SectionFailed(s: State, run: RunState, log: Log, fails: Oracle): Outcome
    requires InRange(s)
    decreases s, 2
  {
    if run == TASKS && Here(s).rescue != [] then RescueMeaning(s, log, fails)
    else if run == ALWAYS then Outcome(log, true)
    else AlwaysMeaning(s, log, true, fails)
  }

  /** How the block goes on once the current section has succeeded. */
  function SectionDone(s: State, run: RunState, log: Log, fails: Oracle): Outcome
    requires InRange(s)
    decreases s, 2
  {
    if run != ALWAYS then AlwaysMeaning(s, log, false, fails)
    else if s.fail != NO_FAILURE then Outcome(log, true)
    else RunBlocks(Later(s), log, fails)
  }

  function KidOf(s: State, run: RunState): Option<State> {
    match run
    case TASKS => s.tasksChild
    case RESCUE => s.rescueChild
    case _ => s.alwaysChild
  }

  function RestOf(s: State, run: RunState): seq<Task>
    requires InRange(s)
  {
    match run
    case TASKS => From(Here(s).block, s.curTask)
    case RESCUE => From(Here(s).rescue, s.curRescue)
    case ALWAYS => From(Here(s).always, s.curAlways)
    case _ => []
  }

  function SectionMeaning(s: State, run: RunState, log: Log, fails: Oracle): Outcome
    requires InRange(s)
    decreases s, 3
  {
    var f := Finish(KidOf(s, run), RestOf(s, run), log, fails);
    if f.failed then SectionFailed(s, run, f.log, fails) else SectionDone(s, run, f.log, fails)
  }

  /** What is left once fact gathering is over. */
  function StartedMeaning(s: State, log: Log, fails: Oracle): Outcome
    requires InRange(s)
    decreases s, 4
  {
    if s.didStartAt then SectionMeaning(s, TASKS, log, fails)
    else RunBlocks(Later(s), log, fails)
  }

  /** What is left to do from `s`, read as if it were in run state `run`. */
  function MeaningAs(s: State, run: RunState, log: Log, fails: Oracle, setup: Option<TaskId>): Outcome
    decreases s, 5
  {
    if run == COMPLETE then Outcome(log, s.fail != NO_FAILURE)
    else if !InRange(s) then Outcome(log, false)
    else if run == SETUP then
      if s.pendingSetup || setup.None? then StartedMeaning(s, log, fails)
      else if fails(log + [setup.value]) then Outcome(log + [setup.value], true)
      else StartedMeaning(s, log + [setup.value], fails)
    else if run == HANDLERS then Outcome(log, false)
    else SectionMeaning(s, run, log, fails)
  }

  /** What is left to do from `s`; a handler flush stands for the work it interrupted. */
  function Meaning(s: State, log: Log, fails: Oracle, setup: Option<TaskId>): Outcome
    decreases s, 6
  {
    MeaningAs(s, if s.run == HANDLERS then ResumeRun(s) else s.run, log, fails, setup)
  }

  // ---------------------------------------------------------------- one turn of the loop

  /** What is left after the turn `r`: the task it handed out runs, and its failure is reported. */
  function AfterTurn(r: Turn, log: Log, fails: Oracle, setup: Option<TaskId>): Outcome {
    match r.task
    case None => Meaning(r.state, log, fails, setup)
    case Some(id) => Meaning(if fails(log + [id]) then SetFailed(r.state) else r.state, log + [id], fails, setup)
  }

  lemma {:induction false} InSectionMeaning(s: State, log: Log, fails: Oracle, setup: Option<TaskId>)
    requires InSection(s) && InRange(s)
    ensures Meaning(s, log, fails, setup) == SectionMeaning(s, s.run, log, fails)
    ensures KidOf(s, s.run) == ActiveChild(s) && RestOf(s, s.run) == From(Section(s), Position(s))
  {
    hide SectionMeaning;
  }

  /** A fresh block, entered at its start, means what PlaySemantics says. */
  lemma {:induction false} FreshBlockMeaning(s: State, log: Log, fails: Oracle, setup: Option<TaskId>)
    requires s.run == TASKS && s.curTask == s.curRescue == s.curAlways == 0
    requires s.tasksChild == s.rescueChild == s.alwaysChild == None
    requires s.curBlock <= |s.blocks|
    ensures Meaning(s, log, fails, setup) == RunBlocks(s.blocks[s.curBlock..], log, fails)
  {
    if InRange(s) {
      var b := Here(s);
      assert From(b.block, 0) == b.block && From(b.rescue, 0) == b.rescue && From(b.always, 0) == b.always;
      assert s.blocks[s.curBlock..][1..] == Later(s);
      NoKidFinish(b.block, log, fails);
      var tried := RunTasks(b.block, log, fails);
      NoKidFinish(b.rescue, tried.log, fails);
      var handled := if tried.failed && b.rescue != [] then RunTasks(b.rescue, tried.log, fails) else tried;
      NoKidFinish(b.always, handled.log, fails);
      var rest := AlwaysMeaning(s, handled.log, handled.failed, fails);
      if tried.failed && b.rescue != [] {
        assert RescueMeaning(s, tried.log, fails) == rest;
      }
      assert SectionMeaning(s, TASKS, log, fails) == rest;
      InSectionMeaning(s, log, fails, setup);
    }
  }

  lemma {:induction false} NoKidFinish(rest: seq<Task>, log: Log, fails: Oracle)
    ensures Finish(None, rest, log, fails) == RunTasks(rest, log, fails)
  {
  }

  lemma {:induction false} ChildMeaning(b: Block, log: Log, fails: Oracle)
    ensures Meaning(Child(b), log, fails, None) == RunBlock(b, log, fails)
  {
    hide Meaning, RunBlock;
    FreshBlockMeaning(Child(b), log, fails, None);
    assert Child(b).blocks[0..] == [b];
    assert [b][1..] == [];
    var first := RunBlock(b, log, fails);
    assert RunBlocks([b], log, fails) == if first.failed then first else RunBlocks([], first.log, fails);
  }

  /** `t` agrees with `s` on everything that matters after the section `run`. */
  predicate SameBeyond(s: State, t: State, run: RunState)
    requires InRange(s)
  {
    && InRange(t) && Later(t) == Later(s)
    && (run == TASKS ==>
          Here(t).rescue == Here(s).rescue && t.rescueChild == s.rescueChild && t.curRescue == s.curRescue)
    && (run == ALWAYS ==> t.fail == s.fail)
    && (run != ALWAYS ==>
          Here(t).always == Here(s).always && t.alwaysChild == s.alwaysChild && t.curAlways == s.curAlways)
  }

  lemma {:induction false} AdvanceFrame(s: State)
    requires InSection(s) && InRange(s)
    ensures var t := Advance(s);
            && t.run == s.run && InSection(t) && InRange(t) && SameBeyond(s, t, s.run)
            && ActiveChild(t) == ActiveChild(s) && Section(t) == Section(s) && Position(t) == Position(s) + 1
  {
  }

  lemma {:induction false} WithChildFrame(s: State, c: Option<State>)
    requires InSection(s) && InRange(s)
    ensures var t := WithChild(s, c);
            && t.run == s.run && InSection(t) && InRange(t) && SameBeyond(s, t, s.run)
            && ActiveChild(t) == c && Section(t) == Section(s) && Position(t) == Position(s)
  {
  }

  /** What follows a section does not depend on its child state or its cursor. */
  lemma {:induction false} SectionEndsAgree(s: State, t: State, run: RunState, log: Log, fails: Oracle)
    requires InRange(s) && SameBeyond(s, t, run)
    ensures SectionFailed(t, run, log, fails) == SectionFailed(s, run, log, fails)
    ensures SectionDone(t, run, log, fails) == SectionDone(s, run, log, fails)
  {
    hide Finish;
    if run == TASKS {
      var r := Finish(s.rescueChild, From(Here(s).rescue, s.curRescue), log, fails);
      assert AlwaysMeaning(t, r.log, r.failed, fails) == AlwaysMeaning(s, r.log, r.failed, fails);
    }
  }

  /** In the always section of a failed block, finishing it can no longer help. */
  lemma {:induction false} AlwaysAfterFailure(s: State, log: Log, fails: Oracle)
    requires InRange(s) && s.fail != NO_FAILURE
    ensures SectionMeaning(s, ALWAYS, log, fails) == AlwaysMeaning(s, log, true, fails)
  {
  }

  lemma {:induction false} RescueSection(s: State, log: Log, fails: Oracle)
    requires InRange(s)
    ensures SectionMeaning(s, RESCUE, log, fails) == RescueMeaning(s, log, fails)
  {
  }

  lemma {:induction false} AlwaysSection(s: State, log: Log, fails: Oracle)
    requires InRange(s) && s.fail == NO_FAILURE
    ensures SectionMeaning(s, ALWAYS, log, fails) == AlwaysMeaning(s, log, false, fails)
  {
  }

  /** A failure of the current section leaves what the meaning says follows it. */
  lemma {:induction false} FailHereMeaning(s: State, log: Log, fails: Oracle, setup: Option<TaskId>)
    requires Ok(s) && InSection(s) && InRange(s)
    ensures Meaning(FailHere(s), log, fails, setup) == SectionFailed(s, s.run, log, fails)
  {
    hide Ok, Finish, SectionMeaning, AlwaysMeaning, RescueMeaning;
    var t := FailHere(s);
    FailHereFrame(s);
    if t.run == RESCUE {
      InSectionMeaning(t, log, fails, setup);
      RescueSection(t, log, fails);
      SectionEndsAgree(s, t, TASKS, log, fails);
    } else if t.run == ALWAYS {
      InSectionMeaning(t, log, fails, setup);
      AlwaysAfterFailure(t, log, fails);
      SectionEndsAgree(s, t, RESCUE, log, fails);
    } else if s.run != ALWAYS {
      NothingAlways(s, log, fails);
    }
  }

  lemma {:induction false} FailHereFrame(s: State)
    requires Ok(s) && InSection(s) && InRange(s)
    ensures var t := FailHere(s);
            && SameBeyond(s, t, TASKS) && SameBeyond(s, t, RESCUE) && t.fail != NO_FAILURE
            && (t.run == RESCUE ==> s.run == TASKS && Here(s).rescue != [])
            && (t.run == ALWAYS ==> s.run == RESCUE || (s.run == TASKS && Here(s).rescue == []))
            && (t.run == COMPLETE && s.run != ALWAYS ==> Here(s).always == [] && s.alwaysChild.None?)
            && (t.run == COMPLETE && s.run == TASKS ==> Here(s).rescue == [])
            && (t.run == RESCUE || t.run == ALWAYS || t.run == COMPLETE)
  {
  }

  lemma {:induction false} NothingAlways(s: State, log: Log, fails: Oracle)
    requires InRange(s) && Here(s).always == [] && s.alwaysChild.None?
    ensures AlwaysMeaning(s, log, true, fails) == Outcome(log, true)
  {
  }

  /** Leaving a section at its end. */
  lemma {:induction false} LeaveMeaning(s: State, log: Log, fails: Oracle, setup: Option<TaskId>)
    requires Ok(s) && InSection(s) && InRange(s) && ActiveChild(s).None?
    ensures Meaning(Leave(s), log, fails, setup) == SectionDone(s, s.run, log, fails)
  {
    hide Ok, CheckFailed, Finish, SectionMeaning, AlwaysMeaning, RescueMeaning;
    var t := Leave(s);
    if s.run == ALWAYS {
      if s.fail == NO_FAILURE {
        FreshBlockMeaning(t, log, fails, setup);
      }
    } else {
      LeaveFrame(s);
      InSectionMeaning(t, log, fails, setup);
      AlwaysSection(t, log, fails);
      SectionEndsAgree(s, t, RESCUE, log, fails);
    }
  }

  lemma {:induction false} LeaveFrame(s: State)
    requires Ok(s) && (s.run == TASKS || s.run == RESCUE) && InRange(s) && ActiveChild(s).None?
    ensures var t := Leave(s);
            t.run == ALWAYS && t.fail == NO_FAILURE && InRange(t) && SameBeyond(s, t, RESCUE)
  {
    hide ChildrenOk;
  }

  /** Two cursors that differ only inside the current section mean the same if that section does. */
  lemma {:induction false} SectionAgree(s: State, t: State, log: Log, fails: Oracle, setup: Option<TaskId>)
    requires InSection(s) && InRange(s) && t.run == s.run && SameBeyond(s, t, s.run)
    requires Finish(ActiveChild(t), From(Section(t), Position(t)), log, fails) ==
             Finish(ActiveChild(s), From(Section(s), Position(s)), log, fails)
    ensures Meaning(t, log, fails, setup) == Meaning(s, log, fails, setup)
  {
    hide Finish, SectionFailed, SectionDone, Meaning;
    var f := Finish(ActiveChild(s), From(Section(s), Position(s)), log, fails);
    SectionEndsAgree(s, t, s.run, f.log, fails);
    InSectionMeaning(s, log, fails, setup);
    InSectionMeaning(t, log, fails, setup);
  }

  /** A cursor whose section is a failure, respectively over, at `log`. */
  lemma {:induction false} SectionEnded(s: State, f: Outcome, log: Log, fails: Oracle, setup: Option<TaskId>)
    requires InSection(s) && InRange(s)
    requires f == Finish(ActiveChild(s), From(Section(s), Position(s)), log, fails)
    ensures Meaning(s, log, fails, setup) ==
            if f.failed then SectionFailed(s, s.run, f.log, fails) else SectionDone(s, s.run, f.log, fails)
  {
    hide Finish, SectionFailed, SectionDone, Meaning;
    InSectionMeaning(s, log, fails, setup);
  }

  lemma {:induction false} LeafMeaning(s: State, id: TaskId, log: Log, fails: Oracle, setup: Option<TaskId>)
    requires Ok(s) && InSection(s) && InRange(s) && ActiveChild(s).None?
    requires Position(s) < |Section(s)| && Section(s)[Position(s)] == Leaf(id)
    ensures Meaning(s, log, fails, setup) == AfterTurn(Turn(Advance(s), Some(id)), log, fails, setup)
  {
    hide Finish, SectionFailed, SectionDone, Meaning, Ok, Advance, Section, Position, ActiveChild, FailHere;
    hide SameBeyond, From;
    var t := Advance(s);
    var l := log + [id];
    AdvanceOk(s);
    AdvanceFrame(s);
    RunTasksFrom(Section(s), Position(s), log, fails);
    NoKidFinish(From(Section(s), Position(s)), log, fails);
    var f := RunTasks(From(Section(s), Position(s)), log, fails);
    SectionEnded(s, f, log, fails, setup);
    if fails(l) {
      FailHereMeaning(t, l, fails, setup);
      SectionEndsAgree(s, t, s.run, l, fails);
    } else {
      NoKidFinish(From(Section(t), Position(t)), l, fails);
      SectionEnded(t, f, l, fails, setup);
      SectionEndsAgree(s, t, s.run, f.log, fails);
    }
  }

  lemma {:induction false} NestMeaning(s: State, b: Block, log: Log, fails: Oracle, setup: Option<TaskId>)
    requires Ok(s) && InSection(s) && InRange(s) && ActiveChild(s).None?
    requires Position(s) < |Section(s)| && Section(s)[Position(s)] == Nested(b)
    ensures Meaning(WithChild(Advance(s), Some(Child(b))), log, fails, setup) == Meaning(s, log, fails, setup)
  {
    hide SectionFailed, SectionDone, Meaning, Ok, Child, RunBlock, RunTasks, Advance, WithChild, Section;
    hide Position, ActiveChild, From;
    AdvanceFrame(s);
    var t := WithChild(Advance(s), Some(Child(b)));
    WithChildFrame(Advance(s), Some(Child(b)));
    RunTasksFrom(Section(s), Position(s), log, fails);
    assert RunTask(Nested(b), log, fails) == RunBlock(b, log, fails);
    NoKidFinish(From(Section(s), Position(s)), log, fails);
    ChildMeaning(b, log, fails);
    SectionAgree(s, t, log, fails, setup);
  }

  lemma {:induction false} StartMeaning(s: State, log: Log, fails: Oracle, setup: Option<TaskId>)
    requires Ok(s) && InSection(s) && InRange(s) && ActiveChild(s).None?
    ensures Meaning(s, log, fails, setup) == AfterTurn(Start(s), log, fails, setup)
  {
    hide Finish, SectionFailed, SectionDone, Meaning, Advance, Leave, SetFailed;
    NotAbandoned(s);
    if Position(s) >= |Section(s)| {
      LeaveMeaning(s, log, fails, setup);
      NoKidFinish(From(Section(s), Position(s)), log, fails);
      SectionEnded(s, Outcome(log, false), log, fails, setup);
    } else {
      match Section(s)[Position(s)]
      case Leaf(id) => LeafMeaning(s, id, log, fails, setup);
      case Nested(b) => NestMeaning(s, b, log, fails, setup);
    }
  }

  lemma {:induction false} NotAbandoned(s: State)
    requires Ok(s) && InSection(s) && InRange(s) && ActiveChild(s).None?
    ensures !Abandoned(s)
  {
  }

  lemma {:induction false} ResumeMeaning(s: State, a: Turn, log: Log, fails: Oracle, setup: Option<TaskId>)
    requires Ok(s) && InSection(s) && InRange(s) && ActiveChild(s).Some? && AnswerOk(a)
    requires Meaning(ActiveChild(s).value, log, fails, None) == AfterTurn(a, log, fails, None)
    ensures Meaning(s, log, fails, setup) == AfterTurn(Resume(s, a), log, fails, setup)
  {
    hide SectionFailed, SectionDone, Meaning, Ok, WithChild, Section, Position, ActiveChild, FailHere;
    hide SameBeyond, From, CheckFailed, RunTasks, SetFailed;
    var rest := From(Section(s), Position(s));
    if a.task.None? {
      var t := WithChild(s, None);
      WithChildFrame(s, None);
      DropChildOk(s);
      CompleteMeaning(a.state, log, fails, None);
      NoKidFinish(rest, log, fails);
      if CheckFailed(a.state) {
        SectionEnded(s, Outcome(log, true), log, fails, setup);
        FailHereMeaning(t, log, fails, setup);
        SectionEndsAgree(s, t, s.run, log, fails);
      } else {
        SectionAgree(s, t, log, fails, setup);
      }
    } else {
      var l := log + [a.task.value];
      var c := if fails(l) then SetFailed(a.state) else a.state;
      var t := WithChild(s, Some(a.state));
      WithChildFrame(s, Some(a.state));
      WithChildFrame(s, Some(c));
      SetFailedWithChild(s, a.state);
      var u := WithChild(s, Some(c));
      var f := Finish(Some(c), rest, l, fails);
      SectionEnded(s, f, log, fails, setup);
      SectionEnded(u, f, l, fails, setup);
      SectionEndsAgree(s, u, s.run, f.log, fails);
    }
  }

  lemma {:induction false} SetFailedWithChild(s: State, c: State)
    requires InSection(s)
    ensures SetFailed(WithChild(s, Some(c))) == WithChild(s, Some(SetFailed(c)))
  {
  }

  lemma {:induction false} CompleteMeaning(s: State, log: Log, fails: Oracle, setup: Option<TaskId>)
    requires Ok(s) && s.run == COMPLETE
    ensures Meaning(s, log, fails, setup) == Outcome(log, CheckFailed(s))
  {
  }

  lemma {:induction false} EnteredMeaning(s: State, log: Log, fails: Oracle, setup: Option<TaskId>)
    requires InSection(s) && InRange(s)
    ensures Meaning(Entered(s), log, fails, setup) == Meaning(s, log, fails, setup)
    ensures var t := Entered(s);
            t.run == s.run && InSection(t) && InRange(t) && ActiveChild(t) == ActiveChild(s)
  {
    hide Finish;
    InSectionMeaning(s, log, fails, setup);
    InSectionMeaning(Entered(s), log, fails, setup);
    var f := Finish(ActiveChild(s), From(Section(s), Position(s)), log, fails);
    SectionEndsAgree(s, Entered(s), s.run, f.log, fails);
  }

  lemma {:induction false} EnteredOk(s: State)
    requires Ok(s)
    ensures Ok(Entered(s))
  {
  }

  lemma {:induction false} SetupMeaning(s: State, env: Env, log: Log, fails: Oracle)
    requires Ok(s) && s.run == SETUP && InRange(s)
    ensures Meaning(s, log, fails, SetupTask(env)) == AfterTurn(StepSetup(s, env), log, fails, SetupTask(env))
  {
    hide Finish, SectionFailed, SectionDone;
    if s.pendingSetup {
      if s.didStartAt {
        var t := s.(pendingSetup := false, run := TASKS);
        var f := Finish(ActiveChild(t), From(Section(t), Position(t)), log, fails);
        SectionEndsAgree(s, t, TASKS, f.log, fails);
        InSectionMeaning(t, log, fails, SetupTask(env));
        assert StartedMeaning(s, log, fails) == SectionMeaning(s, TASKS, log, fails);
      } else {
        assert StartedMeaning(s, log, fails) == RunBlocks(Later(s), log, fails);
        FreshBlockMeaning(NextBlock(s.(pendingSetup := false)), log, fails, SetupTask(env));
      }
    } else {
      SetupAskMeaning(s, SetupTask(env), log, fails);
    }
  }

  lemma {:induction false} SetupAskMeaning(s: State, setup: Option<TaskId>, log: Log, fails: Oracle)
    requires s.run == SETUP && InRange(s) && !s.pendingSetup
    ensures Meaning(s, log, fails, setup) == AfterTurn(Turn(s.(pendingSetup := true), setup), log, fails, setup)
  {
    hide StartedMeaning;
    var t := s.(pendingSetup := true);
    if setup.None? {
      StartedAgree(s, t, log, fails);
      assert MeaningAs(s, SETUP, log, fails, setup) == StartedMeaning(s, log, fails);
      assert MeaningAs(t, SETUP, log, fails, setup) == StartedMeaning(t, log, fails);
    } else {
      var l := log + [setup.value];
      StartedAgree(s, t, l, fails);
      assert SetFailed(t) == FailHere(t);
      assert MeaningAs(FailHere(t), COMPLETE, l, fails, setup) == Outcome(l, true);
      assert MeaningAs(t, SETUP, l, fails, setup) == StartedMeaning(t, l, fails);
      assert MeaningAs(s, SETUP, log, fails, setup)
          == if fails(l) then Outcome(l, true) else StartedMeaning(s, l, fails);
    }
  }

  lemma {:induction false} StartedAgree(s: State, t: State, log: Log, fails: Oracle)
    requires InRange(s) && t == s.(pendingSetup := true)
    ensures StartedMeaning(t, log, fails) == StartedMeaning(s, log, fails)
  {
    hide Finish, SectionFailed, SectionDone;
    var f := Finish(s.tasksChild, From(Here(s).block, s.curTask), log, fails);
    SectionEndsAgree(s, t, TASKS, f.log, fails);
  }

  /** Fact gathering only matters to a cursor that is still before it. */
  lemma {:induction false} SetupIrrelevant(s: State, log: Log, fails: Oracle, setup: Option<TaskId>)
    requires s.run != SETUP && s.run != HANDLERS
    ensures Meaning(s, log, fails, setup) == Meaning(s, log, fails, None)
  {
  }

  lemma {:induction false} AfterTurnIrrelevant(a: Turn, log: Log, fails: Oracle, setup: Option<TaskId>)
    requires AnswerOk(a)
    ensures AfterTurn(a, log, fails, setup) == AfterTurn(a, log, fails, None)
  {
    hide Meaning;
    OkNotHandlers(a.state);
    SetupIrrelevant(a.state, log, fails, setup);
    if a.task.Some? {
      SetFailedOk(a.state);
      OkNotHandlers(SetFailed(a.state));
      SetupIrrelevant(a.state, log + [a.task.value], fails, setup);
      SetupIrrelevant(SetFailed(a.state), log + [a.task.value], fails, setup);
    }
  }

  /** One turn of the loop keeps the meaning. */
  lemma {:induction false} StepMeaning(s: State, env: Env, answer: Option<Turn>, log: Log, fails: Oracle)
    requires Ok(s) && InRange(s) && s.run != COMPLETE
    requires answer.Some? <==> ActiveChild(s).Some?
    requires answer.Some? ==> AnswerOk(answer.value)
    requires answer.Some? ==>
      Meaning(ActiveChild(s).value, log, fails, None) == AfterTurn(answer.value, log, fails, None)
    ensures Meaning(s, log, fails, SetupTask(env)) == AfterTurn(Step(s, env, answer), log, fails, SetupTask(env))
  {
    hide Ok, Meaning, AfterTurn, StepSetup, Start, Resume, ActiveChild, Entered, CheckFailed;
    OkNotHandlers(s);
    if s.run == SETUP {
      SetupMeaning(s, env, log, fails);
    } else {
      EnteredMeaning(s, log, fails, SetupTask(env));
      EnteredOk(s);
      if answer.Some? {
        ResumeMeaning(Entered(s), answer.value, log, fails, SetupTask(env));
      } else {
        StartMeaning(Entered(s), log, fails, SetupTask(env));
      }
    }
  }

  /**
   Asking for a task keeps the meaning: running the task that is handed out, and reporting its
   failure if it fails, leaves exactly what had to be done before.
  */
  lemma {:induction false} NextMeaning(s: State, env: Env, log: Log, fails: Oracle)
    requires Ok(s)
    ensures Meaning(s, log, fails, SetupTask(env)) == AfterTurn(Next(s, env), log, fails, SetupTask(env))
    decreases Size(s, 1)
  {
    hide Ok, Size, Step, CheckFailed, SetFailed, MeaningAs, ActiveChild, SetupTask, Settled;
    if !InRange(s) {
      OutOfRangeMeaning(s, log, fails, SetupTask(env));
    } else if s.run != COMPLETE {
      var answer := Answer(s, env);
      NextUnfold(s, env);
      AnswersOk(s, env);
      if ActiveChild(s).Some? {
        ActiveChildOk(s);
        ActiveChildShrinks(s, 1);
        var c := ActiveChild(s).value;
        NextMeaning(c, env, log, fails);
        OkNotHandlers(c);
        SetupIrrelevant(c, log, fails, SetupTask(env));
        AfterTurnIrrelevant(Next(c, env), log, fails, SetupTask(env));
      }
      StepMeaning(s, env, answer, log, fails);
      if Step(s, env, answer).task.None? {
        StepOk(s, env, answer);
        StepShrinks(s, env, answer, 1);
        NextMeaning(Step(s, env, answer).state, env, log, fails);
      }
    }
  }

  lemma {:induction false} OutOfRangeMeaning(s: State, log: Log, fails: Oracle, setup: Option<TaskId>)
    requires Ok(s) && !InRange(s)
    ensures Meaning(s, log, fails, setup) == Meaning(s.(run := COMPLETE), log, fails, setup)
  {
  }

  // ---------------------------------------------------------------- whole plays

  /**
   A whole run for one host: ask for a task, run it, report its failure if the oracle says it
   failed, and go on until there is no task left.  The verdict is the iterator's own.
  */
  function Drive(s: State, env: Env, log: Log, fails: Oracle): Outcome
    requires Ok(s)
    decreases Ahead(s)
  {
    var r := Next(s, env);
    if r.task.None? then Outcome(log, CheckFailed(r.state))
    else
      var l := log + [r.task.value];
      NextOk(s, env);
      NextUses(s, env);
      SetFailedOk(r.state);
      FailUses(r.state);
      Drive(if fails(l) then SetFailed(r.state) else r.state, env, l, fails)
  }

  lemma {:induction false} DriveMeaning(s: State, env: Env, log: Log, fails: Oracle)
    requires Ok(s)
    ensures Drive(s, env, log, fails) == Meaning(s, log, fails, SetupTask(env))
    decreases Ahead(s)
  {
    hide Ok, Next, CheckFailed, SetFailed, Meaning, Ahead, SetupTask;
    var r := Next(s, env);
    NextOk(s, env);
    NextMeaning(s, env, log, fails);
    if r.task.None? {
      CompleteMeaning(r.state, log, fails, SetupTask(env));
    } else {
      var l := log + [r.task.value];
      NextUses(s, env);
      SetFailedOk(r.state);
      FailUses(r.state);
      DriveMeaning(if fails(l) then SetFailed(r.state) else r.state, env, l, fails);
    }
  }

  lemma {:induction false} DriveExtends(s: State, env: Env, log: Log, fails: Oracle)
    requires Ok(s)
    ensures log <= Drive(s, env, log, fails).log
    ensures Next(s, env).task.Some? ==> log + [Next(s, env).task.value] <= Drive(s, env, log, fails).log
    decreases Ahead(s)
  {
    hide Ok, Next, SetFailed, Ahead, CheckFailed;
    var r := Next(s, env);
    if r.task.Some? {
      var l := log + [r.task.value];
      NextOk(s, env);
      NextUses(s, env);
      SetFailedOk(r.state);
      FailUses(r.state);
      DriveExtends(if fails(l) then SetFailed(r.state) else r.state, env, l, fails);
    }
  }

  lemma {:induction false} InitialMeaning(blocks: seq<Block>, env: Env, fails: Oracle)
    requires blocks != []
    ensures Meaning(Initial(blocks), [], fails, SetupTask(env)) == RunPlay(SetupTask(env), blocks[1..], fails)
  {
    var s := Initial(blocks);
    assert forall log :: StartedMeaning(s, log, fails) == RunBlocks(blocks[1..], log, fails);
    if SetupTask(env).Some? {
      assert [] + [SetupTask(env).value] == [SetupTask(env).value];
    }
  }

  /**
   The main refinement.  For every list of nested blocks and every oracle, the host is given
   exactly the tasks of the try / catch / finally meaning, in that order, and is counted as
   failed exactly when that meaning says so.
  */
  lemma {:induction false} PlayRefinement(blocks: seq<Block>, env: Env, fails: Oracle)
    requires blocks != []
    ensures Ok(Initial(blocks))
    ensures Drive(Initial(blocks), env, [], fails) == RunPlay(SetupTask(env), blocks[1..], fails)
  {
    hide Ok, Meaning, RunPlay, Drive, Initial, SetupTask;
    InitialOk(blocks);
    DriveMeaning(Initial(blocks), env, [], fails);
    InitialMeaning(blocks, env, fails);
  }
}
