/**
 What a failed handler does to its host.  The host does not fail the section that the flush
 interrupted: it goes to the rescue section of its current block, from wherever the cursor of
 that section stands, or cleans up and fails if there is none.
*/
module HandlerFailure {
  import opened Basics
  import opened PlaySemantics
  import opened IteratorModel
  import opened IteratorInvariants
  import opened IteratorRefinement
  import opened IteratorInsertion
  import opened IteratorShape
  import opened IteratorVerdict
  import opened RemainingWork

  /**
   Sections that are over have no child state, a rescued block has a rescue section that was
   run to its end, and a block with a rescue section is cleaned up after a failure only if the
   rescue failed too.
  */
  predicate LevelRests(s: State) {
    && (s.run != RESCUE && s.run != COMPLETE ==> s.rescueChild.None?)
    && (s.run == ALWAYS && InRange(s) ==>
          && (s.didRescue ==> Here(s).rescue != [] && s.curRescue >= |Here(s).rescue|)
          && (s.fail != NO_FAILURE && Here(s).rescue != [] ==> s.fail.rescue))
  }

  predicate KidsFit(s: State) {
    KidFit(s.tasksChild) && KidFit(s.rescueChild) && KidFit(s.alwaysChild)
  }

  predicate Resting(s: State) {
    LevelRests(s) && KidsFit(s)
  }

  /** The interrupted host. */
  function Back(s: State): State {
    s.(run := ResumeRun(s))
  }

  /** A flush of a host that is not done yet. */
  predicate Interrupts(s: State) {
    && s.run == HANDLERS && s.preFlush.Some? && s.preFlush.value != HANDLERS && s.preFlush.value != COMPLETE
    && InRange(s) && Ok(Back(s)) && Resting(Back(s))
  }

  /** The rest of the rescue section is what comes next. */
  predicate TriesRescue(s: State)
    requires InRange(s)
  {
    Here(s).rescue != [] && !s.fail.rescue
  }

  /** What is left to do after a handler of the flush `s` failed. */
  function HandlerFailed(s: State, log: Log, fails: Oracle): Outcome
    requires InRange(s)
  {
    if TriesRescue(s) then RescueMeaning(s, log, fails) else AlwaysMeaning(s, log, true, fails)
  }

  // ---------------------------------------------------------------- the state after the failure

  /** The state in which the next request finds the host: a rescue section that is over is left at once. */
  function Settle(t: State): State
    requires InRange(t)
  {
    if t.run == RESCUE && (t.fail.rescue || t.didRescue) then Leave(t) else t
  }

  /** How the failed state relates to the interrupted one. */
  lemma {:induction false} FailedFrame(s: State)
    requires Interrupts(s)
    ensures var t := SetFailed(s);
            && InRange(t) && SameBeyond(Back(s), t, TASKS) && SameBeyond(Back(s), t, RESCUE) && SameBeyond(s, t, RESCUE)
            && SameBeyond(s, t, TASKS) && t.fail == s.fail.(handlers := true) && t.didRescue == s.didRescue
            && t.run == (if Here(s).rescue != [] then RESCUE else if Here(s).always != [] then ALWAYS else COMPLETE)
            && (t.fail.rescue || t.didRescue ==> Back(s).run == ALWAYS && t.rescueChild.None?)
            && (t.didRescue ==> s.fail == NO_FAILURE && Here(s).rescue != [] && t.curRescue >= |Here(t).rescue|)
  {
    hide ChildrenOk, KidFit;
  }

  lemma {:induction false} SameKidsOk(s: State, t: State)
    requires ChildrenOk(s)
    requires t.tasksChild == s.tasksChild && t.rescueChild == s.rescueChild && t.alwaysChild == s.alwaysChild
    ensures ChildrenOk(t)
  {
    hide KidOk;
  }

  lemma {:induction false} SettleOk(s: State)
    requires Interrupts(s)
    ensures InRange(SetFailed(s)) && Ok(Settle(SetFailed(s))) && Settled(Settle(SetFailed(s)))
            && Settle(SetFailed(s)).run != SETUP
  {
    hide ChildrenOk, KidFit, SetFailed, SameBeyond;
    FailedFrame(s);
    var t := SetFailed(s);
    var u := Settle(t);
    assert t == s.(fail := t.fail, run := t.run, updateHandlers := t.updateHandlers) by { FailedFields(s); }
    SameKidsOk(Back(s), u);
  }

  lemma {:induction false} FailedFields(s: State)
    requires s.run == HANDLERS
    ensures var t := SetFailed(s); t == s.(fail := t.fail, run := t.run, updateHandlers := t.updateHandlers)
  {
  }

  /** The request after the failure is answered from the settled state. */
  lemma {:induction false} SettleNext(s: State, env: Env)
    requires Interrupts(s)
    ensures Next(SetFailed(s), env) == Next(Settle(SetFailed(s)), env)
  {
    hide Ok, Resting, SetFailed, CheckFailed, SameBeyond, Next;
    FailedFrame(s);
    var t := SetFailed(s);
    if Settle(t) != t {
      NextUnfold(t, env);
      assert Start(Entered(t)) == Turn(Leave(t), None);
    }
  }

  lemma {:induction false} SettleMeaning(s: State, log: Log, fails: Oracle, setup: Option<TaskId>)
    requires Interrupts(s)
    ensures Meaning(Settle(SetFailed(s)), log, fails, setup) == HandlerFailed(s, log, fails)
  {
    hide Ok, Resting, SetFailed, CheckFailed, Meaning, AlwaysMeaning, RescueMeaning, SectionMeaning, Finish;
    FailedFrame(s);
    SettleOk(s);
    var t := SetFailed(s);
    var u := Settle(t);
    if t.run == RESCUE && t.fail.rescue {
      LeftAfterFailure(s, t, log, fails, setup);
    } else if t.run == RESCUE && t.didRescue {
      LeftAfterRescue(s, t, log, fails, setup);
    } else if t.run == RESCUE {
      InSectionMeaning(t, log, fails, setup);
      RescueSection(t, log, fails);
      SectionEndsAgree(s, t, TASKS, log, fails);
    } else if t.run == ALWAYS {
      InSectionMeaning(t, log, fails, setup);
      AlwaysAfterFailure(t, log, fails);
      SectionEndsAgree(s, t, RESCUE, log, fails);
    } else {
      NoAlways(s);
      NothingAlways(s, log, fails);
      CompleteFailed(t, log, fails, setup);
    }
  }

  lemma {:induction false} NoAlways(s: State)
    requires Interrupts(s) && Here(s).always == []
    ensures s.alwaysChild.None?
  {
  }

  lemma {:induction false} CompleteFailed(t: State, log: Log, fails: Oracle, setup: Option<TaskId>)
    requires t.run == COMPLETE && t.fail != NO_FAILURE
    ensures Meaning(t, log, fails, setup) == Outcome(log, true)
  {
  }

  /** A rescue section that failed before is left at once for the always section. */
  lemma {:induction false} LeftAfterFailure(s: State, t: State, log: Log, fails: Oracle, setup: Option<TaskId>)
    requires InRange(s) && InRange(t) && SameBeyond(s, t, RESCUE) && t.run == RESCUE && t.fail.rescue
    ensures Meaning(Leave(t), log, fails, setup) == AlwaysMeaning(s, log, true, fails)
  {
    hide CheckFailed, SectionMeaning, Finish, AlwaysMeaning, Meaning;
    var u := Leave(t);
    assert u == t.(run := ALWAYS);
    InSectionMeaning(u, log, fails, setup);
    AlwaysAfterFailure(u, log, fails);
    SectionEndsAgree(s, u, RESCUE, log, fails);
  }

  /** A rescue section that is over is left at once, and the failure of the handler is forgotten. */
  lemma {:induction false} LeftAfterRescue(s: State, t: State, log: Log, fails: Oracle, setup: Option<TaskId>)
    requires InRange(s) && InRange(t) && SameBeyond(s, t, RESCUE) && SameBeyond(s, t, TASKS)
    requires t.run == RESCUE && !t.fail.rescue && Here(s).rescue != []
    requires t.rescueChild.None? && t.curRescue >= |Here(t).rescue|
    ensures Meaning(Leave(t), log, fails, setup) == RescueMeaning(s, log, fails)
  {
    hide CheckFailed, SectionMeaning, Finish, AlwaysMeaning, Meaning;
    var u := Leave(t);
    assert u == t.(fail := NO_FAILURE, run := ALWAYS, didRescue := true);
    InSectionMeaning(u, log, fails, setup);
    AlwaysSection(u, log, fails);
    SectionEndsAgree(s, u, RESCUE, log, fails);
    NoKidFinish(From(Here(s).rescue, s.curRescue), log, fails);
    assert From(Here(s).rescue, s.curRescue) == [];
    assert RescueMeaning(s, log, fails) == AlwaysMeaning(s, log, false, fails);
  }

  /**
   What follows a failed handler, for every environment: the rest of the rescue section from its
   cursor, if the block has one that has not failed, and then the rest of the always section and
   of the play, as after a rescue; otherwise the rest of the always section, and the host fails.
  */
  lemma {:induction false} AfterFailedHandler(s: State, env: Env, log: Log, fails: Oracle)
    requires Interrupts(s)
    ensures var t := Settle(SetFailed(s));
            && Next(SetFailed(s), env) == Next(t, env)
            && Ok(t) && Drive(t, env, log, fails) == HandlerFailed(s, log, fails)
  {
    hide Ok, Interrupts, Settle, SetFailed, Meaning, HandlerFailed, Drive, Next;
    SettleOk(s);
    SettleNext(s, env);
    DriveMeaning(Settle(SetFailed(s)), env, log, fails);
    SettleMeaning(s, log, fails, SetupTask(env));
  }

  // ---------------------------------------------------------------- does the host fail?

  function RescueRest(s: State): seq<Task>
    requires InRange(s)
  {
    From(Here(s).rescue, s.curRescue)
  }

  function AlwaysRest(s: State): seq<Task>
    requires InRange(s)
  {
    From(Here(s).always, s.curAlways)
  }

  lemma {:induction false} AlwaysFails(s: State, log: Log, failed: bool)
    requires InRange(s) && KidFit(s.alwaysChild)
    ensures AlwaysMeaning(s, log, failed, NEVER).failed <==> failed || KidFails(s.alwaysChild)
  {
    hide Finish, KidFit, KidFails;
    var a := Finish(s.alwaysChild, AlwaysRest(s), log, NEVER);
    FinishFails(s.alwaysChild, AlwaysRest(s), log);
    RunPlainBlocks(Later(s), a.log);
  }

  lemma {:induction false} RescueFails(s: State, log: Log)
    requires InRange(s) && KidFit(s.rescueChild) && KidFit(s.alwaysChild)
    ensures RescueMeaning(s, log, NEVER).failed <==> KidFails(s.rescueChild) || KidFails(s.alwaysChild)
  {
    hide Finish, KidFit, KidFails, AlwaysMeaning;
    var r := Finish(s.rescueChild, RescueRest(s), log, NEVER);
    FinishFails(s.rescueChild, RescueRest(s), log);
    AlwaysFails(s, r.log, r.failed);
  }

  /**
   A failed handler leaves the host failed, even if everything else succeeds, exactly when the
   block has no rescue section left to try, or a child of its rescue or always section has
   failed for good already.
  */
  lemma {:induction false} FailedHandlerDooms(s: State, env: Env)
    requires Interrupts(s)
    ensures var t := Settle(SetFailed(s));
            && Ok(t)
            && (Drive(t, env, [], NEVER).failed <==>
                  !TriesRescue(s) || KidFails(s.rescueChild) || KidFails(s.alwaysChild))
  {
    hide Ok, Settle, SetFailed, Drive, KidFit, KidFails, RescueMeaning, AlwaysMeaning;
    AfterFailedHandler(s, env, [], NEVER);
    RescueFails(s, []);
    AlwaysFails(s, [], true);
  }

  // ---------------------------------------------------------------- is it like a failure of the section?

  /** The failed handler has the effect that a failure of the interrupted section would have. */
  ghost predicate LikeSectionFailure(s: State)
    requires InRange(s)
  {
    forall log: Log, fails: Oracle :: HandlerFailed(s, log, fails) == Meaning(FailHere(Back(s)), log, fails, None)
  }

  lemma {:induction false} SectionFailure(s: State, log: Log, fails: Oracle)
    requires Interrupts(s) && InSection(Back(s))
    ensures Meaning(FailHere(Back(s)), log, fails, None) == SectionFailed(s, ResumeRun(s), log, fails)
  {
    hide Ok, Resting, Meaning, FailHere, SectionFailed;
    FailHereMeaning(Back(s), log, fails, None);
    SectionEndsAgree(s, Back(s), ResumeRun(s), log, fails);
  }

  /**
   Nothing is handed out of the rest of the always section, and the host fails: the failure is the
   end of the play.
  */
  lemma {:induction false} AlwaysGone(s: State, log: Log, failed: bool, fails: Oracle)
    requires InRange(s) && KidFit(s.alwaysChild) && Gone(s.alwaysChild, AlwaysRest(s))
             && (failed || KidFails(s.alwaysChild))
    ensures AlwaysMeaning(s, log, failed, fails) == Outcome(log, true)
  {
    hide Finish, KidFit, KidFails;
    GoneAnyway(s.alwaysChild, AlwaysRest(s), log, fails);
  }

  /** With a doomed child the always section fails, however it was entered. */
  lemma {:induction false} AlwaysDoomed(s: State, log: Log, fails: Oracle)
    requires InRange(s) && KidFit(s.alwaysChild) && KidFails(s.alwaysChild)
    ensures AlwaysMeaning(s, log, false, fails) == AlwaysMeaning(s, log, true, fails)
  {
    hide Finish, KidFit, KidFails;
    DoomedKidFails(s.alwaysChild, AlwaysRest(s), log, fails);
  }

  /** The log of the always section does not get shorter when the play goes on after it. */
  lemma {:induction false} AlwaysLog(s: State, log: Log, failed: bool)
    requires InRange(s) && KidFit(s.alwaysChild)
    ensures var a := Finish(s.alwaysChild, AlwaysRest(s), [], NEVER).log;
            && log + a <= AlwaysMeaning(s, log, failed, NEVER).log
            && AlwaysMeaning(s, log, true, NEVER).log == log + a
  {
    hide Finish;
    FinishShift(s.alwaysChild, AlwaysRest(s), log);
    RunPlainBlocks(Later(s), Finish(s.alwaysChild, AlwaysRest(s), log, NEVER).log);
  }

  /** What the rescue section hands out comes before what the always section hands out. */
  lemma {:induction false} RescueLog(s: State)
    requires InRange(s) && KidFit(s.rescueChild) && KidFit(s.alwaysChild)
    ensures var r := Finish(s.rescueChild, RescueRest(s), [], NEVER).log;
            var a := Finish(s.alwaysChild, AlwaysRest(s), [], NEVER).log;
            r + a <= RescueMeaning(s, [], NEVER).log
  {
    hide Finish, AlwaysMeaning, KidFit;
    var r := Finish(s.rescueChild, RescueRest(s), [], NEVER);
    AlwaysLog(s, r.log, r.failed);
  }

  /** The flush interrupted the block section: always the same. */
  lemma {:induction false} LikeTasksFailure(s: State)
    requires Interrupts(s) && ResumeRun(s) == TASKS
    ensures LikeSectionFailure(s)
  {
    hide Ok, Meaning, FailHere, RescueMeaning, AlwaysMeaning;
    assert !s.fail.rescue by { TasksUnfailed(Back(s)); }
    forall log: Log, fails: Oracle
      ensures HandlerFailed(s, log, fails) == Meaning(FailHere(Back(s)), log, fails, None)
    {
      SectionFailure(s, log, fails);
    }
  }

  lemma {:induction false} TasksUnfailed(s: State)
    requires Ok(s) && s.run == TASKS
    ensures s.fail == NO_FAILURE
  {
  }

  /** It interrupted the rescue section: the same only if nothing is left of that, and the host fails anyway. */
  lemma {:induction false} LikeRescueFailure(s: State)
    requires Interrupts(s) && ResumeRun(s) == RESCUE
    ensures LikeSectionFailure(s) <==>
            Gone(s.rescueChild, RescueRest(s)) && (KidFails(s.rescueChild) || KidFails(s.alwaysChild))
  {
    hide Ok, Meaning, FailHere, AlwaysMeaning, KidFails, Finish, KidFit;
    assert TriesRescue(s) by { RescueTries(Back(s)); }
    if Gone(s.rescueChild, RescueRest(s)) && (KidFails(s.rescueChild) || KidFails(s.alwaysChild)) {
      forall log: Log, fails: Oracle
        ensures HandlerFailed(s, log, fails) == Meaning(FailHere(Back(s)), log, fails, None)
      {
        SectionFailure(s, log, fails);
        GoneAnyway(s.rescueChild, RescueRest(s), log, fails);
        if KidFails(s.alwaysChild) {
          AlwaysDoomed(s, log, fails);
        }
      }
    } else {
      SectionFailure(s, [], NEVER);
      RescueLog(s);
      RescueFails(s, []);
      AlwaysLog(s, [], true);
      AlwaysFails(s, [], true);
      assert HandlerFailed(s, [], NEVER) != Meaning(FailHere(Back(s)), [], NEVER, None);
    }
  }

  lemma {:induction false} RescueTries(s: State)
    requires Ok(s) && s.run == RESCUE
    ensures InRange(s) && Here(s).rescue != [] && !s.fail.rescue
  {
  }

  /** It interrupted the always section: the same only if nothing is left to hand out, and the host fails anyway. */
  lemma {:induction false} LikeAlwaysFailure(s: State)
    requires Interrupts(s) && ResumeRun(s) == ALWAYS
    ensures LikeSectionFailure(s) <==>
            && Gone(s.alwaysChild, AlwaysRest(s))
            && (TriesRescue(s) ==> Gone(None, RescueRest(s)) && KidFails(s.alwaysChild))
  {
    hide Ok, Meaning, FailHere, AlwaysMeaning, KidFails, Finish, KidFit;
    assert s.rescueChild.None?;
    if Gone(s.alwaysChild, AlwaysRest(s)) && (TriesRescue(s) ==> Gone(None, RescueRest(s)) && KidFails(s.alwaysChild)) {
      forall log: Log, fails: Oracle
        ensures HandlerFailed(s, log, fails) == Meaning(FailHere(Back(s)), log, fails, None)
      {
        SectionFailure(s, log, fails);
        if TriesRescue(s) {
          GoneAnyway(None, RescueRest(s), log, fails);
          AlwaysGone(s, log, Finish(None, RescueRest(s), log, fails).failed, fails);
        } else {
          AlwaysGone(s, log, true, fails);
        }
      }
    } else {
      SectionFailure(s, [], NEVER);
      RescueLog(s);
      RescueFails(s, []);
      AlwaysLog(s, [], true);
      NoKidFails();
      assert HandlerFailed(s, [], NEVER) != Meaning(FailHere(Back(s)), [], NEVER, None);
    }
  }

  lemma {:induction false} NoKidFails()
    ensures !KidFails(None)
  {
  }

  /** The exact condition, by the section that was interrupted. */
  predicate EndsLikeSection(s: State)
    requires InRange(s)
  {
    match ResumeRun(s)
    case RESCUE => Gone(s.rescueChild, RescueRest(s)) && (KidFails(s.rescueChild) || KidFails(s.alwaysChild))
    case ALWAYS =>
      && Gone(s.alwaysChild, AlwaysRest(s))
      && (TriesRescue(s) ==> Gone(None, RescueRest(s)) && KidFails(s.alwaysChild))
    case _ => true
  }

  /**
   A failed handler has the effect of a failure of the interrupted section, for every
   environment, exactly when that was the block section, or when nothing is left to hand out
   and the host fails anyway.
  */
  lemma {:induction false} LikeSectionFailureExactly(s: State)
    requires Interrupts(s) && InSection(Back(s))
    ensures LikeSectionFailure(s) <==> EndsLikeSection(s)
  {
    hide Interrupts, LikeSectionFailure, Gone, KidFails;
    assert ResumeRun(s) == TASKS || ResumeRun(s) == RESCUE || ResumeRun(s) == ALWAYS;
    if ResumeRun(s) == TASKS {
      LikeTasksFailure(s);
    } else if ResumeRun(s) == RESCUE {
      LikeRescueFailure(s);
    } else {
      LikeAlwaysFailure(s);
    }
  }

  // ---------------------------------------------------------------- is it forgiven?

  /** The host goes on as if the handler had succeeded. */
  ghost predicate Forgiven(s: State)
    requires InRange(s)
  {
    forall log: Log, fails: Oracle :: HandlerFailed(s, log, fails) == Meaning(Back(s), log, fails, None)
  }

  /** A handler that fails while the rescue section is interrupted is always forgiven. */
  lemma {:induction false} ForgivenInRescue(s: State)
    requires Interrupts(s) && ResumeRun(s) == RESCUE
    ensures Forgiven(s)
  {
    hide Ok, Meaning, AlwaysMeaning, RescueMeaning, SectionMeaning, KidFit;
    var b := Back(s);
    RescueTries(b);
    forall log: Log, fails: Oracle
      ensures HandlerFailed(s, log, fails) == Meaning(b, log, fails, None)
    {
      InSectionMeaning(b, log, fails, None);
      RescueSection(b, log, fails);
      SectionEndsAgree(s, b, TASKS, log, fails);
    }
  }

  /**
   One that fails while the always section is interrupted is forgiven exactly when the block had
   failed anyway, when its rescue section has nothing left to hand out (it was run before, say),
   or when there is none and a child of the always section has failed for good already.
  */
  lemma {:induction false} ForgivenInAlways(s: State)
    requires Interrupts(s) && ResumeRun(s) == ALWAYS
    ensures Forgiven(s) <==>
            || s.fail != NO_FAILURE
            || (if TriesRescue(s) then Gone(None, RescueRest(s)) else KidFails(s.alwaysChild))
  {
    hide Ok, Meaning, AlwaysMeaning, SectionMeaning, KidFails, Finish, KidFit;
    var b := Back(s);
    forall log: Log, fails: Oracle
      ensures Meaning(b, log, fails, None) == AlwaysMeaning(s, log, s.fail != NO_FAILURE, fails)
    {
      InSectionMeaning(b, log, fails, None);
      AlwaysOf(s, b, log, fails);
    }
    if s.fail != NO_FAILURE {
      assert !TriesRescue(s);
    } else if TriesRescue(s) {
      if Gone(None, RescueRest(s)) {
        forall log: Log, fails: Oracle
          ensures HandlerFailed(s, log, fails) == AlwaysMeaning(s, log, false, fails)
        {
          GoneAnyway(None, RescueRest(s), log, fails);
          NoKidFails();
        }
      } else {
        RescueLongerLog(s);
        assert HandlerFailed(s, [], NEVER) != Meaning(b, [], NEVER, None);
      }
    } else if KidFails(s.alwaysChild) {
      forall log: Log, fails: Oracle
        ensures HandlerFailed(s, log, fails) == AlwaysMeaning(s, log, false, fails)
      {
        AlwaysDoomed(s, log, fails);
      }
    } else {
      AlwaysFails(s, [], true);
      AlwaysFails(s, [], false);
      assert HandlerFailed(s, [], NEVER) != Meaning(b, [], NEVER, None);
    }
  }

  lemma {:induction false} AlwaysOf(s: State, b: State, log: Log, fails: Oracle)
    requires InRange(s) && SameBeyond(s, b, RESCUE) && b.fail == s.fail
    ensures SectionMeaning(b, ALWAYS, log, fails) == AlwaysMeaning(s, log, s.fail != NO_FAILURE, fails)
  {
    hide Finish, SectionMeaning, AlwaysMeaning;
    if s.fail != NO_FAILURE {
      AlwaysAfterFailure(b, log, fails);
    } else {
      AlwaysSection(b, log, fails);
    }
    SectionEndsAgree(s, b, RESCUE, log, fails);
  }

  /** A rescue section that hands out something makes the whole run longer. */
  lemma {:induction false} RescueLongerLog(s: State)
    requires InRange(s) && KidFit(s.alwaysChild) && s.rescueChild.None? && !Gone(None, RescueRest(s))
    ensures |RescueMeaning(s, [], NEVER).log| > |AlwaysMeaning(s, [], false, NEVER).log|
  {
    hide Finish, AlwaysMeaning;
    var r := Finish(None, RescueRest(s), [], NEVER);
    FinishFails(None, RescueRest(s), []);
    NoKidFails();
    AlwaysShift(s, r.log, false);
  }

  // ---------------------------------------------------------------- is a rescue task next?

  /** No failure is underway from which the host could get to a rescue section without a new one. */
  predicate Unhurt(s: State) {
    s.run == ALWAYS || s.run == COMPLETE || (s.run == TASKS && KidFit(s.tasksChild) && !KidFails(s.tasksChild))
  }

  /** A child that is not doomed does not become so by a request, and is not reported as failed. */
  lemma {:induction false} KidStaysUndoomed(c: State, env: Env)
    requires Ok(c) && Settled(c) && Shaped(c) && c.run != SETUP && !Doomed(c)
    ensures var a := Next(c, env); Shaped(a.state) && !Doomed(a.state) && !CheckFailed(a.state)
  {
    hide Ok, Settled, Shaped, Doomed, Meaning, Next, SetFailed, CheckFailed;
    var a := Next(c, env);
    NextOk(c, env);
    NextShaped(c, env);
    assert Settled(a.state) by { NextSettled(c, env); }
    DoomedExactly(c, [], SetupTask(env));
    NextMeaning(c, env, [], NEVER);
    var log := if a.task.Some? then [] + [a.task.value] else [];
    DoomedExactly(a.state, log, SetupTask(env));
    ReportedExactly(a.state);
  }

  lemma {:induction false} FreshKid(b: Block)
    ensures KidFit(Some(Child(b))) && !KidFails(Some(Child(b)))
  {
    ChildOk(b);
    ChildShaped(b);
  }

  lemma {:induction false} UnhurtResume(s: State, a: Turn)
    requires Unhurt(s) && InSection(s) && AnswerOk(a)
    requires s.run == TASKS ==> Shaped(a.state) && !Doomed(a.state) && !CheckFailed(a.state)
    ensures Unhurt(Resume(s, a).state)
  {
    hide Ok, Shaped, Doomed, CheckFailed;
  }

  lemma {:induction false} UnhurtStart(s: State)
    requires Unhurt(s) && InSection(s) && InRange(s) && !Abandoned(s) && ActiveChild(s).None?
    ensures Unhurt(Start(s).state)
  {
    hide KidFit, KidFails, Child, CheckFailed;
    assert KidFit(None) && !KidFails(None) by { NoKid(); }
    if Position(s) < |Section(s)| && Section(s)[Position(s)].Nested? {
      FreshKid(Section(s)[Position(s)].body);
    }
  }

  lemma {:induction false} NoKid()
    ensures KidFit(None) && !KidFails(None)
  {
  }

  lemma {:induction false} UnhurtEntered(s: State)
    requires Unhurt(s) && InSection(s) && InRange(s)
    ensures var t := Entered(s);
            Unhurt(t) && InSection(t) && InRange(t) && ActiveChild(t) == ActiveChild(s) && t.run == s.run
  {
    hide KidFit, KidFails;
  }

  lemma {:induction false} UnhurtStep(s: State, env: Env)
    requires Ok(s) && Unhurt(s) && InRange(s) && s.run != COMPLETE
    ensures Unhurt(Step(s, env, Answer(s, env)).state)
  {
    hide Ok, Shaped, Doomed, CheckFailed, Next, Resume, Start, Entered, AnswerOk, Settled;
    UnhurtEntered(s);
    AnswersOk(s, env);
    if ActiveChild(s).Some? {
      ActiveChildOk(s);
      if s.run == TASKS {
        KidStaysUndoomed(s.tasksChild.value, env);
      }
      UnhurtResume(Entered(s), Answer(s, env).value);
    } else {
      EnteredOk(s);
      NotAbandoned(Entered(s));
      UnhurtStart(Entered(s));
    }
  }

  /** From there no request leads into a rescue section. */
  lemma {:induction false} UnhurtNext(s: State, env: Env)
    requires Ok(s) && Unhurt(s)
    ensures Next(s, env).state.run != RESCUE
    decreases Size(s, 1)
  {
    hide Ok, Size, Step, KidFit, KidFails, Next;
    if !InRange(s) {
      NextOutOfRange(s, env);
    } else if s.run == COMPLETE {
      NextComplete(s, env);
    } else {
      NextUnfold(s, env);
      AnswersOk(s, env);
      StepOk(s, env, Answer(s, env));
      UnhurtStep(s, env);
      if Step(s, env, Answer(s, env)).task.None? {
        StepShrinks(s, env, Answer(s, env), 1);
        UnhurtNext(Step(s, env, Answer(s, env)).state, env);
      }
    }
  }

  lemma {:induction false} NextOutOfRange(s: State, env: Env)
    requires !InRange(s)
    ensures Next(s, env) == Turn(s.(run := COMPLETE), None)
  {
  }

  lemma {:induction false} NextComplete(s: State, env: Env)
    requires s.run == COMPLETE
    ensures Next(s, env) == Turn(if InRange(s) then s else s.(run := COMPLETE), None)
  {
  }

  /** A request in a rescue section is answered with a task of that section exactly when it has one left. */
  lemma {:induction false} RescueNext(s: State, env: Env)
    requires Ok(s) && s.run == RESCUE && KidFit(s.rescueChild)
    ensures Next(s, env).task.Some? && Next(s, env).state.run == RESCUE <==> !Gone(s.rescueChild, RescueRest(s))
    decreases Size(s, 1), 1
  {
    hide Ok, Size, Next, Gone, KidFit;
    if s.rescueChild.Some? {
      RescueKidNext(s, env);
    } else {
      RescueOwnNext(s, env);
    }
  }

  lemma {:induction false} RescueKidNext(s: State, env: Env)
    requires Ok(s) && s.run == RESCUE && KidFit(s.rescueChild) && s.rescueChild.Some?
    ensures Next(s, env).task.Some? && Next(s, env).state.run == RESCUE <==> !Gone(s.rescueChild, RescueRest(s))
    decreases Size(s, 1), 0
  {
    hide Ok, Size, Next, Settled, Shaped, CheckFailed, Doomed, Meaning, RunTasks, Plain, FailHere;
    var c := s.rescueChild.value;
    var a := Next(c, env);
    RescueTries(s);
    NextUnfold(s, env);
    assert Entered(s) == s;
    AnswersOk(s, env);
    ActiveChildOk(s);
    SilentMeaning(c, env, [], NEVER);
    var k := Meaning(c, [], NEVER, None);
    RunPlain(RescueRest(s), k.log);
    if a.task.None? {
      DropChildOk(s);
      DropChildShrinks(s, 1);
      if CheckFailed(a.state) {
        RescueFailedNext(WithChild(s, None), env);
      } else {
        RescueNext(WithChild(s, None), env) by { NoKid(); }
      }
    }
  }

  lemma {:induction false} RescueFailedNext(s: State, env: Env)
    requires Ok(s) && s.run == RESCUE
    ensures Next(FailHere(s), env).state.run != RESCUE
  {
    hide Ok, Next;
    FailHereOk(s) by { RescueTries(s); }
    UnhurtNext(FailHere(s), env);
  }

  lemma {:induction false} RescueOwnNext(s: State, env: Env)
    requires Ok(s) && s.run == RESCUE && s.rescueChild.None?
    ensures Next(s, env).task.Some? && Next(s, env).state.run == RESCUE <==> !Gone(s.rescueChild, RescueRest(s))
    decreases Size(s, 1), 0
  {
    hide Ok, Size, Next, CheckFailed, Child, Plain, Meaning, RunTasks, RunBlock, Leave;
    RescueTries(s);
    var rest := RescueRest(s);
    NextUnfold(s, env);
    assert Entered(s) == s;
    NotAbandoned(s);
    NoKidFinish(rest, [], NEVER);
    StartShrinks(s, 1);
    StartOk(s);
    if s.curRescue >= |Here(s).rescue| {
      EmptyRest();
      assert rest == [];
      LeaveOk(s);
      UnhurtNext(Leave(s), env) by { LeaveRuns(s); }
    } else {
      RunTasksFrom(Here(s).rescue, s.curRescue, [], NEVER);
      match Here(s).rescue[s.curRescue]
      case Leaf(id) => RunPlain(From(Here(s).rescue, s.curRescue + 1), [] + [id]);
      case Nested(b) =>
        var u := WithChild(Advance(s), Some(Child(b)));
        ChildMeaning(b, [], NEVER);
        FreshKid(b);
        RescueNext(u, env);
    }
  }

  lemma {:induction false} EmptyRest()
    ensures RunTasks([], [], NEVER) == Outcome([], false)
  {
  }

  lemma {:induction false} LeaveRuns(s: State)
    requires s.run == RESCUE && InRange(s)
    ensures Leave(s).run == ALWAYS
  {
  }

  /**
   The next task after the failure of a handler is one of the rescue section exactly when the
   block has a rescue section that has not failed, and that section still has a task to hand
   out, counted from its cursor and its child.
  */
  lemma {:induction false} FailedHandlerRescues(s: State, env: Env)
    requires Interrupts(s)
    ensures var r := Next(SetFailed(s), env);
            r.task.Some? && r.state.run == RESCUE <==> TriesRescue(s) && !Gone(s.rescueChild, RescueRest(s))
  {
    hide Ok, Next, Gone, KidFit, SetFailed, CheckFailed;
    FailedFrame(s);
    SettleNext(s, env);
    SettleOk(s);
    var u := Settle(SetFailed(s));
    if u.run == RESCUE {
      RescueNext(u, env);
    } else {
      UnhurtNext(u, env);
      if TriesRescue(s) {
        GoneEmpty(s);
      }
    }
  }

  lemma {:induction false} GoneEmpty(s: State)
    requires InRange(s) && s.curRescue >= |Here(s).rescue| && s.rescueChild.None?
    ensures Gone(s.rescueChild, RescueRest(s))
  {
    NoKidFinish([], [], NEVER);
  }
}
