/**
 The states a host can be in when flushes are started anywhere in a play and handlers may
 fail: what is proved of failed handlers holds wherever a run can get.
*/
module SteadyRuns {
  import opened Basics
  import opened PlaySemantics
  import opened IteratorModel
  import opened IteratorInvariants
  import opened IteratorRefinement
  import opened IteratorShape
  import opened HandlerFlush
  import opened HandlerRuns
  import opened RemainingWork
  import opened HandlerFailure

  /** What happens to a host.  A handler that fails is followed by a request before anything else. */
  datatype Deed = Plain(event: Event) | StartFlushing | HandlerFails(env: Env)

  function AfterDeed(s: State, d: Deed): State {
    match d
    case Plain(event) => After(s, event)
    case StartFlushing => StartFlush(s)
    case HandlerFails(env) => Next(SetFailed(s), env).state
  }

  /**
   A flush is started for a host that is not done and not in a flush; only then handlers fail, and
   only otherwise tasks.
  */
  predicate Possible(s: State, d: Deed) {
    match d
    case Plain(event) => event.Fail? ==> s.run != HANDLERS
    case StartFlushing => s.run != HANDLERS && s.run != COMPLETE && InRange(s)
    case HandlerFails(_) => s.run == HANDLERS
  }

  predicate AllPossible(s: State, ds: seq<Deed>)
    decreases |ds|
  {
    ds != [] ==> Possible(s, ds[0]) && AllPossible(AfterDeed(s, ds[0]), ds[1..])
  }

  function Deeds(s: State, ds: seq<Deed>): State
    decreases |ds|
  {
    if ds == [] then s else Deeds(AfterDeed(s, ds[0]), ds[1..])
  }

  predicate Steady(s: State) {
    if s.run == HANDLERS then Interrupts(s) else Ok(s) && Settled(s) && Resting(s)
  }

  // ---------------------------------------------------------------- requests outside flushes

  lemma {:induction false} FailHereRests(s: State)
    requires Resting(s) && Ok(s) && InSection(s) && ActiveChild(s).None?
    ensures Resting(FailHere(s))
  {
    hide KidFit, ChildrenOk;
  }

  lemma {:induction false} WithChildRests(s: State, c: Option<State>)
    requires Resting(s) && InSection(s) && KidFit(c)
    ensures var t := WithChild(s, c);
            && Resting(t) && InSection(t) && (InRange(s) ==> InRange(t))
            && ActiveChild(t) == c && t.run == s.run
  {
    hide KidFit;
  }

  lemma {:induction false} LeaveRests(s: State)
    requires Resting(s) && Ok(s) && InSection(s) && InRange(s) && ActiveChild(s).None?
    requires !Abandoned(s) && Position(s) >= |Section(s)|
    ensures Resting(Leave(s))
  {
    hide KidFit, ChildrenOk, CheckFailed;
    NoKid();
  }

  lemma {:induction false} AdvanceRests(s: State)
    requires Resting(s) && InSection(s) && InRange(s)
    ensures var t := Advance(s); Resting(t) && InSection(t) && InRange(t)
  {
    hide KidFit;
  }

  lemma {:induction false} EnteredRests(s: State)
    requires Resting(s) && InSection(s) && InRange(s)
    ensures var t := Entered(s);
            Resting(t) && InSection(t) && InRange(t) && ActiveChild(t) == ActiveChild(s)
  {
    hide KidFit;
  }

  lemma {:induction false} SetupRests(s: State, env: Env)
    requires Resting(s) && s.run == SETUP
    ensures var t := StepSetup(s, env).state; Resting(t)
  {
    hide KidFit;
    NoKid();
  }

  lemma {:induction false} ResumeRests(s: State, a: Turn)
    requires Resting(s) && Ok(s) && InSection(s) && InRange(s) && AnswerOk(a) && Shaped(a.state)
    ensures var t := Resume(s, a).state; Resting(t)
  {
    hide Resting, Ok, Shaped, CheckFailed, FailHere, WithChild;
    NoKid();
    WithChildRests(s, None);
    DropChildOk(s);
    FailHereRests(WithChild(s, None));
    if a.task.Some? {
      WithChildRests(s, Some(a.state));
    }
  }

  lemma {:induction false} StartRests(s: State)
    requires Resting(s) && Ok(s) && InSection(s) && InRange(s) && ActiveChild(s).None?
    ensures var t := Start(s).state; Resting(t)
  {
    hide Resting, Ok, CheckFailed, Leave, Advance, Child, WithChild;
    NotAbandoned(s);
    AdvanceRests(s);
    if Position(s) >= |Section(s)| {
      LeaveRests(s);
    } else if Section(s)[Position(s)].Nested? {
      FreshKid(Section(s)[Position(s)].body);
      WithChildRests(Advance(s), Some(Child(Section(s)[Position(s)].body)));
    }
  }

  lemma {:induction false} StepRests(s: State, env: Env)
    requires Resting(s) && Ok(s) && InRange(s) && s.run != COMPLETE
    ensures Resting(Step(s, env, Answer(s, env)).state)
  {
    hide Resting, Ok, Shaped, Next, Resume, Start, StepSetup, Entered, AnswerOk;
    OkNotHandlers(s);
    AnswersOk(s, env);
    if s.run == SETUP {
      SetupRests(s, env);
    } else {
      EnteredRests(s);
      EnteredOk(s);
      if ActiveChild(s).Some? {
        ActiveKidFit(s);
        NextShaped(ActiveChild(s).value, env);
        ResumeRests(Entered(s), Answer(s, env).value);
      } else {
        StartRests(Entered(s));
      }
    }
  }

  lemma {:induction false} ActiveKidFit(s: State)
    requires Resting(s) && ActiveChild(s).Some?
    ensures Ok(ActiveChild(s).value) && Shaped(ActiveChild(s).value)
  {
    hide Ok, Shaped;
  }

  lemma {:induction false} NextRests(s: State, env: Env)
    requires Resting(s) && Ok(s)
    ensures Resting(Next(s, env).state)
    decreases Size(s, 1)
  {
    hide Resting, Ok, Size, Step, Next;
    if !InRange(s) {
      NextOutOfRange(s, env);
      OutOfRangeRests(s);
    } else if s.run == COMPLETE {
      NextComplete(s, env);
    } else {
      NextUnfold(s, env);
      AnswersOk(s, env);
      StepOk(s, env, Answer(s, env));
      StepRests(s, env);
      if Step(s, env, Answer(s, env)).task.None? {
        StepShrinks(s, env, Answer(s, env), 1);
        NextRests(Step(s, env, Answer(s, env)).state, env);
      }
    }
  }

  lemma {:induction false} OutOfRangeRests(s: State)
    requires Resting(s) && Ok(s) && !InRange(s)
    ensures Resting(s.(run := COMPLETE))
  {
    hide KidFit, ChildrenOk;
  }

  // ---------------------------------------------------------------- failures, insertions, flushes

  lemma {:induction false} SetFailedRests(s: State)
    requires Resting(s) && Ok(s) && Settled(s)
    ensures Resting(SetFailed(s))
  {
    hide Resting, Ok, Shaped, FailHere, WithChild, SetFailed;
    SetFailedIs(s);
    OkNotHandlers(s);
    if ActiveChild(s).Some? {
      var c := ActiveChild(s).value;
      ActiveKidFit(s);
      ActiveChildOk(s);
      SetFailedOk(c);
      SetFailedShaped(c);
      WithChildRests(s, Some(SetFailed(c)));
    } else if InSection(s) {
      FailHereRests(s);
    } else {
      FailEarlyRests(s);
    }
  }

  lemma {:induction false} SetFailedIs(s: State)
    ensures SetFailed(s) ==
            if ActiveChild(s).Some? then WithChild(s, Some(SetFailed(ActiveChild(s).value))) else FailHere(s)
  {
  }

  lemma {:induction false} FailEarlyRests(s: State)
    requires Resting(s) && (s.run == SETUP || s.run == COMPLETE)
    ensures Resting(FailHere(s))
  {
    hide KidFit;
  }

  lemma {:induction false} InsertHereRests(s: State, ts: seq<Task>)
    requires Resting(s) && InSection(s) && InRange(s)
    ensures Resting(InsertHere(s, ts))
  {
    hide KidFit, Splice;
    var t := InsertHere(s, ts);
    assert Here(t) == t.blocks[s.curBlock];
  }

  lemma {:induction false} InsertRests(s: State, ts: seq<Task>)
    requires Resting(s) && Ok(s) && Settled(s)
    ensures Resting(Insert(s, ts))
  {
    hide Resting, Ok, Shaped, InsertHere, WithChild;
    OkNotHandlers(s);
    if ActiveChild(s).Some? {
      var c := ActiveChild(s).value;
      ActiveKidFit(s);
      ActiveChildOk(s);
      InsertOk(c, ts);
      assert Insert(c, ts).run != SETUP;
      InsertShaped(c, ts);
      WithChildRests(s, Some(Insert(c, ts)));
    } else if InSection(s) {
      InsertHereRests(s, ts);
    }
  }

  /** The handler fields are not part of the invariant. */
  lemma {:induction false} RebookSteady(s: State, b: Book)
    requires Ok(s) && Resting(s)
    ensures Ok(Rebook(s, b)) && Resting(Rebook(s, b)) && (Settled(s) ==> Settled(Rebook(s, b)))
  {
    hide KidFit, ChildrenOk;
    SameKidsOk(s, Rebook(s, b)) by { ItsKidsOk(s); }
  }

  lemma {:induction false} ItsKidsOk(s: State)
    requires Ok(s)
    ensures ChildrenOk(s)
  {
  }

  lemma {:induction false} StartFlushSteady(s: State)
    requires Ok(s) && Resting(s) && s.run != HANDLERS && s.run != COMPLETE && InRange(s)
    ensures Interrupts(StartFlush(s))
  {
    hide Ok, Resting;
    var t := StartFlush(s);
    assert Back(t) == Rebook(s, BookOf(t));
    RebookSteady(s, BookOf(t));
  }

  lemma {:induction false} InsertInFlushSteady(s: State, ts: seq<Task>)
    requires Interrupts(s)
    ensures Interrupts(Insert(s, ts))
  {
    hide Ok, Resting, Insert;
    InsertInFlush(s, ts);
    var t := Insert(s, ts);
    assert Back(t) == Rebook(Back(s), BookOf(t));
    RebookSteady(Back(s), BookOf(t));
  }

  // ---------------------------------------------------------------- requests during a flush

  /**
   A flush that is started while the failure of an earlier handler is still noted ends the host at
   once: it is reported as failed, before the next request and after it.
  */
  lemma {:induction false} FlushAfterFailure(s: State, env: Env)
    requires Interrupts(s) && s.fail.handlers
    ensures CheckFailed(s)
    ensures var r := Next(s, env);
            && r.task.None? && r.state.run == COMPLETE && CheckFailed(r.state)
            && Ok(r.state) && Settled(r.state) && Resting(r.state)
  {
    hide KidFit, ChildrenOk, Next;
    HandlersTurn(s, env);
    var t := StepHandlers(s, env).state;
    NextComplete(t, env);
    SameKidsOk(Back(s), t) by { ItsKidsOk(Back(s)); }
  }

  lemma {:induction false} FlushAskSteady(s: State, env: Env)
    requires Interrupts(s)
    ensures Steady(Next(s, env).state)
  {
    hide Ok, Resting, Next, Settled, CheckFailed;
    if s.fail.handlers {
      FlushAfterFailure(s, env);
    } else {
      HandlersTurn(s, env);
      var t := StepHandlers(s, env).state;
      var b := BookOf(t);
      RebookSteady(Back(s), b);
      if StepHandlers(s, env).task.Some? {
        assert Back(t) == Rebook(Back(s), b);
      } else {
        assert t == Rebook(Back(s), b);
        AskSteady(t, env);
      }
    }
  }

  lemma {:induction false} AskSteady(s: State, env: Env)
    requires Ok(s) && Resting(s)
    ensures Steady(Next(s, env).state)
  {
    hide Ok, Resting, Next, CheckFailed;
    NextOk(s, env);
    NextRests(s, env);
    OkNotHandlers(Next(s, env).state);
  }

  // ---------------------------------------------------------------- whole runs

  lemma {:induction false} DeedSteady(s: State, d: Deed)
    requires Steady(s) && Possible(s, d)
    ensures Steady(AfterDeed(s, d))
  {
    hide Ok, Resting, Settled, Interrupts, Next, SetFailed, Insert, StartFlush;
    match d
    case StartFlushing =>
      StartFlushSteady(s);
      assert StartFlush(s).run == HANDLERS by { FlushRuns(s); }
    case HandlerFails(env) => HandlerFailsSteady(s, env);
    case Plain(Ask(env)) =>
      if s.run == HANDLERS {
        FlushAskSteady(s, env);
      } else {
        AskSteady(s, env);
      }
    case Plain(Fail) =>
      SetFailedOk(s);
      SetFailedRests(s);
      OkNotHandlers(SetFailed(s));
    case Plain(Add(ts)) =>
      if s.run == HANDLERS {
        InsertInFlushSteady(s, ts);
        assert Insert(s, ts).run == HANDLERS by { InsertInFlush(s, ts); }
      } else {
        InsertOk(s, ts);
        InsertRests(s, ts);
      }
  }

  lemma {:induction false} FlushRuns(s: State)
    ensures StartFlush(s).run == HANDLERS
  {
  }

  lemma {:induction false} HandlerFailsSteady(s: State, env: Env)
    requires Interrupts(s)
    ensures Steady(Next(SetFailed(s), env).state)
  {
    hide Ok, Resting, Settled, Interrupts, Next, SetFailed, Settle;
    SettleOk(s);
    SettleNext(s, env);
    SettleRests(s);
    AskSteady(Settle(SetFailed(s)), env);
  }

  lemma {:induction false} SettleRests(s: State)
    requires Interrupts(s)
    ensures InRange(SetFailed(s)) && Resting(Settle(SetFailed(s)))
  {
    hide Ok, KidFit, SetFailed, CheckFailed, SameBeyond;
    FailedFrame(s);
    FailedFields(s);
    if Back(s).run == RESCUE {
      RescueTries(Back(s));
    }
    var t := SetFailed(s);
    assert Here(t) == Here(s);
    assert Settle(t) == t.(fail := Settle(t).fail, run := Settle(t).run, didRescue := Settle(t).didRescue);
  }

  /**
   Wherever a run of requests, failures, insertions, flushes and failed handlers gets, the host
   is in a state that the results about failed handlers speak of.
  */
  lemma {:induction false} SteadyEverywhere(blocks: seq<Block>, ds: seq<Deed>)
    requires AllPossible(Initial(blocks), ds)
    ensures Steady(Deeds(Initial(blocks), ds))
  {
    hide Steady, Initial, Deeds, AllPossible;
    assert Steady(Initial(blocks)) by { InitialSteady(blocks); }
    DeedsSteady(Initial(blocks), ds);
  }

  lemma {:induction false} InitialSteady(blocks: seq<Block>)
    ensures Steady(Initial(blocks))
  {
    InitialOk(blocks);
    NoKid();
  }

  lemma {:induction false} DeedsSteady(s: State, ds: seq<Deed>)
    requires Steady(s) && AllPossible(s, ds)
    ensures Steady(Deeds(s, ds))
    decreases |ds|
  {
    hide Steady, Possible, AfterDeed;
    if ds != [] {
      DeedSteady(s, ds[0]);
      DeedsSteady(AfterDeed(s, ds[0]), ds[1..]);
    }
  }
}
