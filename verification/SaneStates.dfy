/**
 The weaker condition under which the iterator's operations are defined at all.  Unlike the
 invariant `Ok` it also covers hosts that are flushing handlers or have failed one.
*/
module SaneStates {
  import opened Basics
  import opened PlaySemantics
  import opened IteratorModel
  import opened IteratorInvariants

  predicate Sane(s: State) {
    && ChildrenOk(s)
    && (s.tasksChild.Some? || s.rescueChild.Some? || s.alwaysChild.Some? ==> InRange(s))
    && (s.run == HANDLERS ==> s.preFlush.Some? && s.preFlush.value != HANDLERS)
  }

  /** Between operations: a cursor that may be failed or inserted at points at a block. */
  predicate Parked(s: State) {
    InSection(s) || s.run == HANDLERS ==> InRange(s)
  }

  lemma {:induction false} OkSane(s: State)
    requires Ok(s)
    ensures Sane(s) && (Settled(s) ==> Parked(s))
  {
    hide ChildrenOk;
  }

  lemma {:induction false} ActiveChildSane(s: State)
    requires Sane(s) && ActiveChild(s).Some?
    ensures var c := ActiveChild(s).value;
            Ok(c) && Settled(c) && c.run != SETUP && Sane(c) && Parked(c) && InRange(s)
  {
    assert KidOk(ActiveChild(s));
    OkSane(ActiveChild(s).value);
  }

  lemma {:induction false} SameKidsSane(s: State, t: State)
    requires Sane(s) && t.tasksChild == s.tasksChild && t.rescueChild == s.rescueChild && t.alwaysChild == s.alwaysChild
    requires InRange(s) ==> InRange(t)
    requires t.run == HANDLERS ==> t.preFlush.Some? && t.preFlush.value != HANDLERS
    ensures Sane(t)
  {
    hide KidOk;
  }

  lemma {:induction false} WithChildSane(s: State, c: Option<State>)
    requires Sane(s) && InSection(s) && InRange(s) && KidOk(c)
    ensures Sane(WithChild(s, c)) && Parked(WithChild(s, c))
  {
    hide KidOk;
  }

  lemma {:induction false} NoKidsSane(s: State)
    requires s.tasksChild.None? && s.rescueChild.None? && s.alwaysChild.None? && s.run != HANDLERS
    ensures Sane(s)
  {
  }

  lemma {:induction false} FailHereSane(s: State)
    requires Sane(s)
    ensures Sane(FailHere(s)) && Parked(FailHere(s))
  {
    hide ChildrenOk;
    SameKidsSane(s, FailHere(s));
  }

  lemma {:induction false} SetFailedSane(s: State)
    requires Sane(s) && Parked(s)
    ensures Sane(SetFailed(s)) && Parked(SetFailed(s))
  {
    hide Sane, FailHere, WithChild;
    if ActiveChild(s).Some? {
      var c := ActiveChild(s).value;
      ActiveChildSane(s);
      SetFailedOk(c);
      WithChildSane(s, Some(SetFailed(c)));
    } else {
      FailHereSane(s);
    }
  }

  lemma {:induction false} InsertSane(s: State, ts: seq<Task>)
    requires Sane(s) && Parked(s)
    ensures Sane(Insert(s, ts)) && Parked(Insert(s, ts))
  {
    hide Sane, WithChild;
    if ActiveChild(s).Some? {
      var c := ActiveChild(s).value;
      ActiveChildSane(s);
      InsertOk(c, ts);
      WithChildSane(s, Some(Insert(c, ts)));
    } else {
      SaneFlush(s);
      SameKidsSane(s, Insert(s, ts));
    }
  }

  lemma {:induction false} SaneFlush(s: State)
    requires Sane(s)
    ensures s.run == HANDLERS ==> s.preFlush.Some? && s.preFlush.value != HANDLERS
  {
  }

  lemma {:induction false} StartFlushSane(s: State)
    requires Sane(s) && s.run != HANDLERS && InRange(s)
    ensures Sane(StartFlush(s)) && Parked(StartFlush(s))
  {
    hide ChildrenOk;
    SameKidsSane(s, StartFlush(s));
  }

  /** What the active child of a sane state answers. */
  lemma {:induction false} AnswersSane(s: State, env: Env)
    requires Sane(s)
    ensures Answer(s, env).Some? ==> AnswerOk(Answer(s, env).value)
  {
    hide Sane, Next, CheckFailed;
    if ActiveChild(s).Some? {
      ActiveChildSane(s);
      NextOk(ActiveChild(s).value, env);
    }
  }

  lemma {:induction false} ResumeSane(s: State, a: Turn)
    requires Sane(s) && InSection(s) && InRange(s) && AnswerOk(a)
    ensures Sane(Resume(s, a).state) && Parked(Resume(s, a).state)
  {
    hide Sane, FailHere, WithChild, CheckFailed, Parked;
    WithChildSane(s, None);
    FailHereSane(WithChild(s, None));
    if a.task.Some? {
      WithChildSane(s, Some(a.state));
    }
  }

  lemma {:induction false} StartSane(s: State)
    requires Sane(s) && InSection(s) && InRange(s)
    ensures Sane(Start(s).state) && (Start(s).task.Some? ==> Parked(Start(s).state))
  {
    hide Sane, CheckFailed, KidOk;
    if Abandoned(s) || Position(s) >= |Section(s)| {
      if s.run == ALWAYS && s.fail == NO_FAILURE {
        NoKidsSane(Leave(s));
      } else {
        SameKidsSane(s, Leave(s));
      }
    } else {
      SameKidsSane(s, Advance(s));
      if Section(s)[Position(s)].Nested? {
        var b := Section(s)[Position(s)].body;
        ChildKid(b);
        WithChildSane(Advance(s), Some(Child(b)));
      }
    }
  }

  lemma {:induction false} ChildKid(b: Block)
    ensures KidOk(Some(Child(b)))
  {
    ChildOk(b);
  }

  lemma {:induction false} SetupSane(s: State, env: Env)
    requires Sane(s) && s.run == SETUP
    ensures Sane(StepSetup(s, env).state) && (StepSetup(s, env).task.Some? ==> Parked(StepSetup(s, env).state))
  {
    hide Sane;
    var t := StepSetup(s, env).state;
    if s.pendingSetup && !s.didStartAt {
      NoKidsSane(t);
    } else {
      SameKidsSane(s, t);
    }
  }

  lemma {:induction false} HandlersSane(s: State, env: Env)
    requires Sane(s) && s.run == HANDLERS && InRange(s)
    ensures Sane(StepHandlers(s, env).state) && Parked(StepHandlers(s, env).state)
  {
    hide ChildrenOk;
    SameKidsSane(s, StepHandlers(s, env).state);
  }

  lemma {:induction false} EnteredSane(s: State)
    requires Sane(s) && InSection(s) && InRange(s)
    ensures var t := Entered(s); Sane(t) && InSection(t) && InRange(t)
  {
    hide Sane;
    SameKidsSane(s, Entered(s));
  }

  lemma {:induction false} StepSane(s: State, env: Env, answer: Option<Turn>)
    requires Sane(s) && InRange(s) && s.run != COMPLETE
    requires answer.Some? ==> AnswerOk(answer.value)
    ensures Sane(Step(s, env, answer).state)
    ensures Step(s, env, answer).task.Some? ==> Parked(Step(s, env, answer).state)
  {
    hide Sane, Parked, AnswerOk, StepSetup, StepHandlers, Resume, Start, Entered;
    if s.run == SETUP {
      SetupSane(s, env);
    } else if s.run == HANDLERS {
      HandlersSane(s, env);
    } else {
      EnteredSane(s);
      if answer.Some? {
        ResumeSane(Entered(s), answer.value);
      } else {
        StartSane(Entered(s));
      }
    }
  }

  lemma {:induction false} NextSane(s: State, env: Env)
    requires Sane(s)
    ensures Sane(Next(s, env).state) && Parked(Next(s, env).state)
    ensures Next(s, env).task.None? ==> Next(s, env).state.run == COMPLETE
    decreases Size(s, 1)
  {
    hide Sane, Step, Size, Parked;
    if !InRange(s) {
      SameKidsSane(s, s.(run := COMPLETE));
      assert Parked(s.(run := COMPLETE)) by { CompleteParked(s.(run := COMPLETE)); }
    } else if s.run == COMPLETE {
      CompleteParked(s);
    } else {
      NextUnfold(s, env);
      var a := Answer(s, env);
      AnswersSane(s, env);
      StepSane(s, env, a);
      if Step(s, env, a).task.None? {
        StepShrinks(s, env, a, 1);
        NextSane(Step(s, env, a).state, env);
      }
    }
  }

  lemma {:induction false} CompleteParked(s: State)
    requires s.run == COMPLETE
    ensures Parked(s)
  {
  }
}
