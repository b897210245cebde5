/**
 The shape of the tree of cursors: at most one child state at every level, the one of the
 current section, so that the active state is always the one that handed out the last task.
*/
module IteratorShape {
  import opened Basics
  import opened PlaySemantics
  import opened IteratorModel
  import opened IteratorInvariants

  predicate Shaped(s: State)
    decreases s
  {
    && LevelShaped(s)
    && (ActiveChild(s).Some? ==> Shaped(ActiveChild(s).value))
  }

  /** Sections not yet reached are untouched, and only the current one has a child state. */
  predicate LevelShaped(s: State) {
    && !s.didStartAt
    && (s.tasksChild.Some? ==> s.run == TASKS)
    && (s.rescueChild.Some? ==> s.run == RESCUE)
    && (s.alwaysChild.Some? ==> s.run == ALWAYS)
    && (s.run == SETUP ==> s.curTask == 0 && s.curBlock == 0)
    && (s.run == SETUP || s.run == TASKS ==> s.curRescue == 0)
    && (s.run == SETUP || s.run == TASKS || s.run == RESCUE ==> s.curAlways == 0)
  }

  /** The task a state handed out last, if the state is the active one. */
  predicate HandedOutBy(s: State, env: Env, id: TaskId) {
    if s.run == SETUP then SetupTask(env) == Some(id)
    else InSection(s) && InRange(s) && 0 < Position(s) <= |Section(s)| && Section(s)[Position(s) - 1] == Leaf(id)
  }

  predicate TurnShaped(env: Env, r: Turn) {
    Shaped(r.state) && (r.task.Some? ==> HandedOutBy(Active(r.state), env, r.task.value))
  }

  lemma {:induction false} FailHereShaped(s: State)
    requires LevelShaped(s) && ActiveChild(s).None? && s.run != HANDLERS
    ensures Shaped(FailHere(s))
  {
  }

  lemma {:induction false} WithChildShaped(s: State, c: Option<State>)
    requires LevelShaped(s) && InSection(s) && (c.Some? ==> Shaped(c.value))
    ensures Shaped(WithChild(s, c)) && LevelShaped(WithChild(s, c))
    ensures ActiveChild(WithChild(s, c)) == c && WithChild(s, c).run == s.run
    ensures Active(WithChild(s, c)) == if c.Some? then Active(c.value) else WithChild(s, c)
  {
  }

  lemma {:induction false} ResumeShaped(s: State, a: Turn, env: Env)
    requires Shaped(s) && InSection(s) && AnswerOk(a) && TurnShaped(env, a)
    ensures TurnShaped(env, Resume(s, a))
  {
    hide LevelShaped, Shaped, FailHere, WithChild, CheckFailed, Ok;
    assert LevelShaped(s) by { ShapedLevel(s); }
    WithChildShaped(s, None);
    FailHereShaped(WithChild(s, None));
    WithChildShaped(s, Some(a.state));
  }

  lemma {:induction false} ShapedLevel(s: State)
    requires Shaped(s)
    ensures LevelShaped(s) && (ActiveChild(s).Some? ==> Shaped(ActiveChild(s).value))
  {
  }

  lemma {:induction false} LeaveShaped(s: State)
    requires Shaped(s) && InSection(s) && InRange(s) && ActiveChild(s).None?
    ensures Shaped(Leave(s))
  {
    hide CheckFailed;
  }

  lemma {:induction false} AdvanceShaped(s: State)
    requires Shaped(s) && InSection(s) && InRange(s) && ActiveChild(s).None? && Position(s) < |Section(s)|
    ensures LevelShaped(Advance(s)) && Shaped(Advance(s))
    ensures var t := Advance(s);
            && Active(t) == t && InSection(t) && InRange(t)
            && Position(t) == Position(s) + 1 && Section(t) == Section(s)
  {
  }

  lemma {:induction false} StartShaped(s: State, env: Env)
    requires Shaped(s) && InSection(s) && InRange(s) && ActiveChild(s).None?
    ensures TurnShaped(env, Start(s))
  {
    hide LevelShaped, Shaped, Leave, WithChild, CheckFailed, Advance, Section, Position, Active;
    if Abandoned(s) || Position(s) >= |Section(s)| {
      LeaveShaped(s);
    } else {
      AdvanceShaped(s);
      if Section(s)[Position(s)].Nested? {
        var b := Section(s)[Position(s)].body;
        ChildShaped(b);
        WithChildShaped(Advance(s), Some(Child(b)));
      }
    }
  }

  lemma {:induction false} ChildShaped(b: Block)
    ensures Shaped(Child(b))
  {
  }

  lemma {:induction false} SetupShaped(s: State, env: Env)
    requires Shaped(s) && s.run == SETUP
    ensures TurnShaped(env, StepSetup(s, env))
  {
  }

  lemma {:induction false} EnteredShaped(s: State)
    requires Shaped(s) && InSection(s)
    ensures var t := Entered(s);
            Shaped(t) && InSection(t) && ActiveChild(t) == ActiveChild(s) && (InRange(s) ==> InRange(t))
  {
  }

  lemma {:induction false} StepShaped(s: State, env: Env, answer: Option<Turn>)
    requires Ok(s) && Shaped(s) && InRange(s) && s.run != COMPLETE
    requires answer.Some? <==> ActiveChild(s).Some?
    requires answer.Some? ==> AnswerOk(answer.value) && TurnShaped(env, answer.value)
    ensures TurnShaped(env, Step(s, env, answer))
  {
    hide Ok, TurnShaped, Shaped, StepSetup, Resume, Start, Entered, ActiveChild;
    OkNotHandlers(s);
    if s.run == SETUP {
      SetupShaped(s, env);
    } else {
      EnteredShaped(s);
      if answer.Some? {
        ResumeShaped(Entered(s), answer.value, env);
      } else {
        StartShaped(Entered(s), env);
      }
    }
  }

  lemma {:induction false} CompleteShaped(s: State)
    requires Shaped(s) && Ok(s) && !InRange(s)
    ensures Shaped(s.(run := COMPLETE))
  {
    hide ChildrenOk;
  }

  /** Asking for a task keeps the shape, and the active state is the one that answered. */
  lemma {:induction false} NextShaped(s: State, env: Env)
    requires Ok(s) && Shaped(s)
    ensures TurnShaped(env, Next(s, env))
    decreases Size(s, 1)
  {
    hide Ok, Size, Step, Shaped, HandedOutBy, ActiveChild;
    if !InRange(s) {
      CompleteShaped(s);
    } else if s.run != COMPLETE {
      var answer := Answer(s, env);
      NextUnfold(s, env);
      AnswersOk(s, env);
      if ActiveChild(s).Some? {
        ActiveChildOk(s);
        ActiveChildShrinks(s, 1);
        ShapedLevel(s);
        NextShaped(ActiveChild(s).value, env);
      }
      StepShaped(s, env, answer);
      if Step(s, env, answer).task.None? {
        StepOk(s, env, answer);
        StepShrinks(s, env, answer, 1);
        NextShaped(Step(s, env, answer).state, env);
      }
    }
  }

  lemma {:induction false} SetFailedShaped(s: State)
    requires Ok(s) && Shaped(s)
    ensures Shaped(SetFailed(s))
    decreases s
  {
    hide Ok, FailHere, Shaped, LevelShaped, WithChild;
    OkNotHandlers(s);
    ShapedLevel(s);
    if ActiveChild(s).Some? {
      ActiveChildOk(s);
      SetFailedShaped(ActiveChild(s).value);
      WithChildShaped(s, Some(SetFailed(ActiveChild(s).value)));
    } else {
      FailHereShaped(s);
    }
  }

  lemma {:induction false} InsertShaped(s: State, ts: seq<Task>)
    requires Shaped(s)
    ensures Shaped(Insert(s, ts))
    decreases s
  {
    hide WithChild;
    if ActiveChild(s).Some? {
      InsertShaped(ActiveChild(s).value, ts);
      WithChildShaped(s, Some(Insert(ActiveChild(s).value, ts)));
    }
  }

  /** The whole invariant of a host's cursor, after any sequence of requests, failures and insertions. */
  lemma {:induction false} RunShaped(blocks: seq<Block>, es: seq<Event>)
    ensures Ok(Run(Initial(blocks), es)) && Settled(Run(Initial(blocks), es)) && Shaped(Run(Initial(blocks), es))
  {
    hide Ok, Settled, Shaped, Initial, Run;
    InitialOk(blocks);
    RunOk(Initial(blocks), es);
    InitialShaped(blocks);
    RunKeepsShape(Initial(blocks), es);
  }

  lemma {:induction false} InitialShaped(blocks: seq<Block>)
    ensures Shaped(Initial(blocks))
  {
  }

  lemma {:induction false} RunKeepsShape(s: State, es: seq<Event>)
    requires Ok(s) && Settled(s) && Shaped(s)
    ensures Shaped(Run(s, es))
    decreases |es|
  {
    hide Ok, Settled, Shaped, Next, SetFailed, Insert;
    if es != [] {
      match es[0] {
        case Ask(env) => NextShaped(s, env);
        case Fail => SetFailedShaped(s);
        case Add(ts) => InsertShaped(s, ts);
      }
      AfterOk(s, es[0]);
      RunKeepsShape(After(s, es[0]), es[1..]);
    }
  }
}
