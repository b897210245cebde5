/**
 What every reachable cursor outside a flush satisfies, whatever the order of requests,
 failures and insertions, also after a handler has failed.
*/
module IteratorInvariants {
  import opened Basics
  import opened PlaySemantics
  import opened IteratorModel

  /** Between operations a cursor inside a section points at a block. */
  predicate Settled(s: State) {
    InSection(s) ==> InRange(s)
  }

  /** How the run state and the failure bits go together; a rescue section follows a failed task or handler. */
  predicate FlagsOk(s: State) {
    match s.run
    case SETUP => s.fail == NO_FAILURE && !s.didRescue
    case TASKS => s.fail == NO_FAILURE && !s.didRescue
    case RESCUE =>
      && (s.fail.tasks || s.fail.handlers) && !s.fail.setup && !s.fail.rescue && !s.fail.always
      && !s.didRescue && InRange(s) && Here(s).rescue != []
    case ALWAYS => !s.fail.setup && !s.fail.always && (s.didRescue ==> s.fail == NO_FAILURE) && InRange(s)
    case HANDLERS => false
    case COMPLETE => s.didRescue && s.fail != NO_FAILURE ==> s.fail.always
  }

  /** All cursors stay within their lists. */
  predicate CursorsIn(s: State) {
    && s.curBlock <= |s.blocks|
    && (!InRange(s) ==> s.tasksChild.None? && s.rescueChild.None?)
    && (InRange(s) ==>
          s.curTask <= |Here(s).block| && s.curRescue <= |Here(s).rescue| && s.curAlways <= |Here(s).always|)
  }

  /** The invariant the iterator relies on, at every level of the tree of cursors. */
  predicate Ok(s: State)
    decreases s
  {
    && FlagsOk(s)
    && CursorsIn(s)
    && (s.alwaysChild.Some? ==> InRange(s) && Here(s).always != [])
    && ChildrenOk(s)
  }

  predicate ChildrenOk(s: State)
    decreases s, 0
  {
    KidOk(s.tasksChild) && KidOk(s.rescueChild) && KidOk(s.alwaysChild)
  }

  predicate KidOk(c: Option<State>)
    decreases c
  {
    c.Some? ==> Ok(c.value) && Settled(c.value) && c.value.run != SETUP
  }

  /** A state a task was just handed out from. */
  predicate Live(s: State) {
    (s.run == SETUP || InSection(s)) && Settled(s) && !CheckFailed(s)
  }

  /** What a state promises about its next turn `r`. */
  predicate TurnOk(from: State, r: Turn) {
    && Ok(r.state)
    && (r.task.Some? ==> Live(r.state))
    && (from.run != SETUP ==> r.state.run != SETUP)
  }

  /** What a child answers. */
  predicate AnswerOk(a: Turn) {
    && Ok(a.state) && a.state.run != SETUP
    && if a.task.Some? then Live(a.state) else a.state.run == COMPLETE
  }

  lemma {:induction false} FailHereOk(s: State)
    requires Ok(s) && Settled(s)
    ensures Ok(FailHere(s)) && Settled(FailHere(s))
  {
    hide KidOk;
  }

  lemma {:induction false} WithChildOk(s: State, c: State)
    requires Ok(s) && InSection(s) && InRange(s)
    requires Ok(c) && Settled(c) && c.run != SETUP
    requires s.run == ALWAYS ==> Here(s).always != []
    ensures Ok(WithChild(s, Some(c)))
  {
  }

  lemma {:induction false} DropChildOk(s: State)
    requires Ok(s) && InSection(s)
    ensures Ok(WithChild(s, None))
  {
  }

  lemma {:induction false} ResumeOk(s: State, a: Turn)
    requires Ok(s) && InSection(s) && InRange(s) && ActiveChild(s).Some? && AnswerOk(a)
    ensures TurnOk(s, Resume(s, a))
  {
    hide ChildrenOk;
    DropChildOk(s);
    FailHereOk(WithChild(s, None));
    if a.task.Some? {
      WithChildOk(s, a.state);
    }
  }

  lemma {:induction false} ChildOk(b: Block)
    ensures Ok(Child(b)) && Settled(Child(b))
  {
  }

  lemma {:induction false} LeaveOk(s: State)
    requires Ok(s) && InSection(s) && InRange(s) && ActiveChild(s).None?
    ensures TurnOk(s, Turn(Leave(s), None))
  {
  }

  lemma {:induction false} AdvanceOk(s: State)
    requires Ok(s) && InSection(s) && InRange(s) && ActiveChild(s).None?
    requires Position(s) < |Section(s)|
    ensures Ok(Advance(s)) && Live(Advance(s))
  {
  }

  lemma {:induction false} StartOk(s: State)
    requires Ok(s) && InSection(s) && InRange(s) && ActiveChild(s).None?
    ensures TurnOk(s, Start(s))
  {
    LeaveOk(s);
    if Position(s) < |Section(s)| {
      AdvanceOk(s);
      if Section(s)[Position(s)].Nested? {
        var b := Section(s)[Position(s)].body;
        ChildOk(b);
        WithChildOk(Advance(s), Child(b));
      }
    }
  }

  lemma {:induction false} StepOk(s: State, env: Env, answer: Option<Turn>)
    requires Ok(s) && InRange(s) && s.run != COMPLETE
    requires answer.Some? <==> ActiveChild(s).Some?
    requires answer.Some? ==> AnswerOk(answer.value)
    ensures TurnOk(s, Step(s, env, answer))
  {
    if s.run == SETUP {
    } else if answer.Some? {
      ResumeOk(Entered(s), answer.value);
    } else {
      StartOk(Entered(s));
    }
  }

  /** What the active child of `s`, if any, says when it is asked for a task. */
  function Answer(s: State, env: Env): Option<Turn> {
    match ActiveChild(s)
    case None => None
    case Some(c) => Some(Next(c, env))
  }

  /** The loop, read as a recursion over its turns. */
  lemma {:induction false} NextUnfold(s: State, env: Env)
    requires InRange(s) && s.run != COMPLETE
    ensures Next(s, env) ==
            var r := Step(s, env, Answer(s, env));
            if r.task.Some? then r else Next(r.state, env)
  {
  }

  lemma {:induction false} OkNotHandlers(s: State)
    requires Ok(s)
    ensures s.run != HANDLERS
  {
  }

  lemma {:induction false} ActiveChildOk(s: State)
    requires Ok(s) && ActiveChild(s).Some?
    ensures Ok(ActiveChild(s).value) && Settled(ActiveChild(s).value) && ActiveChild(s).value.run != SETUP
  {
    assert KidOk(ActiveChild(s));
  }

  /**
   Asking for a task keeps the invariant.  A task is only ever handed out from a tree that is
   not failed, and no task means that the host is done.
  */
  lemma {:induction false} NextOk(s: State, env: Env)
    requires Ok(s)
    ensures TurnOk(s, Next(s, env))
    ensures Next(s, env).task.None? ==> Next(s, env).state.run == COMPLETE
    decreases Size(s, 1), 1
  {
    hide Size, Step, CheckFailed;
    if !InRange(s) {
      assert Ok(s.(run := COMPLETE));
    } else if s.run != COMPLETE {
      var answer := Answer(s, env);
      AnswersOk(s, env);
      StepOk(s, env, answer);
      NextUnfold(s, env);
      if Step(s, env, answer).task.None? {
        StepShrinks(s, env, answer, 1);
        NextOk(Step(s, env, answer).state, env);
      }
    }
  }

  lemma {:induction false} AnswersOk(s: State, env: Env)
    requires Ok(s) && InRange(s)
    ensures Answer(s, env).Some? ==> AnswerOk(Answer(s, env).value)
    decreases Size(s, 1), 0
  {
    hide Next, Size, Settled, CheckFailed;
    if ActiveChild(s).Some? {
      ActiveChildOk(s);
      ActiveChildShrinks(s, 1);
      NextOk(ActiveChild(s).value, env);
    }
  }

  // ---------------------------------------------------------------- failures and insertions

  /** A failure, whenever it is reported, keeps the invariant. */
  lemma {:induction false} SetFailedOk(s: State)
    requires Ok(s) && Settled(s)
    ensures Ok(SetFailed(s)) && Settled(SetFailed(s)) && (s.run != SETUP ==> SetFailed(s).run != SETUP)
    decreases s
  {
    hide FlagsOk, CheckFailed;
    if ActiveChild(s).Some? {
      var c := ActiveChild(s).value;
      ActiveChildOk(s);
      SetFailedOk(c);
      WithChildOk(s, SetFailed(c));
    } else {
      FailHereOk(s);
    }
  }

  lemma {:induction false} InsertHereOk(s: State, ts: seq<Task>)
    requires Ok(s) && InSection(s) && InRange(s) && ActiveChild(s).None?
    ensures Ok(InsertHere(s, ts)) && Settled(InsertHere(s, ts))
  {
  }

  lemma {:induction false} InsertOk(s: State, ts: seq<Task>)
    requires Ok(s) && Settled(s)
    ensures Ok(Insert(s, ts)) && Settled(Insert(s, ts)) && Insert(s, ts).run == s.run
    decreases s
  {
    hide CheckFailed;
    if ActiveChild(s).Some? && ts != [] && !(s.fail != NO_FAILURE && s.run == TASKS) {
      var c := ActiveChild(s).value;
      ActiveChildOk(s);
      InsertOk(c, ts);
      WithChildOk(s, Insert(c, ts));
    } else if InSection(s) && ActiveChild(s).None? {
      InsertHereOk(s, ts);
    }
  }

  // ---------------------------------------------------------------- whole runs

  /** What the strategy does to a host during a play without handlers. */
  datatype Event = Ask(env: Env) | Fail | Add(tasks: seq<Task>)

  function After(s: State, e: Event): State {
    match e
    case Ask(env) => Next(s, env).state
    case Fail => SetFailed(s)
    case Add(ts) => Insert(s, ts)
  }

  function Run(s: State, es: seq<Event>): State
    decreases |es|
  {
    if es == [] then s else Run(After(s, es[0]), es[1..])
  }

  /** The tasks handed out during a run. */
  function HandedOut(s: State, es: seq<Event>): Log
    decreases |es|
  {
    if es == [] then []
    else
      var now := if es[0].Ask? && Next(s, es[0].env).task.Some? then [Next(s, es[0].env).task.value] else [];
      now + HandedOut(After(s, es[0]), es[1..])
  }

  lemma {:induction false} AfterOk(s: State, e: Event)
    requires Ok(s) && Settled(s)
    ensures Ok(After(s, e)) && Settled(After(s, e))
  {
    hide Ok, Next, SetFailed, Insert;
    match e
    case Ask(env) => NextOk(s, env);
    case Fail => SetFailedOk(s);
    case Add(ts) => InsertOk(s, ts);
  }

  /** The invariant holds after every sequence of requests, failures and insertions. */
  lemma {:induction false} RunOk(s: State, es: seq<Event>)
    requires Ok(s) && Settled(s)
    ensures Ok(Run(s, es)) && Settled(Run(s, es))
    decreases |es|
  {
    hide Ok, After;
    if es != [] {
      AfterOk(s, es[0]);
      RunOk(After(s, es[0]), es[1..]);
    }
  }

  lemma {:induction false} InitialOk(blocks: seq<Block>)
    ensures Ok(Initial(blocks)) && Settled(Initial(blocks))
  {
  }
}
