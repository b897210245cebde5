/**
 Whole runs with any number of flushes, started wherever the host stands, and with handlers
 included while a flush runs.  As long as no handler fails, the flushes can be cut out of the
 run without a change to anything else.
*/
module HandlerRuns {
  import opened Basics
  import opened PlaySemantics
  import opened IteratorModel
  import opened IteratorInvariants
  import opened HandlerFlush

  datatype HostEvent = Do(event: Event) | Flush

  function AfterHost(s: State, e: HostEvent): State {
    match e
    case Do(event) => After(s, event)
    case Flush => StartFlush(s)
  }

  function HostRun(s: State, es: seq<HostEvent>): State
    decreases |es|
  {
    if es == [] then s else HostRun(AfterHost(s, es[0]), es[1..])
  }

  /** The request is answered with a handler. */
  predicate GivesHandler(s: State, env: Env) {
    Next(s, env).task.Some? && Next(s, env).state.run == HANDLERS
  }

  /** A flush is not started inside a flush, where the strategy raises an error, and no handler fails. */
  predicate Uneventful(s: State, e: HostEvent) {
    s.run == HANDLERS ==> e != Flush && e != Do(Fail)
  }

  predicate NoHandlerFails(s: State, es: seq<HostEvent>)
    decreases |es|
  {
    es != [] ==> Uneventful(s, es[0]) && NoHandlerFails(AfterHost(s, es[0]), es[1..])
  }

  /** The tasks handed out during the run, without the handlers. */
  function TaskLog(s: State, es: seq<HostEvent>): Log
    decreases |es|
  {
    if es == [] then []
    else
      var e := es[0];
      var now := if e.Do? && e.event.Ask? && Next(s, e.event.env).task.Some? && !GivesHandler(s, e.event.env)
                 then [Next(s, e.event.env).task.value] else [];
      now + TaskLog(AfterHost(s, e), es[1..])
  }

  /** What is left of an event when flushes are cut out: flushes, their handlers and what is included in them go. */
  function Kept(s: State, e: HostEvent): seq<Event> {
    match e
    case Flush => []
    case Do(Ask(env)) => if GivesHandler(s, env) then [] else [Ask(env)]
    case Do(Add(ts)) => if s.run == HANDLERS then [] else [Add(ts)]
    case Do(Fail) => [Fail]
  }

  function WithoutFlushes(s: State, es: seq<HostEvent>): seq<Event>
    decreases |es|
  {
    if es == [] then [] else Kept(s, es[0]) + WithoutFlushes(AfterHost(s, es[0]), es[1..])
  }

  /** `t` is `u` but for the handler fields, or it is flushing and was interrupted where `u` is. */
  predicate Mirrors(t: State, u: State) {
    && u.run != HANDLERS && !u.fail.handlers
    && (t.run == HANDLERS ==> t.preFlush == Some(u.run))
    && (t.run != HANDLERS ==> t.run == u.run)
    && t.(run := u.run) == Rebook(u, BookOf(t))
  }

  function BookOf(s: State): Book {
    Book(s.handlers, s.curHandler, s.preFlush, s.updateHandlers)
  }

  // ---------------------------------------------------------------- the handler bit

  /** The changes a step is made of leave the bit for failed handlers alone. */
  lemma {:induction false} PartsKeepHandlerBit(s: State, c: Option<State>)
    requires InSection(s) && InRange(s) && !s.fail.handlers
    ensures !FailHere(s).fail.handlers && !Leave(s).fail.handlers
    ensures var t := WithChild(s, c); InSection(t) && InRange(t) && !t.fail.handlers
    ensures var t := Advance(s); InSection(t) && InRange(t) && !t.fail.handlers
  {
    hide CheckFailed, FailHere, Leave;
    FailHereHandlerBit(s);
    LeaveHandlerBit(s);
  }

  lemma {:induction false} FailHereHandlerBit(s: State)
    requires s.run != HANDLERS && !s.fail.handlers
    ensures !FailHere(s).fail.handlers
  {
  }

  lemma {:induction false} LeaveHandlerBit(s: State)
    requires InSection(s) && InRange(s) && !s.fail.handlers
    ensures !Leave(s).fail.handlers
  {
    hide CheckFailed, NextBlock;
    if s.run == ALWAYS {
      NextBlockFail(s);
    }
  }

  lemma {:induction false} NextBlockFail(s: State)
    ensures NextBlock(s).fail == s.fail
  {
  }

  lemma {:induction false} StepKeepsHandlerBit(s: State, env: Env, a: Option<Turn>)
    requires InRange(s) && s.run != COMPLETE && s.run != HANDLERS && !s.fail.handlers
    ensures !Step(s, env, a).state.fail.handlers
  {
    hide CheckFailed, FailHere, WithChild, Leave, Advance, Section, Position, Abandoned, Child;
    if InSection(s) {
      var t := Entered(s);
      forall c: Option<State>
        ensures var u := WithChild(t, c); InSection(u) && InRange(u) && !u.fail.handlers
        ensures !Leave(t).fail.handlers && !Advance(t).fail.handlers && InSection(Advance(t)) && InRange(Advance(t))
      {
        PartsKeepHandlerBit(t, c);
      }
      PartsKeepHandlerBit(WithChild(t, None), None);
      if a.None? && Position(t) < |Section(t)| && Section(t)[Position(t)].Nested? {
        PartsKeepHandlerBit(Advance(t), Some(Child(Section(t)[Position(t)].body)));
      }
    }
  }

  lemma {:induction false} NextKeepsHandlerBit(s: State, env: Env)
    requires s.run != HANDLERS && !s.fail.handlers
    ensures !Next(s, env).state.fail.handlers && Next(s, env).state.run != HANDLERS
    decreases Size(s, 1)
  {
    hide Step, Size;
    if InRange(s) && s.run != COMPLETE {
      NextUnfold(s, env);
      var a := Answer(s, env);
      StepKeepsHandlerBit(s, env, a);
      StepIgnoresBook(s, env, a, Book([], 0, None, true));
      if Step(s, env, a).task.None? {
        StepShrinks(s, env, a, 1);
        NextKeepsHandlerBit(Step(s, env, a).state, env);
      }
    }
  }

  lemma {:induction false} FailKeepsHandlerBit(s: State)
    requires s.run != HANDLERS && !s.fail.handlers
    ensures !SetFailed(s).fail.handlers
  {
    hide CheckFailed, FailHere;
    FailHereHandlerBit(s);
  }

  lemma {:induction false} InsertKeepsHandlerBit(s: State, ts: seq<Task>)
    requires s.run != HANDLERS && !s.fail.handlers
    ensures !Insert(s, ts).fail.handlers
  {
    hide CheckFailed, Splice;
  }

  // ---------------------------------------------------------------- one event

  /** A request inside a flush: a handler, or what the interrupted host answers. */
  lemma {:induction false} FlushAsk(t: State, u: State, env: Env)
    requires Mirrors(t, u) && t.run == HANDLERS
    ensures var r := Next(t, env);
            if GivesHandler(t, env) then Mirrors(r.state, u)
            else r.task == Next(u, env).task && Mirrors(r.state, Next(u, env).state)
  {
    hide Next, CheckFailed;
    if !InRange(t) {
      OutOfRange(t, env);
      OutOfRange(u, env);
    } else {
      HandlersTurn(t, env);
      var r := StepHandlers(t, env);
      if r.task.None? {
        var b := BookOf(r.state);
        assert r.state == Rebook(u, b);
        NextIgnoresBook(u, env, b);
        NextKeepsHandlerBit(u, env);
      }
    }
  }

  lemma {:induction false} OutOfRange(s: State, env: Env)
    requires !InRange(s)
    ensures Next(s, env) == Turn(s.(run := COMPLETE), None)
  {
  }

  lemma {:induction false} HandlersTurn(t: State, env: Env)
    requires InRange(t) && t.run == HANDLERS
    ensures var r := StepHandlers(t, env); Next(t, env) == if r.task.Some? then r else Next(r.state, env)
  {
    hide StepHandlers;
    NextUnfold(t, env);
  }

  /** One event on a host with flushes, and what is kept of it on the host without. */
  lemma {:induction false} OneEvent(t: State, u: State, e: HostEvent)
    requires Mirrors(t, u) && Uneventful(t, e)
    ensures Mirrors(AfterHost(t, e), Run(u, Kept(t, e)))
    ensures TaskLog(t, [e]) == HandedOut(u, Kept(t, e))
  {
    hide Next, SetFailed, Insert, CheckFailed;
    OneKept(t, u, e);
    match e
    case Flush =>
    case Do(Ask(env)) =>
      if t.run == HANDLERS {
        FlushAsk(t, u, env);
      } else {
        NextIgnoresBook(u, env, BookOf(t));
        NextKeepsHandlerBit(u, env);
      }
    case Do(Fail) =>
      SetFailedBook(u, BookOf(t));
      FailKeepsHandlerBit(u);
    case Do(Add(ts)) =>
      if t.run == HANDLERS {
        InsertInFlush(t, ts);
      } else {
        InsertBook(u, ts, BookOf(t));
        InsertKeepsHandlerBit(u, ts);
      }
  }

  function GivenAt(s: State, e: Event): Log {
    if e.Ask? && Next(s, e.env).task.Some? then [Next(s, e.env).task.value] else []
  }

  lemma {:induction false} OneKept(t: State, u: State, e: HostEvent)
    ensures forall event :: Run(u, [event]) == After(u, event)
    ensures TaskLog(t, [e]) ==
            if e.Do? && e.event.Ask? && Next(t, e.event.env).task.Some? && !GivesHandler(t, e.event.env)
            then [Next(t, e.event.env).task.value] else []
    ensures forall event :: HandedOut(u, [event]) == GivenAt(u, event)
  {
    hide Next, After;
    assert [e][1..] == [];
    forall event
      ensures Run(u, [event]) == After(u, event) && HandedOut(u, [event]) == GivenAt(u, event)
    {
      assert [event][1..] == [];
    }
  }

  lemma {:induction false} InsertInFlush(t: State, ts: seq<Task>)
    requires t.run == HANDLERS
    ensures Insert(t, ts) == t.(handlers := Insert(t, ts).handlers)
  {
  }

  // ---------------------------------------------------------------- whole runs

  lemma {:induction false} MirrorRun(t: State, u: State, es: seq<HostEvent>)
    requires Mirrors(t, u) && NoHandlerFails(t, es)
    ensures Mirrors(HostRun(t, es), Run(u, WithoutFlushes(t, es)))
    ensures TaskLog(t, es) == HandedOut(u, WithoutFlushes(t, es))
    decreases |es|
  {
    hide Mirrors, AfterHost, Kept, Uneventful, GivesHandler, Next, After;
    if es != [] {
      var e := es[0];
      var kept, later := Kept(t, e), WithoutFlushes(AfterHost(t, e), es[1..]);
      OneEvent(t, u, e);
      MirrorRun(AfterHost(t, e), Run(u, kept), es[1..]);
      RunAppend(u, kept, later);
      HandedOutAppend(u, kept, later);
      FirstOfLog(t, es);
    }
  }

  lemma {:induction false} FirstOfLog(t: State, es: seq<HostEvent>)
    requires es != []
    ensures TaskLog(t, es) == TaskLog(t, [es[0]]) + TaskLog(AfterHost(t, es[0]), es[1..])
  {
    hide Next, AfterHost, GivesHandler;
    assert [es[0]][1..] == [];
  }

  /** The handler fields stay in order, whatever happens to the host. */
  lemma {:induction false} FieldsInOrder(s: State, es: seq<HostEvent>)
    requires BookOk(s)
    ensures BookOk(HostRun(s, es))
    decreases |es|
  {
    hide BookOk, Next, SetFailed, Insert, StartFlush;
    if es != [] {
      match es[0] {
        case Flush => BookKept(s, []);
        case Do(Ask(env)) => NextBookOk(s, env);
        case Do(Fail) => BookKept(s, []);
        case Do(Add(ts)) => BookKept(s, ts);
      }
      FieldsInOrder(AfterHost(s, es[0]), es[1..]);
    }
  }

  /**
   Flush transparency over whole runs.  However often and wherever handlers are flushed, and
   whatever is included in a flush, the host is given exactly the tasks, and ends in exactly the
   state but for the handler fields, that the run gives with all flushes cut out.
  */
  lemma {:induction false} FlushesCutOut(blocks: seq<Block>, es: seq<HostEvent>)
    requires NoHandlerFails(Initial(blocks), es)
    ensures var plain := WithoutFlushes(Initial(blocks), es);
            && TaskLog(Initial(blocks), es) == HandedOut(Initial(blocks), plain)
            && Mirrors(HostRun(Initial(blocks), es), Run(Initial(blocks), plain))
  {
    hide NoHandlerFails, WithoutFlushes, TaskLog, HandedOut, HostRun, Run;
    var s := Initial(blocks);
    assert Mirrors(s, s);
    MirrorRun(s, s, es);
  }
}
