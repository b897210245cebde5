/**
 Handler flushes.  A flush interrupts a host, hands out the notified handlers, and lets the
 host go on as if nothing had happened.  Which handlers are notified may change while the
 flush runs: a handler that ran is taken off, and a handler may notify others.
*/
module HandlerFlush {
  import opened Basics
  import opened PlaySemantics
  import opened IteratorModel
  import opened IteratorInvariants

  // ---------------------------------------------------------------- the bookkeeping of flushes

  /** The fields of a cursor that only flushes use. */
  datatype Book = Book(handlers: seq<TaskId>, cur: nat, pre: Option<RunState>, update: bool)

  /** `s` with other flush bookkeeping. */
  function Rebook(s: State, b: Book): State {
    s.(handlers := b.handlers, curHandler := b.cur, preFlush := b.pre, updateHandlers := b.update)
  }

  lemma {:induction false} RebookFrame(s: State, b: Book)
    ensures var t := Rebook(s, b);
            && CheckFailed(t) == CheckFailed(s) && ActiveChild(t) == ActiveChild(s) && t.run == s.run
            && Entered(t) == Rebook(Entered(s), b)
  {
  }

  lemma {:induction false} FailHereBook(s: State, b: Book)
    requires s.run != HANDLERS
    ensures FailHere(Rebook(s, b)) == Rebook(FailHere(s), b) && FailHere(s).run != HANDLERS
  {
  }

  lemma {:induction false} WithChildBook(s: State, c: Option<State>, b: Book)
    requires InSection(s)
    ensures WithChild(Rebook(s, b), c) == Rebook(WithChild(s, c), b) && WithChild(s, c).run == s.run
  {
  }

  lemma {:induction false} NextBlockBook(s: State, b: Book)
    ensures NextBlock(Rebook(s, b)).(didRescue := false) == Rebook(NextBlock(s).(didRescue := false), b)
  {
  }

  lemma {:induction false} LeaveBook(s: State, b: Book)
    requires InSection(s) && InRange(s)
    ensures Leave(Rebook(s, b)) == Rebook(Leave(s), b) && Leave(s).run != HANDLERS
  {
    hide CheckFailed, NextBlock;
    RebookFrame(s, b);
    if s.run == ALWAYS && s.fail == NO_FAILURE {
      NextBlockBook(s, b);
      assert Leave(s).run == TASKS by { NextBlockRuns(s); }
    }
  }

  lemma {:induction false} NextBlockRuns(s: State)
    ensures NextBlock(s).run == TASKS
  {
  }

  lemma {:induction false} SectionBook(s: State, b: Book)
    requires InSection(s) && InRange(s)
    ensures var t := Rebook(s, b);
            && Section(t) == Section(s) && Position(t) == Position(s) && Abandoned(t) == Abandoned(s)
            && Advance(t) == Rebook(Advance(s), b) && Advance(s).run == s.run
  {
    hide CheckFailed;
    RebookFrame(s, b);
  }

  lemma {:induction false} StepIgnoresBook(s: State, env: Env, a: Option<Turn>, b: Book)
    requires InRange(s) && s.run != COMPLETE && s.run != HANDLERS
    ensures var r := Step(s, env, a);
            Step(Rebook(s, b), env, a) == Turn(Rebook(r.state, b), r.task) && r.state.run != HANDLERS
  {
    hide CheckFailed, FailHere, WithChild, Leave, Advance, Section, Position, Abandoned, Entered;
    RebookFrame(s, b);
    if InSection(s) {
      var e := Entered(s);
      assert InSection(e) && InRange(e) && e.run == s.run by { EnteredFrame(s); }
      if a.Some? {
        WithChildBook(e, None, b);
        WithChildBook(e, Some(a.value.state), b);
        FailHereBook(WithChild(e, None), b);
      } else {
        LeaveBook(e, b);
        SectionBook(e, b);
        if Position(e) < |Section(e)| && Section(e)[Position(e)].Nested? {
          WithChildBook(Advance(e), Some(Child(Section(e)[Position(e)].body)), b);
        }
      }
    }
  }

  lemma {:induction false} EnteredFrame(s: State)
    requires InSection(s) && InRange(s)
    ensures InSection(Entered(s)) && InRange(Entered(s)) && Entered(s).run == s.run
  {
  }

  /** Outside a flush, what is handed out does not depend on earlier flushes. */
  lemma {:induction false} NextIgnoresBook(s: State, env: Env, b: Book)
    requires s.run != HANDLERS
    ensures var r := Next(s, env);
            Next(Rebook(s, b), env) == Turn(Rebook(r.state, b), r.task)
    decreases Size(s, 1)
  {
    hide Step, Size;
    var t := Rebook(s, b);
    if InRange(s) && s.run != COMPLETE {
      NextUnfold(s, env);
      NextUnfold(t, env);
      var a := Answer(s, env);
      assert Answer(t, env) == a by { RebookFrame(s, b); }
      StepIgnoresBook(s, env, a, b);
      if Step(s, env, a).task.None? {
        StepShrinks(s, env, a, 1);
        NextIgnoresBook(Step(s, env, a).state, env, b);
      }
    }
  }

  /** A host that is not in a flush will start the next one with the play's own handlers. */
  predicate BookOk(s: State) {
    s.run != HANDLERS && s.run != COMPLETE ==> s.updateHandlers
  }

  lemma {:induction false} NextBookOk(s: State, env: Env)
    requires BookOk(s)
    ensures BookOk(Next(s, env).state)
    decreases Size(s, 1)
  {
    hide Step, Size;
    if InRange(s) && s.run != COMPLETE {
      NextUnfold(s, env);
      var a := Answer(s, env);
      StepBookOk(s, env, a);
      if Step(s, env, a).task.None? {
        StepShrinks(s, env, a, 1);
        NextBookOk(Step(s, env, a).state, env);
      }
    }
  }

  lemma {:induction false} StepBookOk(s: State, env: Env, a: Option<Turn>)
    requires BookOk(s) && InRange(s) && s.run != COMPLETE
    ensures BookOk(Step(s, env, a).state)
  {
    hide CheckFailed;
  }

  /** Failures, insertions and the start of a flush keep the bookkeeping in order. */
  lemma {:induction false} BookKept(s: State, ts: seq<Task>)
    requires BookOk(s)
    ensures BookOk(SetFailed(s)) && BookOk(Insert(s, ts)) && BookOk(StartFlush(s))
  {
  }

  // ---------------------------------------------------------------- the flush itself

  /**
   The handlers given out when the list `hs` is gone through once, in order, and the handler
   notified sets at the successive requests are `ns`.
  */
  function Flushed(hs: seq<TaskId>, ns: seq<set<TaskId>>): Log
    decreases |hs|
  {
    if hs == [] || ns == [] then []
    else if hs[0] in ns[0] then [hs[0]] + Flushed(hs[1..], ns[1..])
    else Flushed(hs[1..], ns)
  }

  function Notified(envs: seq<Env>): (ns: seq<set<TaskId>>)
    ensures |ns| == |envs|
  {
    if envs == [] then [] else [envs[0].notified] + Notified(envs[1..])
  }

  function Asks(envs: seq<Env>): (es: seq<Event>)
    ensures |es| == |envs|
  {
    if envs == [] then [] else [Ask(envs[0])] + Asks(envs[1..])
  }

  /** A state in the middle of a flush that no handler has failed. */
  predicate Flushing(s: State) {
    s.run == HANDLERS && InRange(s) && !s.fail.handlers && !s.updateHandlers
    && s.preFlush.Some? && s.preFlush.value != HANDLERS
  }

  /** The interrupted state, as it is when the flush is over. */
  function Interrupted(s: State): State {
    s.(run := ResumeRun(s), curHandler := Max(s.curHandler, |s.handlers|), updateHandlers := true)
  }

  function Max(a: nat, b: nat): nat {
    if a < b then b else a
  }

  lemma {:induction false} NextNotifiedIs(hs: seq<TaskId>, n: nat, ns: seq<set<TaskId>>)
    requires ns != []
    ensures var m := NextNotified(hs, n, ns[0]);
            && n <= m
            && (m < |hs| ==> Flushed(From(hs, n), ns) == [hs[m]] + Flushed(From(hs, m + 1), ns[1..]))
            && (m >= |hs| ==> Flushed(From(hs, n), ns) == [] && m == Max(n, |hs|))
    decreases |hs| - n
  {
    if n < |hs| {
      assert From(hs, n)[1..] == From(hs, n + 1);
      if hs[n] !in ns[0] {
        NextNotifiedIs(hs, n + 1, ns);
      }
    }
  }

  lemma {:induction false} ScanStep(s: State, env: Env)
    requires Flushing(s)
    ensures var m := NextNotified(s.handlers, s.curHandler, env.notified);
            Next(s, env) ==
            if m < |s.handlers| then Turn(s.(curHandler := m + 1), Some(s.handlers[m]))
            else Next(s.(curHandler := m, updateHandlers := true, run := ResumeRun(s)), env)
  {
    hide Resume, Start;
    NextUnfold(s, env);
  }

  /**
   A flush that no handler fails: the requests are answered with the handlers of the list, in
   order, each once and each if it is notified when its turn comes; the first request after
   the last of them is answered exactly as it would have been without the flush.
  */
  lemma {:induction false} FlushRun(s: State, envs: seq<Env>)
    requires Flushing(s)
    ensures var given := Flushed(From(s.handlers, s.curHandler), Notified(envs));
            var k := |given|;
            && k <= |envs|
            && HandedOut(s, Asks(envs[..k])) == given
            && Flushing(Run(s, Asks(envs[..k])))
            && (k < |envs| ==> Next(Run(s, Asks(envs[..k])), envs[k]) == Next(Interrupted(s), envs[k]))
    decreases |envs|
  {
    hide Next, SetFailed, Insert, CheckFailed, NextNotified, Flushed, From, Asks;
    NoHandlerLeft(From(s.handlers, s.curHandler));
    if envs != [] {
      ScanStep(s, envs[0]);
      var m := NextNotified(s.handlers, s.curHandler, envs[0].notified);
      NextNotifiedIs(s.handlers, s.curHandler, Notified(envs));
      assert Notified(envs)[1..] == Notified(envs[1..]);
      if m < |s.handlers| {
        var t := s.(curHandler := m + 1);
        FlushRun(t, envs[1..]);
        var rest := Flushed(From(t.handlers, t.curHandler), Notified(envs[1..]));
        AsksPrefix(envs, |rest|);
        assert Interrupted(t) == Interrupted(s);
      } else {
        assert envs[..0] == [];
        assert s.(curHandler := m, updateHandlers := true, run := ResumeRun(s)) == Interrupted(s);
      }
    }
  }

  lemma {:induction false} NoHandlerLeft(hs: seq<TaskId>)
    ensures Flushed(hs, []) == [] && Asks([]) == [] && Notified([]) == []
  {
  }

  lemma {:induction false} AsksPrefix(envs: seq<Env>, n: nat)
    requires envs != [] && n < |envs|
    ensures Asks(envs[..n + 1]) == [Ask(envs[0])] + Asks(envs[1..][..n])
    ensures Asks(envs[..n + 1])[1..] == Asks(envs[1..][..n])
  {
    assert envs[..n + 1][1..] == envs[1..][..n];
  }

  lemma {:induction false} FirstRefresh(s: State, env: Env)
    requires Ok(s) && InRange(s) && BookOk(s) && s.run != COMPLETE && !s.fail.handlers
    ensures var f := Rebook(StartFlush(s), Book(env.handlers, 0, Some(s.run), false));
            Flushing(f) && Next(StartFlush(s), env) == Next(f, env)
  {
    hide Resume, Start, ChildrenOk;
    var f := Rebook(StartFlush(s), Book(env.handlers, 0, Some(s.run), false));
    NextUnfold(StartFlush(s), env);
    NextUnfold(f, env);
  }

  /**
   Flush transparency for a whole flush, from its start in any unfinished state of the host.
   The list of handlers is the play's at the first request, so handlers included during an
   earlier flush are gone.  `k` is the number of handlers run, and request number `k` is the
   first one after the flush.
  */
  lemma {:induction false} FlushIsTransparent(s: State, envs: seq<Env>)
    requires Ok(s) && InRange(s) && BookOk(s) && s.run != COMPLETE && !s.fail.handlers && envs != []
    ensures var given := Flushed(envs[0].handlers, Notified(envs));
            var k := |given|;
            && k <= |envs|
            && HandedOut(StartFlush(s), Asks(envs[..k])) == given
            && (k < |envs| ==>
                  var plain := Next(s, envs[k]);
                  Next(Run(StartFlush(s), Asks(envs[..k])), envs[k]) ==
                  Turn(Rebook(plain.state, Book(envs[0].handlers, |envs[0].handlers|, Some(s.run), true)), plain.task))
  {
    hide Next, Ok;
    var hs := envs[0].handlers;
    var f := Rebook(StartFlush(s), Book(hs, 0, Some(s.run), false));
    FirstRefresh(s, envs[0]);
    FlushRun(f, envs);
    assert From(hs, 0) == hs;
    var k := |Flushed(hs, Notified(envs))|;
    if k > 0 {
      assert envs[..k][0] == envs[0];
      SameFirst(StartFlush(s), f, envs[..k]);
    } else {
      assert envs[..0] == [];
    }
    assert Interrupted(f) == Rebook(s, Book(hs, |hs|, Some(s.run), true)) by { OkNotHandlers(s); }
    if k < |envs| {
      OkNotHandlers(s);
      NextIgnoresBook(s, envs[k], Book(hs, |hs|, Some(s.run), true));
    }
  }

  lemma {:induction false} SameFirst(s: State, t: State, envs: seq<Env>)
    requires envs != [] && Next(s, envs[0]) == Next(t, envs[0])
    ensures HandedOut(s, Asks(envs)) == HandedOut(t, Asks(envs)) && Run(s, Asks(envs)) == Run(t, Asks(envs))
  {
    hide Next;
  }

  // ---------------------------------------------------------------- the rest of the play

  lemma {:induction false} SetFailedBook(s: State, b: Book)
    requires s.run != HANDLERS
    ensures SetFailed(Rebook(s, b)) == Rebook(SetFailed(s), b) && SetFailed(s).run != HANDLERS
  {
    hide CheckFailed, FailHere, WithChild;
    RebookFrame(s, b);
    if ActiveChild(s).Some? {
      WithChildBook(s, Some(SetFailed(ActiveChild(s).value)), b);
    } else {
      FailHereBook(s, b);
    }
  }

  lemma {:induction false} InsertHereBook(s: State, ts: seq<Task>, b: Book)
    requires InSection(s) && InRange(s)
    ensures InsertHere(Rebook(s, b), ts) == Rebook(InsertHere(s, ts), b) && InsertHere(s, ts).run == s.run
  {
  }

  lemma {:induction false} InsertBook(s: State, ts: seq<Task>, b: Book)
    requires s.run != HANDLERS
    ensures Insert(Rebook(s, b), ts) == Rebook(Insert(s, ts), b) && Insert(s, ts).run != HANDLERS
  {
    hide CheckFailed, InsertHere, WithChild;
    RebookFrame(s, b);
    if ActiveChild(s).Some? {
      WithChildBook(s, Some(Insert(ActiveChild(s).value, ts)), b);
    } else if InSection(s) && InRange(s) {
      InsertHereBook(s, ts, b);
    }
  }

  lemma {:induction false} NextNotHandlers(s: State, env: Env)
    requires s.run != HANDLERS
    ensures Next(s, env).state.run != HANDLERS
    decreases Size(s, 1)
  {
    hide Step, Size;
    if InRange(s) && s.run != COMPLETE {
      NextUnfold(s, env);
      var a := Answer(s, env);
      StepIgnoresBook(s, env, a, Book([], 0, None, true));
      if Step(s, env, a).task.None? {
        StepShrinks(s, env, a, 1);
        NextNotHandlers(Step(s, env, a).state, env);
      }
    }
  }

  /** No later request, failure or insertion tells a host that was flushed from one that was not. */
  lemma {:induction false} RunIgnoresBook(s: State, es: seq<Event>, b: Book)
    requires s.run != HANDLERS
    ensures HandedOut(Rebook(s, b), es) == HandedOut(s, es)
    decreases |es|
  {
    hide Next, SetFailed, Insert, Rebook, CheckFailed;
    if es != [] {
      match es[0] {
        case Ask(env) =>
          NextIgnoresBook(s, env, b);
          NextNotHandlers(s, env);
        case Fail => SetFailedBook(s, b);
        case Add(ts) => InsertBook(s, ts, b);
      }
      RunIgnoresBook(After(s, es[0]), es[1..], b);
    }
  }

  lemma {:induction false} RunAppend(s: State, es: seq<Event>, fs: seq<Event>)
    ensures Run(s, es + fs) == Run(Run(s, es), fs)
    decreases |es|
  {
    hide After;
    if es == [] {
      assert es + fs == fs;
    } else {
      assert (es + fs)[1..] == es[1..] + fs;
      RunAppend(After(s, es[0]), es[1..], fs);
    }
  }

  lemma {:induction false} HandedOutAppend(s: State, es: seq<Event>, fs: seq<Event>)
    ensures HandedOut(s, es + fs) == HandedOut(s, es) + HandedOut(Run(s, es), fs)
    decreases |es|
  {
    hide Next, SetFailed, Insert;
    if es == [] {
      assert es + fs == fs;
    } else {
      assert (es + fs)[1..] == es[1..] + fs;
      HandedOutAppend(After(s, es[0]), es[1..], fs);
    }
  }

  /**
   A flush only adds the notified handlers: whatever requests, failures and insertions follow
   it, the host is given what it would have been given without the flush.
  */
  lemma {:induction false} FlushOnlyAddsHandlers(s: State, envs: seq<Env>, later: seq<Event>)
    requires Ok(s) && InRange(s) && BookOk(s) && s.run != COMPLETE && !s.fail.handlers && envs != []
    requires var k := |Flushed(envs[0].handlers, Notified(envs))|;
             k < |envs| && later != [] && later[0] == Ask(envs[k])
    ensures var given := Flushed(envs[0].handlers, Notified(envs));
            HandedOut(StartFlush(s), Asks(envs[..|given|]) + later) == given + HandedOut(s, later)
  {
    hide Ok, Next, SetFailed, Insert, Rebook, Flushed, StartFlush;
    var given := Flushed(envs[0].handlers, Notified(envs));
    var k := |given|;
    FlushIsTransparent(s, envs);
    var t := Run(StartFlush(s), Asks(envs[..k]));
    HandedOutAppend(StartFlush(s), Asks(envs[..k]), later);
    OkNotHandlers(s);
    NextNotHandlers(s, envs[k]);
    var b := Book(envs[0].handlers, |envs[0].handlers|, Some(s.run), true);
    RunIgnoresBook(Next(s, envs[k]).state, later[1..], b);
  }

  // ---------------------------------------------------------------- consequences

  /** The notified handlers, in list order. */
  function Filter(hs: seq<TaskId>, n: set<TaskId>): Log {
    if hs == [] then [] else (if hs[0] in n then [hs[0]] else []) + Filter(hs[1..], n)
  }

  /** If the set of notified handlers does not change, a flush gives out exactly those, in list order. */
  lemma {:induction false} FlushedSteadily(hs: seq<TaskId>, n: set<TaskId>, ns: seq<set<TaskId>>)
    requires forall i :: 0 <= i < |ns| ==> ns[i] == n
    requires |Filter(hs, n)| <= |ns|
    ensures Flushed(hs, ns) == Filter(hs, n)
    decreases |hs|
  {
    if hs != [] && ns != [] {
      if hs[0] in n {
        FlushedSteadily(hs[1..], n, ns[1..]);
      } else {
        FlushedSteadily(hs[1..], n, ns);
      }
    }
  }

  /** Handlers included during a flush come next, before the ones not yet reached. */
  lemma {:induction false} InsertedHandlersNext(s: State, ts: seq<Task>)
    requires Flushing(s) && s.curHandler <= |s.handlers| && ts != []
    ensures Flushing(Insert(s, ts))
    ensures var t := Insert(s, ts);
            From(t.handlers, t.curHandler) == Flatten(ts) + From(s.handlers, s.curHandler)
    ensures Interrupted(Insert(s, ts)).run == Interrupted(s).run
  {
    hide CheckFailed, Flatten, Splice, From;
    assert Insert(s, ts) == s.(handlers := Splice(s.handlers, s.curHandler, Flatten(ts)));
    SpliceAt(s.handlers, s.curHandler, Flatten(ts));
  }

  lemma {:induction false} SpliceAt(hs: seq<TaskId>, n: nat, us: seq<TaskId>)
    requires n <= |hs|
    ensures From(Splice(hs, n, us), n) == us + From(hs, n)
  {
    assert (hs[..n] + us + hs[n..])[n..] == us + hs[n..];
  }

  /** The block section of the task is exactly these tasks. */
  predicate BlockOf(t: Task, ids: seq<TaskId>) {
    t.Nested? && |t.body.block| == |ids| && forall j :: 0 <= j < |ids| ==> t.body.block[j] == Leaf(ids[j])
  }

  lemma {:induction false} LeavesInOrder(ts: seq<Task>, ids: seq<TaskId>)
    requires |ts| == |ids| && forall j :: 0 <= j < |ids| ==> ts[j] == Leaf(ids[j])
    ensures TopLeaves(ts) == ids
  {
    if ts != [] {
      LeavesInOrder(ts[1..], ids[1..]);
      assert ids == [ids[0]] + ids[1..];
    }
  }

  lemma {:induction false} BlocksInOrder(ts: seq<Task>, ids: seq<seq<TaskId>>)
    requires |ts| == |ids| && forall i :: 0 <= i < |ids| ==> BlockOf(ts[i], ids[i])
    ensures Flatten(ts) == Joined(ids)
  {
    hide Joined, TopLeaves;
    if ts == [] {
      assert Joined<TaskId>([]) == [] by { NothingJoined(); }
    } else {
      assert BlockOf(ts[0], ids[0]);
      LeavesInOrder(ts[0].body.block, ids[0]);
      BlocksInOrder(ts[1..], ids[1..]);
      JoinedFirst(ids);
    }
  }

  lemma {:induction false} NothingJoined()
    ensures Joined<TaskId>([]) == []
  {
  }

  /**
   An include during a flush brings any number of blocks of handlers.  The requests that follow are
   answered with those of the first block, of the second, and so on, and then with the handlers
   that were not yet reached, each in its turn and if it is notified then.
  */
  lemma {:induction false} IncludedHandlersRun(s: State, ts: seq<Task>, ids: seq<seq<TaskId>>, envs: seq<Env>)
    requires Flushing(s) && s.curHandler <= |s.handlers| && ts != []
    requires |ts| == |ids| && forall i :: 0 <= i < |ids| ==> BlockOf(ts[i], ids[i])
    ensures var given := Flushed(Joined(ids) + s.handlers[s.curHandler..], Notified(envs));
            |given| <= |envs| && HandedOut(Insert(s, ts), Asks(envs[..|given|])) == given
  {
    hide Flushing, Flatten, Flushed, Insert, Joined, Notified, Asks, Next, BlockOf;
    InsertedHandlersNext(s, ts);
    BlocksInOrder(ts, ids);
    FlushRun(Insert(s, ts), envs);
  }

  /** With a steady set of notified handlers: the notified ones of each. */
  lemma {:induction false} IncludedHandlersSteadily(s: State, ts: seq<Task>, ids: seq<seq<TaskId>>, envs: seq<Env>,
                                                    n: set<TaskId>)
    requires Flushing(s) && s.curHandler <= |s.handlers| && ts != []
    requires |ts| == |ids| && forall i :: 0 <= i < |ids| ==> BlockOf(ts[i], ids[i])
    requires forall i :: 0 <= i < |envs| ==> envs[i].notified == n
    requires |envs| == |Filter(Joined(ids), n)| + |Filter(s.handlers[s.curHandler..], n)|
    ensures HandedOut(Insert(s, ts), Asks(envs)) == Filter(Joined(ids), n) + Filter(s.handlers[s.curHandler..], n)
  {
    hide Flushing, Flushed, Filter, Insert, Joined, Asks, Next, BlockOf;
    var rest := s.handlers[s.curHandler..];
    IncludedHandlersRun(s, ts, ids, envs);
    FilterJoins(Joined(ids), rest, n);
    NotifiedSteadily(envs, n);
    FlushedSteadily(Joined(ids) + rest, n, Notified(envs));
    assert envs[..|envs|] == envs;
  }

  lemma {:induction false} FilterFirst(hs: seq<TaskId>, n: set<TaskId>)
    requires hs != []
    ensures Filter(hs, n) == (if hs[0] in n then [hs[0]] else []) + Filter(hs[1..], n)
  {
  }

  lemma {:induction false} FilterJoins(hs: seq<TaskId>, gs: seq<TaskId>, n: set<TaskId>)
    ensures Filter(hs + gs, n) == Filter(hs, n) + Filter(gs, n)
  {
    if hs == [] {
      assert hs + gs == gs;
    } else {
      hide Filter;
      assert (hs + gs)[1..] == hs[1..] + gs;
      FilterFirst(hs, n);
      FilterFirst(hs + gs, n);
      FilterJoins(hs[1..], gs, n);
    }
  }

  lemma {:induction false} NotifiedSteadily(envs: seq<Env>, n: set<TaskId>)
    requires forall i :: 0 <= i < |envs| ==> envs[i].notified == n
    ensures forall i :: 0 <= i < |envs| ==> Notified(envs)[i] == n
  {
    if envs != [] {
      NotifiedSteadily(envs[1..], n);
    }
  }

  /** A play in which nothing fails but a handler flushed in the always section, and the rescue task runs. */
  lemma {:induction false} RescueWithoutTaskFailure(env: Env)
    requires env.handlers == [7] && env.notified == {7} && !env.gather
    ensures var play := [Block([], [], []), Block([Leaf(1)], [Leaf(2)], [Leaf(3)])];
            var inAlways := Run(Initial(play), [Ask(env), Ask(env)]);
            var failed := SetFailed(Next(StartFlush(inAlways), env).state);
            && HandedOut(Initial(play), [Ask(env), Ask(env)]) == [1, 3] && inAlways.run == ALWAYS
            && Next(StartFlush(inAlways), env).task == Some(7)
            && Next(failed, env).task == Some(2)
  {
    var play := [Block([], [], []), Block([Leaf(1)], [Leaf(2)], [Leaf(3)])];
    var s0 := Initial(play);
    var s1 := s0.(curBlock := 1, run := TASKS);
    var s2 := s1.(curTask := 1);
    var s3 := s2.(run := ALWAYS, curAlways := 1);
    NextUnfold(s0, env);
    NextUnfold(s0.(pendingSetup := true), env);
    NextUnfold(s1, env);
    assert Next(s0, env) == Turn(s2, Some(1));
    NextUnfold(s2, env);
    NextUnfold(s2.(run := ALWAYS), env);
    assert Next(s2, env) == Turn(s3, Some(3));
    TwoAsks(s0, env);
    var f := StartFlush(s3);
    NextUnfold(f, env);
    assert NextNotified([7], 0, {7}) == 0;
    var g := SetFailed(Rebook(f, Book([7], 1, Some(ALWAYS), false)));
    NextUnfold(g, env);
  }

  lemma {:induction false} TwoAsks(s: State, env: Env)
    requires Next(s, env).task.Some? && Next(Next(s, env).state, env).task.Some?
    ensures var t := Next(s, env);
            var u := Next(t.state, env);
            && Run(s, [Ask(env), Ask(env)]) == u.state
            && HandedOut(s, [Ask(env), Ask(env)]) == [t.task.value, u.task.value]
  {
    hide Next;
    var t := Next(s, env).state;
    var u := Next(t, env).state;
    assert [Ask(env), Ask(env)][1..] == [Ask(env)];
    assert [Ask(env)][1..] == [];
    assert Run(t, [Ask(env)]) == Run(u, []);
    assert HandedOut(t, [Ask(env)]) == [Next(t, env).task.value] + HandedOut(u, []);
  }
}
