/**
 Tasks added while a play runs (included files) take their place right where the host is,
 at any nesting depth.
*/
module IteratorInsertion {
  import opened Basics
  import opened PlaySemantics
  import opened IteratorModel
  import opened IteratorInvariants
  import opened IteratorRefinement

  lemma {:induction false} ActiveOk(s: State)
    requires Ok(s) && Settled(s)
    ensures Ok(Active(s)) && Settled(Active(s)) && ActiveChild(Active(s)).None?
    ensures s.run != SETUP ==> Active(s).run != SETUP
    decreases s
  {
    hide Ok;
    if ActiveChild(s).Some? {
      ActiveChildOk(s);
      ActiveOk(ActiveChild(s).value);
    }
  }

  lemma {:induction false} SpliceFrom(sec: seq<Task>, n: nat, ts: seq<Task>)
    ensures From(Splice(sec, n, ts), n) == if n <= |sec| then ts + From(sec, n) else From(sec + ts, n)
  {
    if n <= |sec| {
      assert (sec[..n] + ts + sec[n..])[n..] == ts + sec[n..];
    }
  }

  lemma {:induction false} InsertHereFrame(s: State, ts: seq<Task>)
    requires Ok(s) && InSection(s) && InRange(s) && ActiveChild(s).None?
    ensures var t := InsertHere(s, ts);
            && t.run == s.run && InSection(t) && InRange(t) && SameBeyond(s, t, s.run) && ActiveChild(t).None?
            && From(Section(t), Position(t)) == ts + From(Section(s), Position(s))
  {
    hide ChildrenOk, Splice, From;
    SpliceFrom(Section(s), Position(s), ts);
    assert Position(s) <= |Section(s)|;
    var t := InsertHere(s, ts);
    assert Here(t) == t.blocks[s.curBlock];
    assert Section(t) == Splice(Section(s), Position(s), ts);
  }

  lemma {:induction false} InsertHereMeaning(s: State, ts: seq<Task>, log: Log, fails: Oracle, setup: Option<TaskId>)
    requires Ok(s) && InSection(s) && InRange(s) && ActiveChild(s).None?
    ensures var r := RunTasks(ts, log, fails);
            Meaning(InsertHere(s, ts), log, fails, setup) ==
            Meaning(if r.failed then SetFailed(s) else s, r.log, fails, setup)
  {
    hide Ok, Finish, SectionFailed, SectionDone, Meaning, Section, Position, From, FailHere, InsertHere;
    hide SameBeyond, RunTasks;
    var t := InsertHere(s, ts);
    var rest := From(Section(s), Position(s));
    var r := RunTasks(ts, log, fails);
    InsertHereFrame(s, ts);
    RunTasksAppend(ts, rest, log, fails);
    NoKidFinish(ts + rest, log, fails);
    var f := RunTasks(ts + rest, log, fails);
    SectionEnded(t, f, log, fails, setup);
    SectionEndsAgree(s, t, s.run, f.log, fails);
    if r.failed {
      FailHereMeaning(s, r.log, fails, setup);
    } else {
      NoKidFinish(rest, r.log, fails);
      SectionEnded(s, f, r.log, fails, setup);
    }
  }

  /**
   After an insertion the host first runs the inserted tasks.  If they succeed it goes on
   exactly as it would have without them; if one fails, exactly as if the section it stood in
   had failed there.
  */
  lemma {:induction false} InsertMeaning(s: State, ts: seq<Task>, log: Log, fails: Oracle, setup: Option<TaskId>)
    requires Ok(s) && Settled(s) && InSection(Active(s))
    ensures var r := RunTasks(ts, log, fails);
            Meaning(Insert(s, ts), log, fails, setup) ==
            Meaning(if r.failed then SetFailed(s) else s, r.log, fails, setup)
    decreases s
  {
    hide Ok, Finish, SectionFailed, SectionDone, MeaningAs, Meaning, Section, Position, From, FailHere, InsertHere,
         SameBeyond, WithChild, RunTasks, CheckFailed;
    var r := RunTasks(ts, log, fails);
    if ts == [] {
      NoTasks(log, fails);
    } else if ActiveChild(s).Some? {
      var c := ActiveChild(s).value;
      ActiveChildOk(s);
      InsertMeaning(c, ts, log, fails, None);
      NoFailureInTasks(s);
      var d := if r.failed then SetFailed(c) else c;
      var t := WithChild(s, Some(Insert(c, ts)));
      var u := WithChild(s, Some(d));
      WithChildFrame(s, Some(Insert(c, ts)));
      WithChildFrame(s, Some(d));
      WithOwnChild(s);
      var rest := From(Section(s), Position(s));
      var f := Finish(Some(d), rest, r.log, fails);
      FinishAgree(Insert(c, ts), log, d, r.log, rest, fails);
      SectionEnded(t, f, log, fails, setup);
      SectionEnded(u, f, r.log, fails, setup);
      SectionEndsAgree(s, t, s.run, f.log, fails);
      SectionEndsAgree(s, u, s.run, f.log, fails);
    } else {
      NoFailureInTasks(s);
      InsertHereMeaning(s, ts, log, fails, setup);
    }
  }

  lemma {:induction false} FinishAgree(c: State, log: Log, d: State, log': Log, rest: seq<Task>, fails: Oracle)
    requires Meaning(c, log, fails, None) == Meaning(d, log', fails, None)
    ensures Finish(Some(c), rest, log, fails) == Finish(Some(d), rest, log', fails)
  {
    hide Meaning, RunTasks;
  }

  lemma {:induction false} NoTasks(log: Log, fails: Oracle)
    ensures RunTasks([], log, fails) == Outcome(log, false)
  {
  }

  lemma {:induction false} WithOwnChild(s: State)
    requires InSection(s) && ActiveChild(s).Some?
    ensures WithChild(s, Some(ActiveChild(s).value)) == s
  {
  }

  lemma {:induction false} NoFailureInTasks(s: State)
    requires Ok(s)
    ensures s.run == TASKS ==> s.fail == NO_FAILURE
  {
  }

  /** The leaves of a list of tasks in the order a failure-free run meets them. */
  function Plain(ts: seq<Task>): Log
    decreases ts, 0
  {
    if ts == [] then [] else PlainTask(ts[0]) + Plain(ts[1..])
  }

  function PlainTask(t: Task): Log
    decreases t, 1
  {
    match t
    case Leaf(id) => [id]
    case Nested(b) => PlainBlock(b)
  }

  function PlainBlock(b: Block): Log
    decreases b, 0
  {
    Plain(b.block) + Plain(b.always)
  }

  lemma {:induction false} RunPlain(ts: seq<Task>, log: Log)
    ensures RunTasks(ts, log, NEVER) == Outcome(log + Plain(ts), false)
    decreases ts, 0
  {
    if ts == [] {
      assert log + [] == log;
    } else {
      RunPlainTask(ts[0], log);
      RunPlain(ts[1..], log + PlainTask(ts[0]));
      assert log + PlainTask(ts[0]) + Plain(ts[1..]) == log + Plain(ts);
    }
  }

  lemma {:induction false} RunPlainTask(t: Task, log: Log)
    ensures RunTask(t, log, NEVER) == Outcome(log + PlainTask(t), false)
    decreases t, 1
  {
    if t.Nested? {
      RunPlainBlock(t.body, log);
    }
  }

  lemma {:induction false} RunPlainBlock(b: Block, log: Log)
    ensures RunBlock(b, log, NEVER) == Outcome(log + PlainBlock(b), false)
    decreases b, 0
  {
    RunPlain(b.block, log);
    RunPlain(b.always, log + Plain(b.block));
    assert log + Plain(b.block) + Plain(b.always) == log + PlainBlock(b);
  }

  /** Without failures: the inserted tasks, and then exactly the old remaining ones. */
  lemma {:induction false} InsertPlain(s: State, ts: seq<Task>, log: Log, setup: Option<TaskId>)
    requires Ok(s) && Settled(s) && InSection(Active(s))
    ensures Meaning(Insert(s, ts), log, NEVER, setup) == Meaning(s, log + Plain(ts), NEVER, setup)
  {
    hide Ok, Meaning, Insert, SetFailed, Active, Plain, RunTasks;
    InsertMeaning(s, ts, log, NEVER, setup);
    RunPlain(ts, log);
  }

  /** Insertion does nothing exactly when there is nothing to insert or the host stands in no section. */
  lemma {:induction false} InsertTakesEffect(s: State, ts: seq<Task>)
    requires Ok(s) && Settled(s)
    ensures Insert(s, ts) != s <==> ts != [] && InSection(Active(s))
    decreases s
  {
    hide Ok, CheckFailed;
    OkNotHandlers(s);
    NoFailureInTasks(s);
    if ActiveChild(s).Some? {
      var c := ActiveChild(s).value;
      ActiveChildOk(s);
      InsertTakesEffect(c, ts);
      assert WithChild(s, Some(Insert(c, ts))) == s <==> Insert(c, ts) == c;
    } else if ts != [] && InSection(s) {
      InsertHereFrame(s, ts);
      assert |From(Section(InsertHere(s, ts)), Position(InsertHere(s, ts)))| > |From(Section(s), Position(s))|;
    }
  }
}
