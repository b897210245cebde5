/**
 What is left to do when nothing fails any more: it does not depend on what was done before,
 and where nothing is left to hand out, what the environment would answer does not matter.
*/
module RemainingWork {
  import opened Basics
  import opened PlaySemantics
  import opened IteratorModel
  import opened IteratorInvariants
  import opened IteratorBound
  import opened IteratorRefinement
  import opened IteratorInsertion
  import opened IteratorShape
  import opened IteratorVerdict

  const NO_FACTS := Env(false, None, [], {})

  /** `o` with `log` put before it. */
  function Behind(log: Log, o: Outcome): Outcome {
    Outcome(log + o.log, o.failed)
  }

  /** A child that can be read by itself. */
  predicate KidFit(kid: Option<State>) {
    KidOk(kid) && (kid.Some? ==> Shaped(kid.value))
  }

  predicate KidFails(kid: Option<State>) {
    kid.Some? && Doomed(kid.value)
  }

  /** The rest of a section hands out nothing any more. */
  predicate Gone(kid: Option<State>, rest: seq<Task>) {
    Finish(kid, rest, [], NEVER).log == []
  }

  // ---------------------------------------------------------------- independent of the past

  lemma {:induction false} DriveShift(s: State, env: Env, log: Log)
    requires Ok(s)
    ensures Drive(s, env, log, NEVER) == Behind(log, Drive(s, env, [], NEVER))
    decreases Ahead(s)
  {
    hide Ok, Next, CheckFailed, Ahead;
    var r := Next(s, env);
    NextOk(s, env);
    if r.task.Some? {
      var id := [r.task.value];
      NextUses(s, env);
      DriveShift(r.state, env, log + id);
      DriveShift(r.state, env, [] + id);
      assert log + id + Drive(r.state, env, [], NEVER).log == log + ([] + id + Drive(r.state, env, [], NEVER).log);
    } else {
      assert log + [] == log;
    }
  }

  lemma {:induction false} MeaningShift(s: State, log: Log)
    requires Ok(s)
    ensures Meaning(s, log, NEVER, None) == Behind(log, Meaning(s, [], NEVER, None))
  {
    hide Ok, Meaning, Drive;
    DriveShift(s, NO_FACTS, log);
    DriveMeaning(s, NO_FACTS, log, NEVER);
    DriveMeaning(s, NO_FACTS, [], NEVER);
  }

  lemma {:induction false} FinishShift(kid: Option<State>, rest: seq<Task>, log: Log)
    requires KidOk(kid)
    ensures Finish(kid, rest, log, NEVER) == Behind(log, Finish(kid, rest, [], NEVER))
  {
    hide Ok, Meaning, RunTasks, Plain;
    var k := if kid.Some? then Meaning(kid.value, [], NEVER, None) else Outcome([], false);
    var l := if kid.Some? then Meaning(kid.value, log, NEVER, None) else Outcome(log, false);
    assert l == Behind(log, k) by {
      if kid.Some? {
        MeaningShift(kid.value, log);
      } else {
        assert log + [] == log;
      }
    }
    RunPlain(rest, k.log);
    RunPlain(rest, l.log);
    assert log + k.log + Plain(rest) == log + (k.log + Plain(rest));
  }

  function PlainBlocks(bs: seq<Block>): Log {
    if bs == [] then [] else PlainBlock(bs[0]) + PlainBlocks(bs[1..])
  }

  lemma {:induction false} RunPlainBlocks(bs: seq<Block>, log: Log)
    ensures RunBlocks(bs, log, NEVER) == Outcome(log + PlainBlocks(bs), false)
    decreases |bs|
  {
    if bs == [] {
      assert log + [] == log;
    } else {
      RunPlainBlock(bs[0], log);
      RunPlainBlocks(bs[1..], log + PlainBlock(bs[0]));
      assert log + PlainBlock(bs[0]) + PlainBlocks(bs[1..]) == log + PlainBlocks(bs);
    }
  }

  lemma {:induction false} AlwaysShift(s: State, log: Log, failed: bool)
    requires InRange(s) && KidOk(s.alwaysChild)
    ensures AlwaysMeaning(s, log, failed, NEVER) == Behind(log, AlwaysMeaning(s, [], failed, NEVER))
  {
    hide Finish, KidOk, PlainBlocks;
    var rest := From(Here(s).always, s.curAlways);
    var a := Finish(s.alwaysChild, rest, [], NEVER);
    FinishShift(s.alwaysChild, rest, log);
    RunPlainBlocks(Later(s), a.log);
    RunPlainBlocks(Later(s), log + a.log);
    assert log + a.log + PlainBlocks(Later(s)) == log + (a.log + PlainBlocks(Later(s)));
  }

  // ---------------------------------------------------------------- who fails when nothing fails

  lemma {:induction false} FinishFails(kid: Option<State>, rest: seq<Task>, log: Log)
    requires KidFit(kid)
    ensures Finish(kid, rest, log, NEVER).failed <==> KidFails(kid)
  {
    hide Ok, Meaning, Doomed, RunTasks;
    if kid.Some? {
      DoomedExactly(kid.value, log, None);
    }
    if KidFails(kid) {
      FailedKid(kid.value, rest, log, NEVER);
    } else {
      UnfailedKid(kid, rest, log);
    }
  }

  /** A doomed child fails its section, whatever the environment answers. */
  lemma {:induction false} DoomedKidFails(kid: Option<State>, rest: seq<Task>, log: Log, fails: Oracle)
    requires KidFit(kid) && KidFails(kid)
    ensures Finish(kid, rest, log, fails).failed
  {
    hide Ok, Meaning, Doomed, RunTasks;
    DoomedEnds(kid.value, log, fails, None);
    FailedKid(kid.value, rest, log, fails);
  }

  // ---------------------------------------------------------------- nothing left

  lemma {:induction false} NoTasksLeft(ts: seq<Task>, log: Log, fails: Oracle)
    requires Plain(ts) == []
    ensures RunTasks(ts, log, fails) == Outcome(log, false)
    decreases ts, 0
  {
    if ts != [] {
      NoTaskLeft(ts[0], log, fails);
      NoTasksLeft(ts[1..], log, fails);
    }
  }

  lemma {:induction false} NoTaskLeft(t: Task, log: Log, fails: Oracle)
    requires PlainTask(t) == []
    ensures RunTask(t, log, fails) == Outcome(log, false)
    decreases t, 1
  {
    if t.Nested? {
      NoTasksLeft(t.body.block, log, fails);
      NoTasksLeft(t.body.always, log, fails);
    }
  }

  /** A state that hands out nothing any more. */
  lemma {:induction false} SilentMeaning(s: State, env: Env, log: Log, fails: Oracle)
    requires Ok(s) && Settled(s) && Shaped(s) && s.run != SETUP
    ensures Meaning(s, [], NEVER, None).log == [] <==> Next(s, env).task.None?
    ensures Next(s, env).task.None? ==>
              && Meaning(s, log, fails, None) == Outcome(log, Doomed(s))
              && (CheckFailed(Next(s, env).state) <==> Doomed(s))
  {
    hide Ok, Settled, Shaped, Meaning, Next, CheckFailed, Doomed, SetupTask;
    var r := Next(s, env);
    OkNotHandlers(s);
    SetupIrrelevant(s, [], NEVER, SetupTask(env));
    SetupIrrelevant(s, log, fails, SetupTask(env));
    DriveMeaning(s, env, [], NEVER);
    DriveExtends(s, env, [], NEVER);
    DriveMeaning(s, env, log, fails);
    DoomedExactly(s, [], None);
    NextOk(s, env);
  }

  /** Where a section hands out nothing any more, only its child can still fail it. */
  lemma {:induction false} GoneAnyway(kid: Option<State>, rest: seq<Task>, log: Log, fails: Oracle)
    requires KidFit(kid) && Gone(kid, rest)
    ensures Finish(kid, rest, log, fails) == Outcome(log, KidFails(kid))
  {
    hide Ok, Meaning, Doomed, RunTasks, Plain;
    var k := if kid.Some? then Meaning(kid.value, [], NEVER, None) else Outcome([], false);
    RunPlain(rest, k.log);
    if kid.Some? {
      SilentMeaning(kid.value, NO_FACTS, log, fails);
      DoomedExactly(kid.value, [], None);
    }
    if !KidFails(kid) {
      NoTasksLeft(rest, log, fails);
    }
  }

  // ---------------------------------------------------------------- the bound on the tasks is reached

  /** No block at any depth has a rescue section. */
  predicate RescueFree(b: Block)
    decreases b, 0
  {
    b.rescue == [] && RescueFreeTasks(b.block) && RescueFreeTasks(b.always)
  }

  predicate RescueFreeTasks(ts: seq<Task>)
    decreases ts, 0
  {
    ts == [] || (RescueFreeTask(ts[0]) && RescueFreeTasks(ts[1..]))
  }

  predicate RescueFreeTask(t: Task)
    decreases t, 1
  {
    t.Nested? ==> RescueFree(t.body)
  }

  lemma {:induction false} PlainCounts(ts: seq<Task>)
    requires RescueFreeTasks(ts)
    ensures |Plain(ts)| == TasksSize(ts, 0)
    decreases ts, 0
  {
    if ts != [] {
      PlainTaskCounts(ts[0]);
      PlainCounts(ts[1..]);
    }
  }

  lemma {:induction false} PlainTaskCounts(t: Task)
    requires RescueFreeTask(t)
    ensures |PlainTask(t)| == TaskSize(t, 0)
    decreases t, 1
  {
    if t.Nested? {
      PlainBlockCounts(t.body);
    }
  }

  lemma {:induction false} PlainBlockCounts(b: Block)
    requires RescueFree(b)
    ensures |PlainBlock(b)| == BlockSize(b, 0)
    decreases b, 0
  {
    PlainCounts(b.block);
    PlainCounts(b.always);
  }

  lemma {:induction false} PlainBlocksCount(bs: seq<Block>)
    requires forall b :: b in bs ==> RescueFree(b)
    ensures |PlainBlocks(bs)| == Leaves(bs)
  {
    if bs != [] {
      PlainBlockCounts(bs[0]);
      PlainBlocksCount(bs[1..]);
    }
  }

  /** Where there is nothing to rescue, a host that fails nothing is given fact gathering and every leaf. */
  lemma {:induction false} BoundIsReached(blocks: seq<Block>, env: Env)
    requires blocks != [] && SetupTask(env).Some? && forall b :: b in blocks[1..] ==> RescueFree(b)
    ensures Ok(Initial(blocks))
    ensures |Drive(Initial(blocks), env, [], NEVER).log| == 1 + Leaves(blocks[1..])
  {
    hide Ok, Drive, Initial, PlainBlocks, Leaves;
    PlayRefinement(blocks, env, NEVER);
    RunPlainBlocks(blocks[1..], [SetupTask(env).value]);
    PlainBlocksCount(blocks[1..]);
  }
}
