/**
 The meaning of a play for one host, independent of the iterator: nested
 block / rescue / always programs read as try / catch / finally.

 A log is the list of tasks handed out so far.  The environment is an oracle
 that looks at the whole log and says whether its last task failed, so it may
 answer differently for the same task at different times.
*/
module PlaySemantics {
  import opened Basics

  type TaskId = nat

  datatype Task = Leaf(id: TaskId) | Nested(body: Block)

  datatype Block = Block(block: seq<Task>, rescue: seq<Task>, always: seq<Task>)

  type Log = seq<TaskId>

  type Oracle = Log -> bool

  datatype Outcome = Outcome(log: Log, failed: bool)

  const NEVER: Oracle := (log: Log) => false

  /** The elements of `ts` from position `n` on; nothing when `n` lies past the end. */
  function From<T>(ts: seq<T>, n: nat): seq<T> {
    if n <= |ts| then ts[n..] else []
  }

  function RunTask(t: Task, log: Log, fails: Oracle): Outcome
    decreases t, 1
  {
    match t
    case Leaf(id) => Outcome(log + [id], fails(log + [id]))
    case Nested(b) => RunBlock(b, log, fails)
  }

  /** Tasks run in order up to and including the first one that fails. */
  function RunTasks(ts: seq<Task>, log: Log, fails: Oracle): Outcome
    decreases ts, 0
  {
    if ts == [] then Outcome(log, false)
    else
      var first := RunTask(ts[0], log, fails);
      if first.failed then first else RunTasks(ts[1..], first.log, fails)
  }

  /** Try the block section, rescue a failure if there is a rescue section, then always clean up. */
  function RunBlock(b: Block, log: Log, fails: Oracle): Outcome
    decreases b, 0
  {
    var tried := RunTasks(b.block, log, fails);
    var handled := if tried.failed && b.rescue != [] then RunTasks(b.rescue, tried.log, fails) else tried;
    var cleaned := RunTasks(b.always, handled.log, fails);
    Outcome(cleaned.log, handled.failed || cleaned.failed)
  }

  /** Blocks run in order; a failed block ends the play for the host. */
  function RunBlocks(bs: seq<Block>, log: Log, fails: Oracle): Outcome
    decreases bs
  {
    if bs == [] then Outcome(log, false)
    else
      var first := RunBlock(bs[0], log, fails);
      if first.failed then first else RunBlocks(bs[1..], first.log, fails)
  }

  /** A play: fact gathering first, when it is wanted, and then the compiled blocks. */
  function RunPlay(setup: Option<TaskId>, bs: seq<Block>, fails: Oracle): Outcome {
    match setup
    case None => RunBlocks(bs, [], fails)
    case Some(id) => if fails([id]) then Outcome([id], true) else RunBlocks(bs, [id], fails)
  }

  // ---------------------------------------------------------------- sizes

  /**
   Cost of the work left.  Every leaf costs one and every structural step costs `k`:
   with k == 0 this counts leaves, with k == 1 it bounds the turns of the loop of the iterator.
  */
  function TaskSize(t: Task, k: nat): nat
    decreases t, 1
  {
    match t
    case Leaf(_) => 1
    case Nested(b) => BlockSize(b, k)
  }

  function TasksSize(ts: seq<Task>, k: nat): nat
    decreases ts, 0
  {
    if ts == [] then 0 else k + TaskSize(ts[0], k) + TasksSize(ts[1..], k)
  }

  function BlockSize(b: Block, k: nat): nat
    decreases b, 0
  {
    5 * k + TasksSize(b.block, k) + TasksSize(b.rescue, k) + TasksSize(b.always, k)
  }

  function BlocksSize(bs: seq<Block>, k: nat): nat
    decreases bs
  {
    if bs == [] then 0 else BlockSize(bs[0], k) + BlocksSize(bs[1..], k)
  }

  /** Number of leaf tasks in a list of blocks, at any nesting depth. */
  function Leaves(bs: seq<Block>): nat {
    BlocksSize(bs, 0)
  }

  lemma TasksSizeFrom(ts: seq<Task>, n: nat, k: nat)
    requires n < |ts|
    ensures TasksSize(From(ts, n), k) == k + TaskSize(ts[n], k) + TasksSize(From(ts, n + 1), k)
  {
    assert From(ts, n)[1..] == From(ts, n + 1);
  }

  lemma BlocksSizeFrom(bs: seq<Block>, n: nat, k: nat)
    requires n < |bs|
    ensures BlocksSize(bs[n..], k) == BlockSize(bs[n], k) + BlocksSize(bs[n + 1..], k)
  {
    assert bs[n..][1..] == bs[n + 1..];
  }

  // ---------------------------------------------------------------- laws of the meaning

  lemma {:induction false} RunTasksFrom(ts: seq<Task>, n: nat, log: Log, fails: Oracle)
    requires n < |ts|
    ensures RunTasks(From(ts, n), log, fails) ==
            var first := RunTask(ts[n], log, fails);
            if first.failed then first else RunTasks(From(ts, n + 1), first.log, fails)
  {
    assert From(ts, n)[1..] == From(ts, n + 1);
  }

  /** Running two lists one after the other is running their concatenation. */
  lemma {:induction false} RunTasksAppend(ts: seq<Task>, us: seq<Task>, log: Log, fails: Oracle)
    ensures RunTasks(ts + us, log, fails) ==
            var first := RunTasks(ts, log, fails);
            if first.failed then first else RunTasks(us, first.log, fails)
    decreases |ts|
  {
    if ts == [] {
      assert ts + us == us;
    } else {
      assert (ts + us)[1..] == ts[1..] + us;
      RunTasksAppend(ts[1..], us, RunTask(ts[0], log, fails).log, fails);
    }
  }
}
