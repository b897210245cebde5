/**
 The per-host cursor of lib/distronode/executor/play_iterator.py as a value, and
 what each iterator operation computes on it.  The class in HostStates.dfy
 performs the same operations in place and is proved against these functions.
*/
module IteratorModel {
  import opened Basics
  import opened PlaySemantics

  datatype RunState = SETUP | TASKS | RESCUE | ALWAYS | HANDLERS | COMPLETE

  /** The bit set FailedStates, one flag per bit. */
  datatype FailedStates = FailedStates(setup: bool, tasks: bool, rescue: bool, always: bool, handlers: bool)

  const NO_FAILURE := FailedStates(false, false, false, false, false)

  datatype State = State(
    blocks: seq<Block>,
    handlers: seq<TaskId>,
    notifications: seq<string>,
    curBlock: nat,
    curTask: nat,
    curRescue: nat,
    curAlways: nat,
    curHandler: nat,
    run: RunState,
    fail: FailedStates,
    preFlush: Option<RunState>,
    updateHandlers: bool,
    pendingSetup: bool,
    tasksChild: Option<State>,
    rescueChild: Option<State>,
    alwaysChild: Option<State>,
    didRescue: bool,
    didStartAt: bool)

  /** A state as the constructor of HostState leaves it. */
  function Initial(blocks: seq<Block>): State {
    State(blocks, [], [], 0, 0, 0, 0, 0, SETUP, NO_FAILURE, None, true, false, None, None, None, false, false)
  }

  /** The child state made when a cursor meets a nested block. */
  function Child(b: Block): State {
    Initial([b]).(run := TASKS)
  }

  /**
   What a step may consult outside the state: whether facts are wanted for this host, the
   fact-gathering task if tag filtering kept it, the play's handlers, and which of them
   this host has been notified for.
  */
  datatype Env = Env(gather: bool, setup: Option<TaskId>, handlers: seq<TaskId>, notified: set<TaskId>)

  function SetupTask(env: Env): Option<TaskId> {
    if env.gather then env.setup else None
  }

  /** A state together with the task that was handed out, if any. */
  datatype Turn = Turn(state: State, task: Option<TaskId>)

  predicate InRange(s: State) {
    s.curBlock < |s.blocks|
  }

  function Here(s: State): Block
    requires InRange(s)
  {
    s.blocks[s.curBlock]
  }

  // ---------------------------------------------------------------- failure

  /** _check_failed_state */
  function CheckFailed(s: State): bool
    decreases s
  {
    if s.run == RESCUE && s.rescueChild.Some? && CheckFailed(s.rescueChild.value) then true
    else if s.run == ALWAYS && s.alwaysChild.Some? && CheckFailed(s.alwaysChild.value) then true
    else if s.run == HANDLERS && s.fail.handlers then true
    else if s.fail != NO_FAILURE then
      if s.run == RESCUE && !s.fail.rescue then false
      else if s.run == ALWAYS && !s.fail.always then false
      else !(s.didRescue && !s.fail.always)
    else if s.run == TASKS && s.tasksChild.Some? && CheckFailed(s.tasksChild.value) then
      !(InRange(s) && |Here(s).rescue| > 0 && !s.fail.rescue)
    else false
  }

  /** The failure bit that a failure in the current run state sets. */
  function FailureBits(s: State): FailedStates {
    match s.run
    case SETUP => s.fail.(setup := true)
    case TASKS => s.fail.(tasks := true)
    case RESCUE => s.fail.(rescue := true)
    case ALWAYS => s.fail.(always := true)
    case HANDLERS => s.fail.(handlers := true)
    case COMPLETE => s.fail
  }

  /** Where a failure sends the state: to the rescue section if that was not reached yet, else to the always section. */
  function RunAfterFailure(s: State): RunState {
    if !InRange(s) then COMPLETE
    else if (s.run == TASKS || s.run == HANDLERS) && Here(s).rescue != [] then RESCUE
    else if (s.run == TASKS || s.run == HANDLERS || s.run == RESCUE) && Here(s).always != [] then ALWAYS
    else COMPLETE
  }

  /** What a failure does to the state it hits when no child is active. */
  function FailHere(s: State): State {
    s.(fail := FailureBits(s), run := RunAfterFailure(s), updateHandlers := s.updateHandlers || s.run == HANDLERS)
  }

  // ---------------------------------------------------------------- sections and their child states

  predicate InSection(s: State) {
    s.run == TASKS || s.run == RESCUE || s.run == ALWAYS
  }

  /** The child state of the section the cursor is in. */
  function ActiveChild(s: State): Option<State> {
    match s.run
    case TASKS => s.tasksChild
    case RESCUE => s.rescueChild
    case ALWAYS => s.alwaysChild
    case _ => None
  }

  function WithChild(s: State, c: Option<State>): State
    requires InSection(s)
  {
    s.(tasksChild := if s.run == TASKS then c else s.tasksChild,
       rescueChild := if s.run == RESCUE then c else s.rescueChild,
       alwaysChild := if s.run == ALWAYS then c else s.alwaysChild)
  }

  /** The task list of the section the cursor is in, and the position in it. */
  function Section(s: State): seq<Task>
    requires InSection(s) && InRange(s)
  {
    match s.run
    case TASKS => Here(s).block
    case RESCUE => Here(s).rescue
    case ALWAYS => Here(s).always
  }

  function Position(s: State): nat
    requires InSection(s)
  {
    match s.run
    case TASKS => s.curTask
    case RESCUE => s.curRescue
    case ALWAYS => s.curAlways
  }

  function Advance(s: State): State
    requires InSection(s)
  {
    s.(curTask := if s.run == TASKS then s.curTask + 1 else s.curTask,
       curRescue := if s.run == RESCUE then s.curRescue + 1 else s.curRescue,
       curAlways := if s.run == ALWAYS then s.curAlways + 1 else s.curAlways)
  }

  /** get_active_state */
  function Active(s: State): State
    decreases s
  {
    match ActiveChild(s)
    case Some(c) => Active(c)
    case None => s
  }

  /** _set_failed_state */
  function SetFailed(s: State): State
    decreases s
  {
    match ActiveChild(s)
    case Some(c) => WithChild(s, Some(SetFailed(c)))
    case None => FailHere(s)
  }

  // ---------------------------------------------------------------- size of the remaining work

  /** Work left in the current block and the ones after it; `cs` is the children's share. */
  function BlockWork(s: State, k: nat, cs: nat): nat
    requires InRange(s)
  {
    cs + TasksSize(From(Here(s).block, s.curTask), k) + TasksSize(From(Here(s).rescue, s.curRescue), k)
    + TasksSize(From(Here(s).always, s.curAlways), k) + RestSize(s, k)
  }

  function RestSize(s: State, k: nat): nat
    requires InRange(s)
  {
    BlocksSize(s.blocks[s.curBlock + 1..], k)
  }

  function ChildSize(c: Option<State>, k: nat): nat
    decreases c
  {
    match c
    case None => 0
    case Some(t) => k + Size(t, k)
  }

  function Size(s: State, k: nat): nat
    decreases s
  {
    var cs := ChildSize(s.tasksChild, k) + ChildSize(s.rescueChild, k) + ChildSize(s.alwaysChild, k);
    if !InRange(s) || s.run == COMPLETE then 0
    else if s.run == SETUP then
      (if s.didStartAt then BlockWork(s, k, cs) else RestSize(s, k))
      + (if s.pendingSetup then 4 * k else 5 * k + 1)
    else BlockWork(s, k, cs) + Rank(s.run, k)
  }

  function Rank(run: RunState, k: nat): nat {
    match run
    case HANDLERS => 6 * k + 1
    case TASKS => 3 * k
    case RESCUE => 2 * k
    case ALWAYS => k
    case _ => 0
  }

  /** The run state a finished flush goes back to. */
  function ResumeRun(s: State): RunState {
    if s.preFlush.Some? && s.preFlush.value != HANDLERS then s.preFlush.value
    else COMPLETE  // never reached: a flush is only started from another run state
  }

  // ---------------------------------------------------------------- the next task

  /** The state at the start of the following block. */
  function NextBlock(s: State): State {
    s.(curBlock := s.curBlock + 1, curTask := 0, curRescue := 0, curAlways := 0, run := TASKS,
       tasksChild := None, rescueChild := None, alwaysChild := None)
  }

  function StepSetup(s: State, env: Env): Turn {
    if !s.pendingSetup then Turn(s.(pendingSetup := true), SetupTask(env))
    else if s.didStartAt then Turn(s.(pendingSetup := false, run := TASKS), None)
    else Turn(NextBlock(s.(pendingSetup := false)), None)
  }

  /** A section whose child state was asked for a task and answered with `a`. */
  function Resume(s: State, a: Turn): Turn
    requires InSection(s)
  {
    if CheckFailed(a.state) then Turn(FailHere(WithChild(s, None)), a.task)
    else if a.task.None? || a.state.run == COMPLETE then Turn(WithChild(s, None), None)
    else Turn(WithChild(s, Some(a.state)), a.task)
  }

  /** Whether a section without a child state is left before its end. */
  predicate Abandoned(s: State) {
    (s.run == TASKS && CheckFailed(s)) || (s.run == RESCUE && s.fail.rescue)
  }

  /** Leaving the section the cursor is in. */
  function Leave(s: State): State
    requires InSection(s) && InRange(s)
  {
    match s.run
    case TASKS => s.(run := if CheckFailed(s) then RESCUE else ALWAYS)
    case RESCUE =>
      if s.fail.rescue then s.(run := ALWAYS)
      else s.(fail := if |Here(s).rescue| > 0 then NO_FAILURE else s.fail, run := ALWAYS, didRescue := true)
    case ALWAYS =>
      if s.fail != NO_FAILURE then s.(run := COMPLETE) else NextBlock(s).(didRescue := false)
  }

  /** A section without a child state: the task at the cursor, or the way out. */
  function Start(s: State): Turn
    requires InSection(s) && InRange(s)
  {
    if Abandoned(s) || Position(s) >= |Section(s)| then Turn(Leave(s), None)
    else match Section(s)[Position(s)]
      case Leaf(id) => Turn(Advance(s), Some(id))
      case Nested(b) => Turn(WithChild(Advance(s), Some(Child(b))), None)
  }

  /** Position of the first notified handler at or after `n`; the length of the list if there is none. */
  function NextNotified(hs: seq<TaskId>, n: nat, notified: set<TaskId>): nat
    decreases |hs| - n
  {
    if n >= |hs| || hs[n] in notified then n else NextNotified(hs, n + 1, notified)
  }

  /** A flush starts with the play's handlers. */
  function RefreshHandlers(s: State, env: Env): State {
    if s.updateHandlers then s.(handlers := env.handlers, updateHandlers := false, curHandler := 0) else s
  }

  function ScanHandlers(s: State, env: Env): Turn {
    var n := NextNotified(s.handlers, s.curHandler, env.notified);
    if n < |s.handlers| then Turn(s.(curHandler := n + 1), Some(s.handlers[n]))
    else Turn(s.(curHandler := n, updateHandlers := true, run := ResumeRun(s)), None)
  }

  function StepHandlers(s: State, env: Env): Turn {
    var s := RefreshHandlers(s, env);
    if s.fail.handlers then Turn(s.(updateHandlers := true, run := COMPLETE), None) else ScanHandlers(s, env)
  }

  /** Entering the loop in the block section drops the pending-setup flag. */
  function Entered(s: State): State {
    if s.run == TASKS then s.(pendingSetup := false) else s
  }

  /** One turn of the loop in _get_next_task_from_state; `answer` is what the active child state said. */
  function Step(s: State, env: Env, answer: Option<Turn>): Turn
    requires InRange(s) && s.run != COMPLETE
  {
    if s.run == SETUP then StepSetup(s, env)
    else if s.run == HANDLERS then StepHandlers(s, env)
    else if answer.Some? then Resume(Entered(s), answer.value)
    else Start(Entered(s))
  }

  /** _get_next_task_from_state */
  function Next(s: State, env: Env): Turn
    decreases Size(s, 1)
  {
    if !InRange(s) then Turn(s.(run := COMPLETE), None)
    else if s.run == COMPLETE then Turn(s, None)
    else
      var answer :=
        if ActiveChild(s).None? then None
        else (ActiveChildShrinks(s, 1); Some(Next(ActiveChild(s).value, env)));
      var r := Step(s, env, answer);
      if r.task.Some? then r else StepShrinks(s, env, answer, 1); Next(r.state, env)
  }

  // ---------------------------------------------------------------- why Next terminates

  lemma {:induction false} ActiveChildShrinks(s: State, k: nat)
    requires InRange(s) && ActiveChild(s).Some?
    ensures Size(ActiveChild(s).value, k) + k <= Size(s, k)
  {
  }

  lemma {:induction false} EnteredKeepsSize(s: State, k: nat)
    requires InSection(s)
    ensures Size(Entered(s), k) == Size(s, k)
  {
  }

  /** Moving on to a later section of the same block. */
  lemma {:induction false} LaterShrinks(s: State, run: RunState, fail: FailedStates, did: bool, k: nat)
    requires InRange(s) && InSection(s)
    requires run == COMPLETE || (Rank(run, 1) < Rank(s.run, 1) && run != SETUP)
    ensures Size(s.(run := run, fail := fail, didRescue := did), k) + k <= Size(s, k)
  {
  }

  lemma {:induction false} DropTasksChildShrinks(s: State, k: nat)
    requires InRange(s) && s.run == TASKS && s.tasksChild.Some?
    ensures Size(s.(tasksChild := None), k) + k <= Size(s, k)
  {
  }

  lemma {:induction false} DropRescueChildShrinks(s: State, k: nat)
    requires InRange(s) && s.run == RESCUE && s.rescueChild.Some?
    ensures Size(s.(rescueChild := None), k) + k <= Size(s, k)
  {
  }

  lemma {:induction false} DropAlwaysChildShrinks(s: State, k: nat)
    requires InRange(s) && s.run == ALWAYS && s.alwaysChild.Some?
    ensures Size(s.(alwaysChild := None), k) + k <= Size(s, k)
  {
  }

  lemma {:induction false} DropChildShrinks(s: State, k: nat)
    requires InRange(s) && InSection(s) && ActiveChild(s).Some?
    ensures Size(WithChild(s, None), k) + k <= Size(s, k)
  {
    match s.run
    case TASKS => DropTasksChildShrinks(s, k);
    case RESCUE => DropRescueChildShrinks(s, k);
    case ALWAYS => DropAlwaysChildShrinks(s, k);
  }

  lemma {:induction false} FailHereShrinks(s: State, k: nat)
    requires InRange(s) && InSection(s)
    ensures Size(FailHere(s), k) + k <= Size(s, k)
  {
    var t := FailHere(s);
    LaterShrinks(s, t.run, t.fail, s.didRescue, k);
  }

  lemma {:induction false} BlockEndShrinks(s: State, k: nat)
    requires InRange(s) && s.run == ALWAYS
    ensures Size(NextBlock(s).(didRescue := false), k) + k <= Size(s, k)
  {
    hide Size, BlocksSize;
    var t := s.(didRescue := false);
    NextBlockShrinks(t, k);
    assert NextBlock(s).(didRescue := false) == NextBlock(t);
    AlwaysSize(s, k);
  }

  lemma {:induction false} AlwaysSize(s: State, k: nat)
    requires InRange(s) && s.run == ALWAYS
    ensures Size(s, k) >= RestSize(s, k) + k
  {
    hide BlocksSize, TasksSize, ChildSize;
  }

  lemma {:induction false} LeaveShrinks(s: State, k: nat)
    requires InRange(s) && InSection(s)
    ensures Size(Leave(s), k) + k <= Size(s, k)
  {
    if s.run == ALWAYS && s.fail == NO_FAILURE {
      BlockEndShrinks(s, k);
    } else {
      var t := Leave(s);
      LaterShrinks(s, t.run, t.fail, t.didRescue, k);
    }
  }

  lemma {:induction false} NestTasksShrinks(s: State, c: State, k: nat)
    requires InRange(s) && s.run == TASKS && s.tasksChild.None?
    requires TasksSize(From(Here(s).block, s.curTask), k) >= 2 * k + Size(c, k)
             + TasksSize(From(Here(s).block, s.curTask + 1), k)
    ensures Size(s.(curTask := s.curTask + 1, tasksChild := Some(c)), k) + k <= Size(s, k)
  {
  }

  lemma {:induction false} NestRescueShrinks(s: State, c: State, k: nat)
    requires InRange(s) && s.run == RESCUE && s.rescueChild.None?
    requires TasksSize(From(Here(s).rescue, s.curRescue), k) >= 2 * k + Size(c, k)
             + TasksSize(From(Here(s).rescue, s.curRescue + 1), k)
    ensures Size(s.(curRescue := s.curRescue + 1, rescueChild := Some(c)), k) + k <= Size(s, k)
  {
  }

  lemma {:induction false} NestAlwaysShrinks(s: State, c: State, k: nat)
    requires InRange(s) && s.run == ALWAYS && s.alwaysChild.None?
    requires TasksSize(From(Here(s).always, s.curAlways), k) >= 2 * k + Size(c, k)
             + TasksSize(From(Here(s).always, s.curAlways + 1), k)
    ensures Size(s.(curAlways := s.curAlways + 1, alwaysChild := Some(c)), k) + k <= Size(s, k)
  {
  }

  lemma {:induction false} NestShrinks(s: State, c: State, k: nat)
    requires InRange(s) && InSection(s) && ActiveChild(s).None?
    requires TasksSize(From(Section(s), Position(s)), k) >= 2 * k + Size(c, k)
             + TasksSize(From(Section(s), Position(s) + 1), k)
    ensures Size(WithChild(Advance(s), Some(c)), k) + k <= Size(s, k)
  {
    hide Size, TasksSize;
    match s.run
    case TASKS => NestTasksShrinks(s, c, k);
    case RESCUE => NestRescueShrinks(s, c, k);
    case ALWAYS => NestAlwaysShrinks(s, c, k);
  }

  lemma {:induction false} ChildFits(ts: seq<Task>, n: nat, b: Block, k: nat)
    requires n < |ts| && ts[n] == Nested(b)
    ensures TasksSize(From(ts, n), k) >= 2 * k + Size(Child(b), k) + TasksSize(From(ts, n + 1), k)
  {
    TasksSizeFrom(ts, n, k);
    ChildSizeOf(b, k);
  }

  lemma {:induction false} StartShrinks(s: State, k: nat)
    requires InRange(s) && InSection(s) && ActiveChild(s).None?
    ensures Start(s).task.None? ==> Size(Start(s).state, k) + k <= Size(s, k)
  {
    if Abandoned(s) || Position(s) >= |Section(s)| {
      LeaveShrinks(s, k);
    } else if Section(s)[Position(s)].Nested? {
      var c := Child(Section(s)[Position(s)].body);
      ChildFits(Section(s), Position(s), Section(s)[Position(s)].body, k);
      NestShrinks(s, c, k);
    }
  }

  lemma {:induction false} ResumeShrinks(s: State, a: Turn, k: nat)
    requires InRange(s) && InSection(s) && ActiveChild(s).Some?
    ensures Resume(s, a).task.None? ==> Size(Resume(s, a).state, k) + k <= Size(s, k)
  {
    DropChildShrinks(s, k);
    FailHereShrinks(WithChild(s, None), k);
  }

  lemma {:induction false} StepSetupShrinks(s: State, env: Env, k: nat)
    requires InRange(s) && s.run == SETUP
    ensures Size(StepSetup(s, env).state, k) + k <= Size(s, k)
  {
    if s.pendingSetup && !s.didStartAt {
      NextBlockShrinks(s.(pendingSetup := false), k);
    }
  }

  lemma {:induction false} RefreshKeepsSize(s: State, env: Env, k: nat)
    requires InRange(s) && s.run == HANDLERS
    ensures Size(RefreshHandlers(s, env), k) == Size(s, k)
  {
  }

  lemma {:induction false} HandlersEndShrinks(s: State, n: nat, k: nat)
    requires InRange(s) && s.run == HANDLERS
    ensures Size(s.(curHandler := n, updateHandlers := true, run := ResumeRun(s)), k) + k <= Size(s, k)
  {
  }

  lemma {:induction false} HandlersFailedShrinks(s: State, k: nat)
    requires InRange(s) && s.run == HANDLERS
    ensures Size(s.(updateHandlers := true, run := COMPLETE), k) + k <= Size(s, k)
  {
  }

  /** Every turn of the loop that hands out no task leaves less work. */
  lemma {:induction false} StepShrinks(s: State, env: Env, answer: Option<Turn>, k: nat)
    requires InRange(s) && s.run != COMPLETE
    requires answer.Some? <==> ActiveChild(s).Some?
    ensures Step(s, env, answer).task.None? ==> Size(Step(s, env, answer).state, k) + k <= Size(s, k)
  {
    if s.run == SETUP {
      StepSetupShrinks(s, env, k);
    } else if s.run == HANDLERS {
      var s' := RefreshHandlers(s, env);
      RefreshKeepsSize(s, env, k);
      HandlersFailedShrinks(s', k);
      HandlersEndShrinks(s', NextNotified(s'.handlers, s'.curHandler, env.notified), k);
    } else {
      EnteredKeepsSize(s, k);
      if answer.Some? {
        ResumeShrinks(Entered(s), answer.value, k);
      } else {
        StartShrinks(Entered(s), k);
      }
    }
  }

  lemma {:induction false} NextBlockShrinks(s: State, k: nat)
    requires InRange(s)
    ensures Size(NextBlock(s), k) <= RestSize(s, k)
  {
    var t := NextBlock(s);
    if InRange(t) {
      BlocksSizeFrom(s.blocks, t.curBlock, k);
      assert From(Here(t).block, 0) == Here(t).block;
      assert From(Here(t).rescue, 0) == Here(t).rescue;
      assert From(Here(t).always, 0) == Here(t).always;
    }
  }

  lemma {:induction false} ChildSizeOf(b: Block, k: nat)
    ensures Size(Child(b), k) + 2 * k == BlockSize(b, k)
  {
    var c := Child(b);
    assert From(b.block, 0) == b.block && From(b.rescue, 0) == b.rescue && From(b.always, 0) == b.always;
    assert c.blocks[1..] == [];
  }

  // ---------------------------------------------------------------- other operations

  /** Put `us` before position `n`, with Python's clamping of slices. */
  function Splice<T>(ts: seq<T>, n: nat, us: seq<T>): seq<T> {
    if n <= |ts| then ts[..n] + us + ts[n..] else ts + us
  }

  /** The leaves at the top level of the block sections of `ts`, as handler includes are flattened. */
  function Flatten(ts: seq<Task>): seq<TaskId> {
    if ts == [] then []
    else (if ts[0].Nested? then TopLeaves(ts[0].body.block) else []) + Flatten(ts[1..])
  }

  function TopLeaves(ts: seq<Task>): seq<TaskId> {
    if ts == [] then [] else (if ts[0].Leaf? then [ts[0].id] else []) + TopLeaves(ts[1..])
  }

  /** The current block with `ts` put in at the cursor of the current section. */
  function InsertHere(s: State, ts: seq<Task>): State
    requires InSection(s) && InRange(s)
  {
    var b := Here(s);
    var grown := Splice(Section(s), Position(s), ts);
    s.(blocks := s.blocks[s.curBlock := match s.run
                                        case TASKS => b.(block := grown)
                                        case RESCUE => b.(rescue := grown)
                                        case ALWAYS => b.(always := grown)])
  }

  /** _insert_tasks_into_state */
  function Insert(s: State, ts: seq<Task>): State
    decreases s
  {
    if (s.fail != NO_FAILURE && s.run == TASKS) || ts == [] then s
    else match ActiveChild(s)
      case Some(c) => WithChild(s, Some(Insert(c, ts)))
      case None =>
        if InSection(s) && InRange(s) then InsertHere(s, ts)
        else if s.run == HANDLERS then s.(handlers := Splice(s.handlers, s.curHandler, Flatten(ts)))
        else s
  }

  /** What the strategy does to the stored state when a flush_handlers task is met. */
  function StartFlush(s: State): State {
    s.(preFlush := Some(s.run), run := HANDLERS)
  }
}
