/**
 HostState as an object: the cursor of one host, updated in place, with child states for
 nested blocks.  Every method is proved against the functions of IteratorModel.
*/
module HostStates {
  import opened Basics
  import opened PlaySemantics
  import opened IteratorModel
  import opened IteratorInvariants
  import opened SaneStates

  class HostState {
    var blocks: seq<Block>
    var handlers: seq<TaskId>
    var handlerNotifications: seq<string>
    var curBlock: nat
    var curRegularTask: nat
    var curRescueTask: nat
    var curAlwaysTask: nat
    var curHandlersTask: nat
    var runState: RunState
    var failState: FailedStates
    var preFlushingRunState: Option<RunState>
    var updateHandlers: bool
    var pendingSetup: bool
    var tasksChildState: HostState?
    var rescueChildState: HostState?
    var alwaysChildState: HostState?
    var didRescue: bool
    var didStartAtTask: bool
    ghost var Model: State       // the value this object stands for
    ghost var Repr: set<object>  // the objects of its tree of cursors

    ghost predicate Valid()
      reads this, Repr
      decreases Repr, 1
    {
      Local() && KidsValid()
    }

    lemma {:induction false} Open()
      requires Valid()
      ensures Local() && KidsValid()
    {
    }

    lemma {:induction false} Close()
      requires Local() && KidsValid()
      ensures Valid()
    {
    }

    /** The model is what the fields and the models of the child states say. */
    ghost predicate Local()
      reads this, Repr
    {
      && this in Repr
      && (tasksChildState != null ==> tasksChildState in Repr && tasksChildState != this)
      && (rescueChildState != null ==> rescueChildState in Repr && rescueChildState != this)
      && (alwaysChildState != null ==> alwaysChildState in Repr && alwaysChildState != this)
      && Model == Fields()
    }

    /** The child states form a tree, and each owns its own objects. */
    ghost predicate KidsValid()
      reads `tasksChildState, `rescueChildState, `alwaysChildState, `Repr, Repr - {this}
      decreases Repr, 0
    {
      && this in Repr
      && (tasksChildState != null ==>
            && tasksChildState in Repr - {this} && tasksChildState.Repr <= Repr - {this}
            && tasksChildState in tasksChildState.Repr && tasksChildState.Valid())
      && (rescueChildState != null ==>
            && rescueChildState in Repr - {this} && rescueChildState.Repr <= Repr - {this}
            && rescueChildState in rescueChildState.Repr && rescueChildState.Valid())
      && (alwaysChildState != null ==>
            && alwaysChildState in Repr - {this} && alwaysChildState.Repr <= Repr - {this}
            && alwaysChildState in alwaysChildState.Repr && alwaysChildState.Valid())
      && (tasksChildState != null && rescueChildState != null ==> tasksChildState.Repr !! rescueChildState.Repr)
      && (tasksChildState != null && alwaysChildState != null ==> tasksChildState.Repr !! alwaysChildState.Repr)
      && (rescueChildState != null && alwaysChildState != null ==> rescueChildState.Repr !! alwaysChildState.Repr)
    }

    ghost function Fields(): State
      reads this, tasksChildState, rescueChildState, alwaysChildState
    {
      State(blocks, handlers, handlerNotifications, curBlock, curRegularTask, curRescueTask, curAlwaysTask,
            curHandlersTask, runState, failState, preFlushingRunState, updateHandlers, pendingSetup,
            ModelOf(tasksChildState), ModelOf(rescueChildState), ModelOf(alwaysChildState),
            didRescue, didStartAtTask)
    }

    constructor (blocks: seq<Block>)
      ensures Valid() && fresh(Repr)
      ensures Model == Initial(blocks)
    {
      this.blocks := blocks;
      handlers := [];
      handlerNotifications := [];
      curBlock, curRegularTask, curRescueTask, curAlwaysTask, curHandlersTask := 0, 0, 0, 0, 0;
      runState := SETUP;
      failState := NO_FAILURE;
      preFlushingRunState := None;
      updateHandlers := true;
      pendingSetup := false;
      tasksChildState, rescueChildState, alwaysChildState := null, null, null;
      didRescue := false;
      didStartAtTask := false;
      Model := Initial(blocks);
      Repr := {this};
    }

    /** The fields of `that`, over child states of its own. */
    constructor CopyOf(that: HostState, tasksChild: HostState?, rescueChild: HostState?, alwaysChild: HostState?)
      requires that.Valid()
      requires tasksChild != null ==> tasksChild.Valid()
      requires rescueChild != null ==> rescueChild.Valid()
      requires alwaysChild != null ==> alwaysChild.Valid()
      requires Apart(tasksChild, rescueChild) && Apart(tasksChild, alwaysChild) && Apart(rescueChild, alwaysChild)
      requires ModelOf(tasksChild) == that.Model.tasksChild
      requires ModelOf(rescueChild) == that.Model.rescueChild
      requires ModelOf(alwaysChild) == that.Model.alwaysChild
      ensures Valid() && Model == that.Model
      ensures Repr == {this} + Owned(tasksChild) + Owned(rescueChild) + Owned(alwaysChild)
    {
      blocks := that.blocks;
      handlers := that.handlers;
      handlerNotifications := that.handlerNotifications;
      curBlock := that.curBlock;
      curRegularTask := that.curRegularTask;
      curRescueTask := that.curRescueTask;
      curAlwaysTask := that.curAlwaysTask;
      curHandlersTask := that.curHandlersTask;
      runState := that.runState;
      failState := that.failState;
      preFlushingRunState := that.preFlushingRunState;
      updateHandlers := that.updateHandlers;
      pendingSetup := that.pendingSetup;
      didRescue := that.didRescue;
      didStartAtTask := that.didStartAtTask;
      tasksChildState, rescueChildState, alwaysChildState := tasksChild, rescueChild, alwaysChild;
      Repr := {this} + Owned(tasksChild) + Owned(rescueChild) + Owned(alwaysChild);
      Model := that.Model;
    }

    // ---- assignments to one field, which keep the model in step

    method SetBlocks(v: seq<Block>)
      requires Valid()
      modifies `blocks, `Model
      ensures Valid() && Model == old(Model).(blocks := v)
    {
      hide KidsValid;
      blocks := v;
      Model := Model.(blocks := v);
    }

    method SetHandlers(v: seq<TaskId>)
      requires Valid()
      modifies `handlers, `Model
      ensures Valid() && Model == old(Model).(handlers := v)
    {
      hide KidsValid;
      handlers := v;
      Model := Model.(handlers := v);
    }

    method SetCurBlock(v: nat)
      requires Valid()
      modifies `curBlock, `Model
      ensures Valid() && Model == old(Model).(curBlock := v)
    {
      hide KidsValid;
      curBlock := v;
      Model := Model.(curBlock := v);
    }

    method SetCurRegularTask(v: nat)
      requires Valid()
      modifies `curRegularTask, `Model
      ensures Valid() && Model == old(Model).(curTask := v)
    {
      hide KidsValid;
      curRegularTask := v;
      Model := Model.(curTask := v);
    }

    method SetCurRescueTask(v: nat)
      requires Valid()
      modifies `curRescueTask, `Model
      ensures Valid() && Model == old(Model).(curRescue := v)
    {
      hide KidsValid;
      curRescueTask := v;
      Model := Model.(curRescue := v);
    }

    method SetCurAlwaysTask(v: nat)
      requires Valid()
      modifies `curAlwaysTask, `Model
      ensures Valid() && Model == old(Model).(curAlways := v)
    {
      hide KidsValid;
      curAlwaysTask := v;
      Model := Model.(curAlways := v);
    }

    method SetCurHandlersTask(v: nat)
      requires Valid()
      modifies `curHandlersTask, `Model
      ensures Valid() && Model == old(Model).(curHandler := v)
    {
      hide KidsValid;
      curHandlersTask := v;
      Model := Model.(curHandler := v);
    }

    method SetRunState(v: RunState)
      requires Valid()
      modifies `runState, `Model
      ensures Valid() && Model == old(Model).(run := v)
    {
      hide KidsValid;
      runState := v;
      Model := Model.(run := v);
    }

    method SetFailState(v: FailedStates)
      requires Valid()
      modifies `failState, `Model
      ensures Valid() && Model == old(Model).(fail := v)
    {
      hide KidsValid;
      failState := v;
      Model := Model.(fail := v);
    }

    method SetPreFlushingRunState(v: Option<RunState>)
      requires Valid()
      modifies `preFlushingRunState, `Model
      ensures Valid() && Model == old(Model).(preFlush := v)
    {
      hide KidsValid;
      preFlushingRunState := v;
      Model := Model.(preFlush := v);
    }

    method SetUpdateHandlers(v: bool)
      requires Valid()
      modifies `updateHandlers, `Model
      ensures Valid() && Model == old(Model).(updateHandlers := v)
    {
      hide KidsValid;
      updateHandlers := v;
      Model := Model.(updateHandlers := v);
    }

    method SetPendingSetup(v: bool)
      requires Valid()
      modifies `pendingSetup, `Model
      ensures Valid() && Model == old(Model).(pendingSetup := v)
    {
      hide KidsValid;
      pendingSetup := v;
      Model := Model.(pendingSetup := v);
    }

    method SetDidRescue(v: bool)
      requires Valid()
      modifies `didRescue, `Model
      ensures Valid() && Model == old(Model).(didRescue := v)
    {
      hide KidsValid;
      didRescue := v;
      Model := Model.(didRescue := v);
    }

    method SetDidStartAtTask(v: bool)
      requires Valid()
      modifies `didStartAtTask, `Model
      ensures Valid() && Model == old(Model).(didStartAt := v)
    {
      hide KidsValid;
      didStartAtTask := v;
      Model := Model.(didStartAt := v);
    }

    // ---- child states are taken out while they work, and put back afterwards

    method TakeTasksChild() returns (c: HostState)
      requires Valid() && tasksChildState != null
      modifies `tasksChildState, `Model, `Repr
      ensures Valid() && Model == old(Model).(tasksChild := None)
      ensures c.Valid() && old(Model).tasksChild == Some(c.Model)
      ensures Repr !! c.Repr && Repr + c.Repr <= old(Repr)
    {
      hide Valid;
      Open();
      c := tasksChildState;
      tasksChildState := null;
      Repr := {this} + Owned(rescueChildState) + Owned(alwaysChildState);
      Model := Model.(tasksChild := None);
      Close();
    }

    method PutTasksChild(c: HostState)
      requires Valid() && Model.tasksChild.None?
      requires c.Valid() && c.Repr !! Repr
      modifies `tasksChildState, `Model, `Repr
      ensures Valid() && Model == old(Model).(tasksChild := Some(c.Model))
      ensures Repr == old(Repr) + c.Repr
    {
      hide Valid;
      Open();
      c.Open();
      tasksChildState := c;
      Repr := Repr + c.Repr;
      Model := Model.(tasksChild := Some(c.Model));
      Close();
    }

    method DropChildren()
      requires Valid()
      modifies `tasksChildState, `rescueChildState, `alwaysChildState, `Model, `Repr
      ensures Valid() && Repr <= old(Repr)
      ensures Model == old(Model).(tasksChild := None, rescueChild := None, alwaysChild := None)
    {
      hide Valid;
      Sync();
      if tasksChildState != null {
        var _ := TakeTasksChild();
        Sync();
      }
      if rescueChildState != null {
        var _ := TakeRescueChild();
        Sync();
      }
      if alwaysChildState != null {
        var _ := TakeAlwaysChild();
      }
    }

    method TakeRescueChild() returns (c: HostState)
      requires Valid() && rescueChildState != null
      modifies `rescueChildState, `Model, `Repr
      ensures Valid() && Model == old(Model).(rescueChild := None)
      ensures c.Valid() && old(Model).rescueChild == Some(c.Model)
      ensures Repr !! c.Repr && Repr + c.Repr <= old(Repr)
    {
      hide Valid;
      Open();
      c := rescueChildState;
      rescueChildState := null;
      Repr := {this} + Owned(tasksChildState) + Owned(alwaysChildState);
      Model := Model.(rescueChild := None);
      Close();
    }

    method PutRescueChild(c: HostState)
      requires Valid() && Model.rescueChild.None?
      requires c.Valid() && c.Repr !! Repr
      modifies `rescueChildState, `Model, `Repr
      ensures Valid() && Model == old(Model).(rescueChild := Some(c.Model))
      ensures Repr == old(Repr) + c.Repr
    {
      hide Valid;
      Open();
      c.Open();
      rescueChildState := c;
      Repr := Repr + c.Repr;
      Model := Model.(rescueChild := Some(c.Model));
      Close();
    }

    method TakeAlwaysChild() returns (c: HostState)
      requires Valid() && alwaysChildState != null
      modifies `alwaysChildState, `Model, `Repr
      ensures Valid() && Model == old(Model).(alwaysChild := None)
      ensures c.Valid() && old(Model).alwaysChild == Some(c.Model)
      ensures Repr !! c.Repr && Repr + c.Repr <= old(Repr)
    {
      hide Valid;
      Open();
      c := alwaysChildState;
      alwaysChildState := null;
      Repr := {this} + Owned(tasksChildState) + Owned(rescueChildState);
      Model := Model.(alwaysChild := None);
      Close();
    }

    method PutAlwaysChild(c: HostState)
      requires Valid() && Model.alwaysChild.None?
      requires c.Valid() && c.Repr !! Repr
      modifies `alwaysChildState, `Model, `Repr
      ensures Valid() && Model == old(Model).(alwaysChild := Some(c.Model))
      ensures Repr == old(Repr) + c.Repr
    {
      hide Valid;
      Open();
      c.Open();
      alwaysChildState := c;
      Repr := Repr + c.Repr;
      Model := Model.(alwaysChild := Some(c.Model));
      Close();
    }

    /** What a valid object's fields hold, in terms of its model. */
    lemma Sync()
      requires Valid()
      ensures this in Repr
      ensures blocks == Model.blocks && handlers == Model.handlers
      ensures curBlock == Model.curBlock && curRegularTask == Model.curTask
      ensures curRescueTask == Model.curRescue && curAlwaysTask == Model.curAlways
      ensures curHandlersTask == Model.curHandler
      ensures runState == Model.run && failState == Model.fail && preFlushingRunState == Model.preFlush
      ensures updateHandlers == Model.updateHandlers && pendingSetup == Model.pendingSetup
      ensures didRescue == Model.didRescue && didStartAtTask == Model.didStartAt
      ensures tasksChildState == null <==> Model.tasksChild.None?
      ensures rescueChildState == null <==> Model.rescueChild.None?
      ensures alwaysChildState == null <==> Model.alwaysChild.None?
    {
      hide KidsValid;
    }

    lemma KidsOf()
      requires Valid()
      ensures this in Repr
      ensures ModelOf(tasksChildState) == Model.tasksChild
      ensures ModelOf(rescueChildState) == Model.rescueChild
      ensures ModelOf(alwaysChildState) == Model.alwaysChild
      ensures tasksChildState != null ==>
                tasksChildState.Repr <= Repr && this !in tasksChildState.Repr && tasksChildState.Valid()
      ensures rescueChildState != null ==>
                rescueChildState.Repr <= Repr && this !in rescueChildState.Repr && rescueChildState.Valid()
      ensures alwaysChildState != null ==>
                alwaysChildState.Repr <= Repr && this !in alwaysChildState.Repr && alwaysChildState.Valid()
    {
    }

    /** A deep copy: an equal tree of new objects. */
    method Copy() returns (s: HostState)
      requires Valid()
      ensures s.Valid() && fresh(s.Repr)
      ensures s.Model == Model
      decreases Repr, 1
    {
      hide Valid;
      KidsOf();
      var t := CopyChild(tasksChildState);
      var r := CopyChild(rescueChildState);
      var a := CopyChild(alwaysChildState);
      s := new HostState.CopyOf(this, t, r, a);
    }

    method CopyChild(c: HostState?) returns (d: HostState?)
      requires this in Repr && (c == null || (c.Repr <= Repr && this !in c.Repr && c.Valid()))
      ensures (c == null <==> d == null)
      ensures d != null ==> d.Valid() && fresh(d.Repr) && d.Model == c.Model
      decreases Repr, 0
    {
      if c == null {
        d := null;
      } else {
        d := c.Copy();
      }
    }
  }

  ghost function ModelOf(c: HostState?): Option<State>
    reads c
  {
    if c == null then None else Some(c.Model)
  }

  ghost predicate Apart(c: HostState?, d: HostState?)
    reads c, d
  {
    Owned(c) !! Owned(d)
  }

  /** The objects a child state owns. */
  ghost function Owned(c: HostState?): set<object>
    reads c
  {
    if c == null then {} else c.Repr
  }

  /** _check_failed_state */
  method CheckFailedState(state: HostState) returns (failed: bool)
    requires state.Valid() && Sane(state.Model)
    ensures failed == CheckFailed(state.Model)
    decreases state.Repr
  {
    hide Sane, Ok, Settled, Parked;
    if state.runState == RESCUE && state.rescueChildState != null {
      ActiveChildSane(state.Model);
      var childFailed := CheckFailedState(state.rescueChildState);
      if childFailed { return true; }
    }
    if state.runState == ALWAYS && state.alwaysChildState != null {
      ActiveChildSane(state.Model);
      var childFailed := CheckFailedState(state.alwaysChildState);
      if childFailed { return true; }
    }
    if state.runState == HANDLERS && state.failState.handlers {
      return true;
    }
    if state.failState != NO_FAILURE {
      if state.runState == RESCUE && !state.failState.rescue {
        return false;
      } else if state.runState == ALWAYS && !state.failState.always {
        return false;
      } else {
        return !(state.didRescue && !state.failState.always);
      }
    }
    if state.runState == TASKS && state.tasksChildState != null {
      ActiveChildSane(state.Model);
      var childFailed := CheckFailedState(state.tasksChildState);
      if childFailed {
        var curBlock := state.blocks[state.curBlock];
        return !(|curBlock.rescue| > 0 && !state.failState.rescue);
      }
    }
    return false;
  }

  /** _set_failed_state for a state whose current section has no child state. */
  method FailHereState(state: HostState)
    requires state.Valid() && Parked(state.Model) && ActiveChild(state.Model).None?
    modifies state`failState, state`runState, state`updateHandlers, state`Model
    ensures state.Valid() && state.Model == FailHere(old(state.Model))
  {
    hide HostState.Valid, FailHere;
    state.Sync();
    ghost var was := state.Model;
    var run, fail := state.runState, state.failState;
    match run {
      case SETUP =>
        fail := fail.(setup := true);
        run := COMPLETE;
      case TASKS =>
        var block := state.blocks[state.curBlock];
        fail := fail.(tasks := true);
        run := if block.rescue != [] then RESCUE else if block.always != [] then ALWAYS else COMPLETE;
      case RESCUE =>
        var block := state.blocks[state.curBlock];
        fail := fail.(rescue := true);
        run := if block.always != [] then ALWAYS else COMPLETE;
      case ALWAYS =>
        fail := fail.(always := true);
        run := COMPLETE;
      case HANDLERS =>
        var block := state.blocks[state.curBlock];
        fail := fail.(handlers := true);
        run := if block.rescue != [] then RESCUE else if block.always != [] then ALWAYS else COMPLETE;
      case COMPLETE =>
    }
    assert fail == FailureBits(was) && run == RunAfterFailure(was);
    FailHereIs(was);
    if state.runState == HANDLERS {
      state.SetUpdateHandlers(true);
    }
    state.SetFailState(fail);
    state.SetRunState(run);
  }

  lemma {:induction false} FailHereIs(s: State)
    ensures FailHere(s)
         == s.(fail := FailureBits(s), run := RunAfterFailure(s),
               updateHandlers := s.updateHandlers || s.run == HANDLERS)
  {
  }

  /** Whether the section the cursor is in has a child state. */
  method HasActiveChild(state: HostState) returns (has: bool)
    requires state.Valid()
    ensures has == ActiveChild(state.Model).Some?
  {
    hide HostState.Valid;
    state.Sync();
    has := (state.runState == TASKS && state.tasksChildState != null)
           || (state.runState == RESCUE && state.rescueChildState != null)
           || (state.runState == ALWAYS && state.alwaysChildState != null);
  }

  method TakeActiveChild(state: HostState) returns (c: HostState)
    requires state.Valid() && ActiveChild(state.Model).Some?
    modifies state
    ensures state.Valid() && state in state.Repr && state.Model == WithChild(old(state.Model), None)
    ensures c.Valid() && Some(c.Model) == ActiveChild(old(state.Model))
    ensures state.Repr !! c.Repr && state.Repr + c.Repr <= old(state.Repr)
  {
    hide HostState.Valid;
    state.Sync();
    match state.runState {
      case TASKS => c := state.TakeTasksChild();
      case RESCUE => c := state.TakeRescueChild();
      case ALWAYS => c := state.TakeAlwaysChild();
    }
    state.Sync();
  }

  method PutActiveChild(state: HostState, c: HostState)
    requires state.Valid() && InSection(state.Model) && ActiveChild(state.Model).None?
    requires c.Valid() && state.Repr !! c.Repr
    modifies state
    ensures state.Valid() && state.Model == WithChild(old(state.Model), Some(c.Model))
    ensures state.Repr == old(state.Repr) + c.Repr
  {
    hide HostState.Valid;
    state.Sync();
    match state.runState {
      case TASKS => state.PutTasksChild(c);
      case RESCUE => state.PutRescueChild(c);
      case ALWAYS => state.PutAlwaysChild(c);
    }
  }

  lemma {:induction false} ChildFrame(s: State, c: Option<State>)
    requires InSection(s)
    ensures var t := WithChild(s, c);
            InSection(t) && ActiveChild(t) == c && t.run == s.run && forall d :: WithChild(t, d) == WithChild(s, d)
  {
  }

  /** _set_failed_state */
  method SetFailedState(state: HostState)
    requires state.Valid() && Sane(state.Model) && Parked(state.Model)
    modifies state.Repr
    ensures state.Valid() && state.Repr <= old(state.Repr)
    ensures state.Model == SetFailed(old(state.Model))
    decreases state.Model
  {
    hide Sane, Ok, Settled, Parked, FailHere, WithChild, HostState.Valid;
    ghost var was := state.Model;
    state.Sync();
    var has := HasActiveChild(state);
    if has {
      ActiveChildSane(was);
      ChildFrame(was, None);
      var c := TakeActiveChild(state);
      SetFailedState(c);
      PutActiveChild(state, c);
    } else {
      FailHereState(state);
    }
  }

  /** _insert_tasks_into_state where the tasks go into the current block itself. */
  method InsertHereState(state: HostState, taskList: seq<Task>)
    requires state.Valid() && InSection(state.Model) && InRange(state.Model) && ActiveChild(state.Model).None?
    modifies state`blocks, state`Model
    ensures state.Valid() && state.Model == InsertHere(old(state.Model), taskList)
  {
    hide HostState.Valid;
    state.Sync();
    var targetBlock := state.blocks[state.curBlock];
    match state.runState {
      case TASKS =>
        targetBlock := targetBlock.(block := Splice(targetBlock.block, state.curRegularTask, taskList));
      case RESCUE =>
        targetBlock := targetBlock.(rescue := Splice(targetBlock.rescue, state.curRescueTask, taskList));
      case ALWAYS =>
        targetBlock := targetBlock.(always := Splice(targetBlock.always, state.curAlwaysTask, taskList));
    }
    state.SetBlocks(state.blocks[state.curBlock := targetBlock]);
  }

  /** _insert_tasks_into_state */
  method InsertTasksIntoState(state: HostState, taskList: seq<Task>)
    requires state.Valid() && Sane(state.Model) && Parked(state.Model)
    modifies state.Repr
    ensures state.Valid() && state.Repr <= old(state.Repr)
    ensures state.Model == Insert(old(state.Model), taskList)
    decreases state.Model
  {
    hide Sane, Ok, Settled, WithChild, InsertHere, HostState.Valid;
    ghost var was := state.Model;
    state.Sync();
    if (state.failState != NO_FAILURE && state.runState == TASKS) || taskList == [] {
      return;
    }
    var has := HasActiveChild(state);
    if has {
      ActiveChildSane(was);
      ChildFrame(was, None);
      var c := TakeActiveChild(state);
      InsertTasksIntoState(c, taskList);
      PutActiveChild(state, c);
    } else if state.runState == TASKS || state.runState == RESCUE || state.runState == ALWAYS {
      InsertHereState(state, taskList);
    } else if state.runState == HANDLERS {
      state.SetHandlers(Splice(state.handlers, state.curHandlersTask, Flatten(taskList)));
    }
  }

  /** get_active_state */
  method GetActiveState(state: HostState) returns (active: HostState)
    requires state.Valid()
    ensures active in state.Repr && active.Valid() && active.Repr <= state.Repr
    ensures active.Model == Active(state.Model)
    decreases state.Repr
  {
    if state.runState == TASKS && state.tasksChildState != null {
      active := GetActiveState(state.tasksChildState);
    } else if state.runState == RESCUE && state.rescueChildState != null {
      active := GetActiveState(state.rescueChildState);
    } else if state.runState == ALWAYS && state.alwaysChildState != null {
      active := GetActiveState(state.alwaysChildState);
    } else {
      active := state;
    }
  }

  /** One turn of the loop in SETUP. */
  method StepSetupState(state: HostState, env: Env) returns (task: Option<TaskId>)
    requires state.Valid() && state.runState == SETUP
    modifies state
    ensures state.Valid() && state.Repr <= old(state.Repr)
    ensures Turn(state.Model, task) == StepSetup(old(state.Model), env)
  {
    hide HostState.Valid;
    state.Sync();
    task := None;
    if !state.pendingSetup {
      state.SetPendingSetup(true);
      if env.gather && env.setup.Some? {
        task := env.setup;
      }
    } else {
      state.SetPendingSetup(false);
      state.SetRunState(TASKS);
      if !state.didStartAtTask {
        StartNextBlock(state);
      }
    }
  }

  /** The cursor is put at the start of the next block. */
  method StartNextBlock(state: HostState)
    requires state.Valid()
    modifies state
    ensures state.Valid() && state.Repr <= old(state.Repr)
    ensures state.Model == NextBlock(old(state.Model))
  {
    hide HostState.Valid;
    state.Sync();
    state.SetCurBlock(state.curBlock + 1);
    state.SetCurRegularTask(0);
    state.SetCurRescueTask(0);
    state.SetCurAlwaysTask(0);
    state.SetRunState(TASKS);
    state.DropChildren();
  }

  /**
   Asks the child state that was taken out of the current section.  A failed child fails the
   section; a child is only put back if it handed out a task.  (A child never hands out a task
   when it is failed or complete, so the task of a dropped child is always empty.)
  */
  method AskChild(state: HostState, c: HostState, env: Env) returns (task: Option<TaskId>, keep: bool)
    requires state.Valid() && c.Valid() && state.Repr !! c.Repr
    requires Sane(c.Model) && AnswerOk(Next(c.Model, env))
    requires InSection(state.Model) && InRange(state.Model) && ActiveChild(state.Model).None?
    modifies state, c.Repr
    ensures state.Valid() && c.Valid() && state.Repr == old(state.Repr)
    ensures fresh(c.Repr - old(c.Repr)) && state.Repr !! c.Repr
    ensures var a, s := Next(old(c.Model), env), old(state.Model);
            && c.Model == a.state && task == a.task
            && keep == (!CheckFailed(a.state) && a.task.Some?)
            && (keep ==> a.state.run != COMPLETE)
            && (!keep ==> task.None?)
            && state.Model == if CheckFailed(a.state) then FailHere(s) else s
    decreases Size(c.Model, 1), 2
  {
    hide Sane, Ok, Settled, CheckFailed, FailHere, Next, Size, HostState.Valid;
    NextSane(c.Model, env);
    state.Sync();
    task := GetNextTaskFromState(c, env);
    var failed := CheckFailedState(c);
    c.Sync();
    if failed {
      FailHereState(state);
      keep := false;
    } else if task.None? || c.runState == COMPLETE {
      keep := false;
    } else {
      keep := true;
    }
  }

  /** The loop clears the pending-setup flag when it comes to the block section. */
  method EnterTasks(state: HostState)
    requires state.Valid() && state.Model.run == TASKS
    modifies state`pendingSetup, state`Model
    ensures state.Valid() && state.Model == Entered(old(state.Model))
  {
    hide HostState.Valid;
    state.Sync();
    if state.pendingSetup {
      state.SetPendingSetup(false);
    }
  }

  /** One turn of the loop in TASKS. */
  method StepTasksState(state: HostState, env: Env) returns (task: Option<TaskId>)
    requires state.Valid() && Sane(state.Model) && state.Model.run == TASKS && InRange(state.Model)
    modifies state.Repr
    ensures state.Valid() && fresh(state.Repr - old(state.Repr))
    ensures Turn(state.Model, task) == Step(old(state.Model), env, Answer(old(state.Model), env))
    decreases Size(state.Model, 1), 0
  {
    hide Sane, Ok, Settled, CheckFailed, FailHere, Next, Size, HostState.Valid, Step, Start;
    ghost var was := state.Model;
    task := None;
    state.Sync();
    EnterTasks(state);
    state.Sync();
    EnteredSane(was);
    SectionStep(was, env);
    if state.tasksChildState != null {
      ActiveChildSane(was);
      AnswersSane(was, env);
      ActiveChildShrinks(was, 1);
      var c := state.TakeTasksChild();
      var keep;
      task, keep := AskChild(state, c, env);
      if keep {
        state.PutTasksChild(c);
      }
    } else {
      task := StartTasksState(state);
    }
  }

  /** A step in a section, by whether there is a child state. */
  lemma {:induction false} SectionStep(s: State, env: Env)
    requires InSection(s) && InRange(s)
    ensures var t, a := Entered(s), Answer(s, env);
            && InSection(t) && InRange(t) && ActiveChild(t) == ActiveChild(s) && t.run == s.run
            && Step(s, env, a) == if a.Some? then Resume(t, a.value) else Start(t)
  {
    hide Next, Start, Resume;
  }

  /** The child state made for a nested block. */
  method NewChild(b: Block) returns (c: HostState)
    ensures c.Valid() && fresh(c.Repr) && c.Model == Child(b)
  {
    hide HostState.Valid;
    c := new HostState([b]);
    c.SetRunState(TASKS);
  }

  /** TASKS without a child state. */
  method StartTasksState(state: HostState) returns (task: Option<TaskId>)
    requires state.Valid() && Sane(state.Model) && state.Model.run == TASKS && InRange(state.Model)
    requires state.Model.tasksChild.None?
    modifies state
    ensures state.Valid() && fresh(state.Repr - old(state.Repr))
    ensures Turn(state.Model, task) == Start(old(state.Model))
  {
    hide Sane, Ok, Settled, CheckFailed, Child, HostState.Valid;
    state.Sync();
    task := None;
    var block := state.blocks[state.curBlock];
    var failed := CheckFailedState(state);
    if failed {
      state.SetRunState(RESCUE);
    } else if state.curRegularTask >= |block.block| {
      state.SetRunState(ALWAYS);
    } else {
      var task' := block.block[state.curRegularTask];
      state.SetCurRegularTask(state.curRegularTask + 1);
      match task'
      case Leaf(id) =>
        task := Some(id);
      case Nested(b) =>
        var c := NewChild(b);
        state.PutTasksChild(c);
    }
  }

  /** One turn of the loop in RESCUE. */
  method StepRescueState(state: HostState, env: Env) returns (task: Option<TaskId>)
    requires state.Valid() && Sane(state.Model) && state.Model.run == RESCUE && InRange(state.Model)
    modifies state.Repr
    ensures state.Valid() && fresh(state.Repr - old(state.Repr))
    ensures Turn(state.Model, task) == Step(old(state.Model), env, Answer(old(state.Model), env))
    decreases Size(state.Model, 1), 0
  {
    hide Sane, Ok, Settled, CheckFailed, FailHere, Next, Size, HostState.Valid, Step, Start;
    ghost var was := state.Model;
    task := None;
    state.Sync();
    SectionStep(was, env);
    assert state.Model == Entered(was);
    if state.rescueChildState != null {
      ActiveChildSane(was);
      AnswersSane(was, env);
      ActiveChildShrinks(was, 1);
      var c := state.TakeRescueChild();
      var keep;
      task, keep := AskChild(state, c, env);
      if keep {
        state.PutRescueChild(c);
      }
    } else {
      task := StartRescueState(state);
    }
  }

  /** RESCUE without a child state. */
  method StartRescueState(state: HostState) returns (task: Option<TaskId>)
    requires state.Valid() && Sane(state.Model) && state.Model.run == RESCUE && InRange(state.Model)
    requires state.Model.rescueChild.None?
    modifies state
    ensures state.Valid() && fresh(state.Repr - old(state.Repr))
    ensures Turn(state.Model, task) == Start(old(state.Model))
  {
    hide Sane, Ok, Settled, CheckFailed, Child, HostState.Valid;
    state.Sync();
    task := None;
    var block := state.blocks[state.curBlock];
    if state.failState.rescue {
      state.SetRunState(ALWAYS);
    } else if state.curRescueTask >= |block.rescue| {
      if |block.rescue| > 0 {
        state.SetFailState(NO_FAILURE);
      }
      state.SetRunState(ALWAYS);
      state.SetDidRescue(true);
    } else {
      var task' := block.rescue[state.curRescueTask];
      state.SetCurRescueTask(state.curRescueTask + 1);
      match task'
      case Leaf(id) =>
        task := Some(id);
      case Nested(b) =>
        var c := NewChild(b);
        state.PutRescueChild(c);
    }
  }

  /** One turn of the loop in ALWAYS. */
  method StepAlwaysState(state: HostState, env: Env) returns (task: Option<TaskId>)
    requires state.Valid() && Sane(state.Model) && state.Model.run == ALWAYS && InRange(state.Model)
    modifies state.Repr
    ensures state.Valid() && fresh(state.Repr - old(state.Repr))
    ensures Turn(state.Model, task) == Step(old(state.Model), env, Answer(old(state.Model), env))
    decreases Size(state.Model, 1), 0
  {
    hide Sane, Ok, Settled, CheckFailed, FailHere, Next, Size, HostState.Valid, Step, Start;
    ghost var was := state.Model;
    task := None;
    state.Sync();
    SectionStep(was, env);
    assert state.Model == Entered(was);
    if state.alwaysChildState != null {
      ActiveChildSane(was);
      AnswersSane(was, env);
      ActiveChildShrinks(was, 1);
      var c := state.TakeAlwaysChild();
      var keep;
      task, keep := AskChild(state, c, env);
      if keep {
        state.PutAlwaysChild(c);
      }
    } else {
      task := StartAlwaysState(state);
    }
  }

  /** ALWAYS without a child state. */
  method StartAlwaysState(state: HostState) returns (task: Option<TaskId>)
    requires state.Valid() && Sane(state.Model) && state.Model.run == ALWAYS && InRange(state.Model)
    requires state.Model.alwaysChild.None?
    modifies state
    ensures state.Valid() && fresh(state.Repr - old(state.Repr))
    ensures Turn(state.Model, task) == Start(old(state.Model))
  {
    hide Sane, Ok, Settled, CheckFailed, Child, HostState.Valid;
    state.Sync();
    task := None;
    var block := state.blocks[state.curBlock];
    if state.curAlwaysTask >= |block.always| {
      if state.failState != NO_FAILURE {
        state.SetRunState(COMPLETE);
      } else {
        StartNextBlock(state);
        state.SetDidRescue(false);
      }
    } else {
      var task' := block.always[state.curAlwaysTask];
      state.SetCurAlwaysTask(state.curAlwaysTask + 1);
      match task'
      case Leaf(id) =>
        task := Some(id);
      case Nested(b) =>
        var c := NewChild(b);
        state.PutAlwaysChild(c);
    }
  }

  /** One turn of the loop in HANDLERS. */
  method StepHandlersState(state: HostState, env: Env) returns (task: Option<TaskId>)
    requires state.Valid() && Sane(state.Model) && state.Model.run == HANDLERS
    modifies state
    ensures state.Valid() && state.Repr == old(state.Repr)
    ensures Turn(state.Model, task) == StepHandlers(old(state.Model), env)
  {
    hide Ok, ChildrenOk, HostState.Valid;
    task := None;
    state.Sync();
    if state.updateHandlers {
      state.SetHandlers(env.handlers);
      state.SetUpdateHandlers(false);
      state.SetCurHandlersTask(0);
    }
    ghost var s := state.Model;
    assert s == RefreshHandlers(old(state.Model), env);
    SameKidsSane(old(state.Model), s);
    state.Sync();
    if state.failState.handlers {
      state.SetUpdateHandlers(true);
      state.SetRunState(COMPLETE);
    } else {
      task := ScanHandlersState(state, env);
    }
  }

  /** The inner loop in HANDLERS: on to the next notified handler. */
  method ScanHandlersState(state: HostState, env: Env) returns (task: Option<TaskId>)
    requires state.Valid() && Sane(state.Model) && state.Model.run == HANDLERS
    modifies state
    ensures state.Valid() && state.Repr == old(state.Repr)
    ensures Turn(state.Model, task) == ScanHandlers(old(state.Model), env)
  {
    hide Ok, ChildrenOk, HostState.Valid;
    ghost var s := state.Model;
    task := None;
    while true
      invariant state.Valid() && state.Repr == old(state.Repr) && task.None?
      invariant state.Model == s.(curHandler := state.Model.curHandler)
      invariant NextNotified(s.handlers, state.Model.curHandler, env.notified) ==
                NextNotified(s.handlers, s.curHandler, env.notified)
      decreases |s.handlers| - state.Model.curHandler
    {
      state.Sync();
      if state.curHandlersTask >= |state.handlers| {
        state.SetRunState(state.preFlushingRunState.value);
        state.SetUpdateHandlers(true);
        break;
      }
      var handler := state.handlers[state.curHandlersTask];
      state.SetCurHandlersTask(state.curHandlersTask + 1);
      if handler in env.notified {
        task := Some(handler);
        break;
      }
    }
  }

  /** _get_next_task_from_state */
  method GetNextTaskFromState(state: HostState, env: Env) returns (task: Option<TaskId>)
    requires state.Valid() && Sane(state.Model)
    modifies state.Repr
    ensures state.Valid() && fresh(state.Repr - old(state.Repr))
    ensures Turn(state.Model, task) == Next(old(state.Model), env)
    decreases Size(state.Model, 1), 1
  {
    hide Sane, Ok, Size, Resume, Start, StepSetup, StepHandlers, HostState.Valid;
    ghost var start := state.Model;
    task := None;
    while true
      invariant state.Valid() && fresh(state.Repr - old(state.Repr)) && task.None?
      invariant Sane(state.Model)
      invariant Next(state.Model, env) == Next(start, env)
      invariant Size(state.Model, 1) <= Size(start, 1)
      decreases Size(state.Model, 1)
    {
      state.Sync();
      ghost var was := state.Model;
      if state.curBlock >= |state.blocks| {
        state.SetRunState(COMPLETE);
        return;
      }
      if state.runState == COMPLETE {
        return;
      }
      NextUnfold(was, env);
      AnswersSane(was, env);
      StepSane(was, env, Answer(was, env));
      StepShrinks(was, env, Answer(was, env), 1);
      match state.runState {
        case SETUP => task := StepSetupState(state, env);
        case TASKS => task := StepTasksState(state, env);
        case RESCUE => task := StepRescueState(state, env);
        case ALWAYS => task := StepAlwaysState(state, env);
        case HANDLERS => task := StepHandlersState(state, env);
        case COMPLETE =>
      }
      if task.Some? {
        break;
      }
    }
  }
}
