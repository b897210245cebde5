/**
 PlayIterator as an object: the cursors of all hosts of one play, kept in a dictionary that
 the operations update.  `States` is the dictionary's value.
*/
module PlayIterators {
  import opened Basics
  import opened PlaySemantics
  import opened IteratorModel
  import opened IteratorInvariants
  import opened IteratorBound
  import opened SaneStates
  import opened HostStates
  import opened StartAtTask

  type HostName = string

  /** What an iterator needs to know about a host that it does not keep itself. */
  datatype HostFacts = HostFacts(gather: bool, notified: set<TaskId>)

  /** get_host_state gives an unknown host a state without blocks. */
  function WithStub(states: map<HostName, State>, host: HostName): map<HostName, State> {
    if host in states then states else states[host := Initial([])]
  }

  function FailedHosts(states: map<HostName, State>): set<HostName> {
    set h | h in states && CheckFailed(states[h])
  }

  /** The fact-gathering task, if the setup block still has it. */
  function SetupOf(blocks: seq<Block>): Option<TaskId> {
    if |blocks| > 0 && |blocks[0].block| > 0 && blocks[0].block[0].Leaf? then Some(blocks[0].block[0].id) else None
  }

  function EnvOf(blocks: seq<Block>, handlers: seq<TaskId>, facts: HostFacts): Env {
    Env(facts.gather, SetupOf(blocks), handlers, facts.notified)
  }

  /** The states a play starts with, and whether some host found the task to start at. */
  datatype Started = Started(states: map<HostName, State>, matched: bool)

  /** What a new host gets: a fresh state, moved to the task to start at if there is one. */
  function StartState(blocks: seq<Block>, env: Env, startAt: Option<set<TaskId>>, matched: bool): Found {
    if startAt.None? then Found(Initial(blocks), matched)
    else
      InitialOk(blocks);
      var f := Seek(Initial(blocks), env, startAt.value);
      var m := matched || f.matched;
      Found(if m then Restart(f.state) else f.state, m)
  }

  function StartStates(blocks: seq<Block>, handlers: seq<TaskId>, facts: HostName -> HostFacts, batch: seq<HostName>,
                       startAt: Option<set<TaskId>>): Started {
    if batch == [] then Started(map[], false)
    else
      var host := batch[|batch| - 1];
      var earlier := StartStates(blocks, handlers, facts, batch[..|batch| - 1], startAt);
      var f := StartState(blocks, EnvOf(blocks, handlers, facts(host)), startAt, earlier.matched);
      Started(earlier.states[host := f.state], f.matched)
  }

  class PlayIterator {
    var blocks: seq<Block>                 // the setup block and the compiled blocks of the play
    var handlers: seq<TaskId>
    var hostStates: map<HostName, HostState>
    var removedHosts: seq<HostName>        // the play's list of removed hosts
    ghost var States: map<HostName, State>
    ghost var Repr: set<object>

    ghost predicate Valid()
      reads this, Repr
    {
      && this in Repr
      && hostStates.Keys == States.Keys
      && (forall h :: h in hostStates ==> Holds(h))
      && (forall g, h :: g in hostStates && h in hostStates && g != h ==> hostStates[g].Repr !! hostStates[h].Repr)
    }

    /** The state object of `h` is sound, belongs to this iterator and stands for `States[h]`. */
    ghost predicate Holds(h: HostName)
      requires h in hostStates
      reads this, Repr
    {
      && var s := hostStates[h];
      && s in Repr && s.Repr <= Repr && this !in s.Repr
      && s.Valid()
      && h in States && s.Model == States[h]
      && Sane(States[h]) && Parked(States[h])
    }

    ghost function Environment(facts: HostFacts): Env
      reads `blocks, `handlers
    {
      EnvOf(blocks, handlers, facts)
    }

    /**
     The play starts with a fresh state for every host of the batch.  With a task to start at,
     each host is first run forward to it; from the first host that matches on, every host is
     sent back to setup from where its own search ended.
    */
    constructor (blocks: seq<Block>, handlers: seq<TaskId>, batch: seq<HostName>,
                 facts: HostName -> HostFacts, startAt: Option<set<TaskId>>)
      ensures Valid() && fresh(Repr)
      ensures this.blocks == blocks && this.handlers == handlers && removedHosts == []
      ensures States == StartStates(blocks, handlers, facts, batch, startAt).states
    {
      this.blocks := blocks;
      this.handlers := handlers;
      hostStates := map[];
      removedHosts := [];
      States := map[];
      Repr := {this};
      new;
      var matched := false;
      for i := 0 to |batch|
        invariant Valid() && fresh(Repr)
        invariant this.blocks == blocks && this.handlers == handlers && removedHosts == []
        invariant Started(States, matched) == StartStates(blocks, handlers, facts, batch[..i], startAt)
      {
        assert batch[..i + 1][..i] == batch[..i];
        matched := StartHost(batch[i], facts(batch[i]), startAt, matched);
      }
      assert batch[..|batch|] == batch;
    }

    method StartHost(host: HostName, facts: HostFacts, startAt: Option<set<TaskId>>, matched: bool)
      returns (m: bool)
      requires Valid()
      modifies `hostStates, `States, `Repr
      ensures Valid() && fresh(Repr - old(Repr))
      ensures var r := StartState(blocks, Environment(facts), startAt, matched);
              States == old(States)[host := r.state] && m == r.matched
    {
      hide HostState.Valid, Sane, Parked, Valid, Ok, Seek, Initial, Restart, EnvOf, WithStub, Settled;
      var s := new HostState(blocks);
      s.Sync();
      InitialOk(blocks);
      OkSane(Initial(blocks));
      SetStateForHost(host, s);
      KnownHost(host);
      m := matched;
      if startAt.Some? {
        m := SeekHost(host, facts, startAt.value, matched);
      }
    }

    method SeekHost(host: HostName, facts: HostFacts, wanted: set<TaskId>, matched: bool) returns (m: bool)
      requires Valid() && host in hostStates && Ok(States[host]) && Settled(States[host])
      modifies `hostStates, `States, `Repr, hostStates[host]
      ensures Valid() && fresh(Repr - old(Repr))
      ensures var f := Seek(old(States)[host], Environment(facts), wanted);
              && m == (matched || f.matched)
              && States == old(States)[host := if m then Restart(f.state) else f.state]
    {
      hide HostState.Valid, Sane, Parked, Valid, Ok, Seek, Restart, EnvOf, Settled;
      KnownHost(host);
      var own := FastForward(host, facts, wanted);
      m := matched || own;
      if m {
        SendBackToSetup(host);
      }
    }

    /** The search for the task to start at, for one host. */
    method FastForward(host: HostName, facts: HostFacts, wanted: set<TaskId>) returns (matched: bool)
      requires Valid() && host in hostStates && Ok(States[host]) && Settled(States[host])
      modifies `hostStates, `States, `Repr
      ensures Valid() && fresh(Repr - old(Repr)) && host in hostStates
      ensures hostStates[host] == old(hostStates[host]) || fresh(hostStates[host])
      ensures var f := Seek(old(States)[host], Environment(facts), wanted);
              States == old(States)[host := f.state] && matched == f.matched
    {
      hide HostState.Valid, Sane, Parked, Valid, Ok, Settled, Next, Size;
      matched := false;
      KnownHost(host);
      while true
        invariant host in hostStates && (hostStates[host] == old(hostStates[host]) || fresh(hostStates[host]))
        invariant Valid() && fresh(Repr - old(Repr)) && host in States && host in old(States)
        invariant States == old(States)[host := States[host]]
        invariant Ok(States[host]) && Settled(States[host]) && !matched
        invariant Seek(States[host], Environment(facts), wanted) == Seek(old(States)[host], Environment(facts), wanted)
        decreases Ahead(States[host])
      {
        ghost var was := States[host];
        var s, task := GetNextTaskForHost(host, facts, true);
        s.Sync();
        NextOk(was, Environment(facts));
        NextUses(was, Environment(facts));
        SeekUnfold(was, Environment(facts), wanted);
        if s.runState == COMPLETE {
          break;
        }
        assert task.Some?;
        if task.value in wanted {
          matched := true;
          break;
        }
        NextStaysSettled(was, Environment(facts));
        SetStateForHost(host, s);
      }
      KnownHost(host);
    }

    /** set_state_for_host */
    method SetStateForHost(host: HostName, s: HostState)
      requires Valid() && s.Valid() && Sane(s.Model) && Parked(s.Model) && s.Repr !! Repr
      modifies `hostStates, `States, `Repr
      ensures Valid() && States == old(States)[host := s.Model] && hostStates == old(hostStates)[host := s]
      ensures Repr == old(Repr) + s.Repr
    {
      hide HostState.Valid, Sane, Parked;
      s.Sync();
      ghost var before := hostStates;
      hostStates, States, Repr := hostStates[host := s], States[host := s.Model], Repr + s.Repr;
      forall h | h in hostStates
        ensures Holds(h)
      {
        if h != host {
          assert old(Holds(h));
          assert hostStates[h] == before[h];
        }
      }
      forall g, h | g in hostStates && h in hostStates && g != h
        ensures hostStates[g].Repr !! hostStates[h].Repr
      {
        assert g != host ==> old(Holds(g));
        assert h != host ==> old(Holds(h));
      }
    }

    /** get_host_state: a copy, after an unknown host was given a stub. */
    method GetHostState(host: HostName) returns (s: HostState)
      requires Valid()
      modifies `hostStates, `States, `Repr
      ensures Valid() && States == WithStub(old(States), host) && fresh(Repr - old(Repr))
      ensures host in old(hostStates) ==> hostStates == old(hostStates) && States == old(States) && Repr == old(Repr)
      ensures s.Valid() && fresh(s.Repr) && s.Repr !! Repr
      ensures s.Model == States[host] && Sane(s.Model) && Parked(s.Model)
    {
      hide HostState.Valid, Sane, Parked;
      if host !in hostStates {
        var stub := new HostState([]);
        StubSane();
        SetStateForHost(host, stub);
      }
      assert Holds(host);
      s := hostStates[host].Copy();
    }

    /**
     get_next_task_for_host.  With `peek` the answer is the same, but nothing that is stored
     changes: the states are not in the frame of this method, and for a known host neither is
     any field.
    */
    method GetNextTaskForHost(host: HostName, facts: HostFacts, peek: bool)
      returns (s: HostState, task: Option<TaskId>)
      requires Valid()
      modifies `hostStates, `States, `Repr
      ensures Valid() && fresh(Repr - old(Repr))
      ensures s.Valid() && fresh(s.Repr) && (peek ==> s.Repr !! Repr) && Sane(s.Model) && Parked(s.Model)
      ensures Turn(s.Model, task) == Next(WithStub(old(States), host)[host], Environment(facts))
      ensures States == if peek then WithStub(old(States), host) else WithStub(old(States), host)[host := s.Model]
      ensures peek && host in old(hostStates) ==>
                hostStates == old(hostStates) && States == old(States) && Repr == old(Repr)
      ensures task.None? ==> s.Model.run == COMPLETE
    {
      hide HostState.Valid, Sane, Parked, Valid, Next;
      s := GetHostState(host);
      s.Sync();
      ghost var was := s.Model;
      if s.runState == COMPLETE {
        CompleteNext(was, Environment(facts));
        assert States[host := was] == States;
        return s, None;
      }
      NextSane(was, Environment(facts));
      task := GetNextTaskFromState(s, EnvOf(blocks, handlers, facts));
      if !peek {
        SetStateForHost(host, s);
      }
    }

    method MarkHostFailed(host: HostName)
      requires Valid()
      modifies `hostStates, `States, `Repr, `removedHosts
      ensures Valid() && fresh(Repr - old(Repr))
      ensures var states := WithStub(old(States), host);
              States == states[host := SetFailed(states[host])]
      ensures removedHosts == old(removedHosts) + [host]
    {
      hide HostState.Valid, Sane, Parked, Valid;
      var s := GetHostState(host);
      SetFailedSane(s.Model);
      s.Sync();
      SetFailedState(s);
      SetStateForHost(host, s);
      NoteRemoved(host);
    }

    method NoteRemoved(host: HostName)
      requires Valid()
      modifies `removedHosts
      ensures Valid() && removedHosts == old(removedHosts) + [host]
    {
      hide HostState.Valid, Sane, Parked;
      removedHosts := removedHosts + [host];
    }

    method AddTasks(host: HostName, taskList: seq<Task>)
      requires Valid()
      modifies `hostStates, `States, `Repr
      ensures Valid() && fresh(Repr - old(Repr))
      ensures var states := WithStub(old(States), host);
              States == states[host := Insert(states[host], taskList)]
    {
      hide HostState.Valid, Sane, Parked, Valid;
      var s := GetHostState(host);
      InsertSane(s.Model, taskList);
      s.Sync();
      InsertTasksIntoState(s, taskList);
      SetStateForHost(host, s);
    }

    method IsFailed(host: HostName) returns (failed: bool)
      requires Valid()
      modifies `hostStates, `States, `Repr
      ensures Valid() && States == WithStub(old(States), host) && fresh(Repr - old(Repr))
      ensures failed == CheckFailed(States[host])
    {
      hide HostState.Valid, Sane, Parked, Valid;
      var s := GetHostState(host);
      failed := CheckFailedState(s);
    }

    method GetFailedHosts() returns (failed: set<HostName>)
      requires Valid()
      ensures failed == FailedHosts(States)
    {
      failed := {};
      var todo := hostStates.Keys;
      while todo != {}
        invariant todo <= hostStates.Keys
        invariant failed == set h | h in States && h !in todo && CheckFailed(States[h])
        decreases todo
      {
        var host :| host in todo;
        assert Holds(host);
        var b := CheckFailedState(hostStates[host]);
        if b {
          failed := failed + {host};
        }
        todo := todo - {host};
      }
    }

    /** The strategy's start of a flush: the stored state of the host is switched to HANDLERS in place. */
    method BeginFlush(host: HostName)
      requires Valid() && host in hostStates
      requires States[host].run != HANDLERS && InRange(States[host])
      modifies this, hostStates[host]
      ensures Valid() && Repr == old(Repr) && hostStates == old(hostStates)
      ensures States == old(States)[host := StartFlush(old(States)[host])]
      ensures blocks == old(blocks) && handlers == old(handlers) && removedHosts == old(removedHosts)
    {
      hide HostState.Valid, Sane, Parked;
      assert Holds(host);
      StartFlushSane(States[host]);
      var s := hostStates[host];
      s.Sync();
      s.SetPreFlushingRunState(Some(s.runState));
      s.SetRunState(HANDLERS);
      Restore(host);
    }

    /** A host that starts at a task goes back to setup, and remembers that it does. */
    method SendBackToSetup(host: HostName)
      requires Valid() && host in hostStates
      modifies `States, hostStates[host]
      ensures Valid() && States == old(States)[host := Restart(old(States)[host])]
    {
      hide HostState.Valid, Sane, Parked;
      assert Holds(host);
      RestartSane(States[host]);
      var s := hostStates[host];
      s.Sync();
      s.SetDidStartAtTask(true);
      s.SetRunState(SETUP);
      Restore(host);
    }

    lemma KnownHost(host: HostName)
      requires Valid()
      ensures host in hostStates <==> host in States
    {
    }

    /** Brings `States` up to date after the state object of `host` was changed in place. */
    ghost method Restore(host: HostName)
      requires this in Repr && hostStates.Keys == States.Keys && host in hostStates
      requires forall h :: h in hostStates && h != host ==> Holds(h)
      requires forall g, h :: g in hostStates && h in hostStates && g != h ==> hostStates[g].Repr !! hostStates[h].Repr
      requires var s := hostStates[host];
               && s in Repr && s.Repr <= Repr && this !in s.Repr && s.Valid() && Sane(s.Model) && Parked(s.Model)
      modifies `States
      ensures Valid() && States == old(States)[host := hostStates[host].Model]
    {
      hide HostState.Valid, Sane, Parked;
      hostStates[host].Sync();
      States := States[host := hostStates[host].Model];
      forall h | h in hostStates
        ensures Holds(h)
      {
        if h != host {
          assert old(Holds(h));
        }
      }
    }
  }

  lemma {:induction false} StubSane()
    ensures Sane(Initial([])) && Parked(Initial([]))
  {
  }

  lemma {:induction false} CompleteNext(s: State, env: Env)
    requires s.run == COMPLETE
    ensures Next(s, env) == Turn(s, None)
  {
  }

  lemma {:induction false} RestartSane(s: State)
    requires Sane(s)
    ensures Sane(Restart(s)) && Parked(Restart(s))
  {
    hide ChildrenOk;
    SameKidsSane(s, Restart(s));
  }

  lemma {:induction false} SeekUnfold(s: State, env: Env, wanted: set<TaskId>)
    requires Ok(s)
    ensures var r := Next(s, env);
            Ok(r.state) &&
            Seek(s, env, wanted) ==
            if r.state.run == COMPLETE || r.task.None? then Found(s, false)
            else if r.task.value in wanted then Found(s, true)
            else Seek(r.state, env, wanted)
  {
    hide Next, Ok, Live;
    NextOk(s, env);
  }

  lemma {:induction false} NextStaysSettled(s: State, env: Env)
    requires Ok(s)
    ensures Settled(Next(s, env).state) && Sane(Next(s, env).state) && Parked(Next(s, env).state)
  {
    hide Next, Ok, CheckFailed;
    NextOk(s, env);
    OkSane(Next(s, env).state);
  }
}
