/**
 A whole play driven through the iterator object, as a strategy drives it for one host:
 ask for a task, run it, and report its failure.
*/
module PlayRuns {
  import opened Basics
  import opened PlaySemantics
  import opened IteratorModel
  import opened IteratorInvariants
  import opened IteratorBound
  import opened IteratorRefinement
  import opened SaneStates
  import opened HostStates
  import opened PlayIterators

  /** Runs one host to completion; the oracle says which tasks fail. */
  method DriveHost(it: PlayIterator, host: HostName, facts: HostFacts, fails: Oracle) returns (log: Log)
    requires it.Valid() && host in it.States && Ok(it.States[host]) && Settled(it.States[host])
    modifies it`hostStates, it`States, it`Repr, it`removedHosts
    ensures it.Valid() && fresh(it.Repr - old(it.Repr))
    ensures it.States.Keys == old(it.States).Keys && it.States[host].run == COMPLETE
    ensures forall h :: h in it.States && h != host ==> it.States[h] == old(it.States)[h]
    ensures Outcome(log, host in FailedHosts(it.States)) ==
            Drive(old(it.States)[host], it.Environment(facts), [], fails)
  {
    hide PlayIterator.Valid, HostState.Valid, Ok, Settled, Next, SetFailed, Ahead, CheckFailed, Sane, Parked, EnvOf;
    ghost var env := it.Environment(facts);
    ghost var start := it.States[host];
    log := [];
    while true
      invariant it.Valid() && fresh(it.Repr - old(it.Repr)) && it.Environment(facts) == env
      invariant host in it.States && it.States == old(it.States)[host := it.States[host]]
      invariant Ok(it.States[host]) && Settled(it.States[host])
      invariant Drive(it.States[host], env, log, fails) == Drive(start, env, [], fails)
      decreases Ahead(it.States[host])
    {
      ghost var was := it.States[host];
      NextOk(was, env);
      NextUses(was, env);
      NextStaysSettled(was, env);
      DriveUnfold(was, env, log, fails);
      var s, task := it.GetNextTaskForHost(host, facts, false);
      if task.None? {
        break;
      }
      log := log + [task.value];
      SetFailedOk(Next(was, env).state);
      FailUses(Next(was, env).state);
      if fails(log) {
        it.MarkHostFailed(host);
      }
    }
  }

  lemma {:induction false} DriveUnfold(s: State, env: Env, log: Log, fails: Oracle)
    requires Ok(s)
    ensures var r := Next(s, env);
            if r.task.None? then Drive(s, env, log, fails) == Outcome(log, CheckFailed(r.state))
            else
              var l := log + [r.task.value];
              var t := if fails(l) then SetFailed(r.state) else r.state;
              Ok(t) && Drive(s, env, log, fails) == Drive(t, env, l, fails)
  {
    hide Ok, Next, CheckFailed, SetFailed, Ahead;
    NextOk(s, env);
    NextUses(s, env);
    SetFailedOk(Next(s, env).state);
    FailUses(Next(s, env).state);
  }

  /**
   The main result, on the objects: a host that is driven through a play from its start is
   given exactly the tasks of the try / catch / finally meaning, and ends up among the failed
   hosts exactly when that meaning says so.  The play gathers facts first if they are wanted and
   the setup block has a task for it.
  */
  method PlayOneHost(blocks: seq<Block>, handlers: seq<TaskId>, host: HostName, facts: HostFacts, fails: Oracle)
    returns (log: Log, failed: set<HostName>)
    requires blocks != []
    ensures Outcome(log, host in failed) ==
            RunPlay(SetupTask(EnvOf(blocks, handlers, facts)), blocks[1..], fails)
    ensures forall id: TaskId :: blocks[0] == Block([Leaf(id)], [], []) ==>
              Outcome(log, host in failed) == RunPlay(if facts.gather then Some(id) else None, blocks[1..], fails)
    ensures blocks[0] == Block([], [], []) ==> Outcome(log, host in failed) == RunPlay(None, blocks[1..], fails)
    ensures failed <= {host}
  {
    SetupOfBlock(blocks, handlers, facts);
    hide PlayIterator.Valid, HostState.Valid, Ok, Settled, Next, SetFailed, Ahead, CheckFailed, Sane, Parked;
    hide EnvOf, Initial, SetupTask, RunPlay;
    var it := new PlayIterator(blocks, handlers, [host], _ => facts, None);
    assert it.States == map[host := Initial(blocks)] by {
      OneState(blocks, handlers, host);
    }
    InitialOk(blocks);
    log := DriveHost(it, host, facts, fails);
    PlayRefinement(blocks, EnvOf(blocks, handlers, facts), fails);
    failed := it.GetFailedHosts();
  }

  lemma {:induction false} SetupOfBlock(blocks: seq<Block>, handlers: seq<TaskId>, facts: HostFacts)
    requires blocks != []
    ensures var setup := SetupTask(EnvOf(blocks, handlers, facts));
            && (forall id: TaskId :: blocks[0] == Block([Leaf(id)], [], []) ==>
                  setup == (if facts.gather then Some(id) else None))
            && (blocks[0] == Block([], [], []) ==> setup.None?)
  {
  }

  lemma {:induction false} OneState(blocks: seq<Block>, handlers: seq<TaskId>, host: HostName)
    ensures forall facts :: StartStates(blocks, handlers, facts, [host], None).states == map[host := Initial(blocks)]
  {
    hide Initial;
    assert [host][..0] == [];
    assert forall facts :: StartStates(blocks, handlers, facts, [], None) == Started(map[], false);
  }

  /** Any number of peeks see what the real call then gives, and leave the state it starts from as it was. */
  method PeeksThenTake(it: PlayIterator, host: HostName, facts: HostFacts, n: nat)
    returns (peeked: seq<Option<TaskId>>, taken: Option<TaskId>)
    requires it.Valid() && host in it.hostStates
    modifies it`hostStates, it`States, it`Repr
    ensures it.Valid()
    ensures |peeked| == n && forall i :: 0 <= i < n ==> peeked[i] == taken
    ensures host in old(it.States) && host in it.States
            && Turn(it.States[host], taken) == Next(old(it.States)[host], it.Environment(facts))
    ensures it.States == old(it.States)[host := it.States[host]]
  {
    hide PlayIterator.Holds, HostState.Valid, Next, Sane, Parked, EnvOf, Initial;
    peeked := [];
    for i := 0 to n
      invariant it.Valid() && it.hostStates == old(it.hostStates) && it.States == old(it.States)
                && it.Repr == old(it.Repr)
      invariant |peeked| == i
      invariant forall j :: 0 <= j < i ==> peeked[j] == Next(old(it.States)[host], it.Environment(facts)).task
    {
      var s, task := it.GetNextTaskForHost(host, facts, true);
      peeked := peeked + [task];
    }
    var s, task := it.GetNextTaskForHost(host, facts, false);
    taken := task;
  }
}
