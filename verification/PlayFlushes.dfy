/**
 A flush of handlers driven through the iterator object: the strategy switches the stored state,
 asks for handlers until there are none, and the play goes on.
*/
module PlayFlushes {
  import opened Basics
  import opened PlaySemantics
  import opened IteratorModel
  import opened IteratorInvariants
  import opened SaneStates
  import opened HandlerFlush
  import opened HostStates
  import opened PlayIterators

  lemma {:induction false} OneAsk(s: State, envs: seq<Env>)
    requires envs != []
    ensures var r := Next(s, envs[0]);
            && HandedOut(s, Asks(envs)) ==
               (if r.task.Some? then [r.task.value] else []) + HandedOut(r.state, Asks(envs[1..]))
            && Run(s, Asks(envs)) == Run(r.state, Asks(envs[1..]))
  {
    hide Next;
  }

  /** A number of requests with the same facts. */
  method AskTimes(it: PlayIterator, host: HostName, facts: HostFacts, ghost env: Env, n: nat) returns (given: Log)
    requires it.Valid() && host in it.States && env == it.Environment(facts)
    modifies it`hostStates, it`States, it`Repr
    ensures it.Valid() && host in it.States && it.States == old(it.States)[host := it.States[host]]
    ensures var es := Asks(seq(n, _ => env));
            given == HandedOut(old(it.States)[host], es) && it.States[host] == Run(old(it.States)[host], es)
  {
    hide PlayIterator.Valid, HostState.Valid, Next, Sane, Parked, EnvOf, Initial, Asks, Run, HandedOut;
    ghost var envs := seq(n, _ => env);
    ghost var start := it.States[host];
    given := [];
    assert envs[0..] == envs;
    for i := 0 to n
      invariant it.Valid() && it.Environment(facts) == env
      invariant host in it.States && it.States == old(it.States)[host := it.States[host]]
      invariant given + HandedOut(it.States[host], Asks(envs[i..])) == HandedOut(start, Asks(envs))
      invariant Run(it.States[host], Asks(envs[i..])) == Run(start, Asks(envs))
    {
      OneAsk(it.States[host], envs[i..]);
      assert envs[i..][1..] == envs[i + 1..];
      var s, task := it.GetNextTaskForHost(host, facts, false);
      if task.Some? {
        given := given + [task.value];
      }
    }
    NoAsks(it.States[host], envs[n..]);
  }

  lemma {:induction false} NoAsks(s: State, envs: seq<Env>)
    requires envs == []
    ensures HandedOut(s, Asks(envs)) == [] && Run(s, Asks(envs)) == s
  {
  }

  /** What a flush with steady facts hands out, and that the host then goes on as if there had been none. */
  lemma {:induction false} SteadyFlush(s: State, env: Env, k: nat)
    requires Ok(s) && InRange(s) && BookOk(s) && s.run != COMPLETE && !s.fail.handlers
    requires k == |Filter(env.handlers, env.notified)|
    ensures var es := Asks(seq(k, _ => env));
            && HandedOut(StartFlush(s), es) == Filter(env.handlers, env.notified)
            && Next(Run(StartFlush(s), es), env).task == Next(s, env).task
  {
    hide Ok, BookOk, Next, Run, HandedOut, Filter, Flushed, StartFlush;
    var envs := seq(k + 1, _ => env);
    NotifiedSteadily(envs, env.notified);
    FlushedSteadily(env.handlers, env.notified, Notified(envs));
    FlushIsTransparent(s, envs);
    assert envs[..k] == seq(k, _ => env);
  }

  lemma {:induction false} EnvironmentOf(it: PlayIterator, facts: HostFacts)
    ensures it.Environment(facts).handlers == it.handlers && it.Environment(facts).notified == facts.notified
  {
  }

  /**
   A flush on the object, from a host that is not done: the requests are answered with exactly the
   notified handlers of the play, in their order, and the next one is answered with the task that
   a peek before the flush showed.
  */
  method FlushAHost(it: PlayIterator, host: HostName, facts: HostFacts)
    returns (peeked: Option<TaskId>, given: Log, next: Option<TaskId>)
    requires it.Valid() && host in it.hostStates && host in it.States
    requires var s := it.States[host];
             Ok(s) && InRange(s) && BookOk(s) && s.run != COMPLETE && !s.fail.handlers
    modifies it, it.hostStates[host]
    ensures it.Valid() && it.handlers == old(it.handlers)
    ensures given == Filter(it.handlers, facts.notified) && next == peeked
    ensures host in it.States && it.States == old(it.States)[host := it.States[host]]
  {
    hide PlayIterator.Valid, HostState.Valid, Next, Sane, Parked, Ok, BookOk, Filter, Initial, StartFlush, EnvOf;
    hide Asks, Run, HandedOut;
    ghost var env := it.Environment(facts);
    ghost var start := it.States[host];
    EnvironmentOf(it, facts);
    OkNotHandlers(start);
    var s, task := it.GetNextTaskForHost(host, facts, true);
    peeked := task;
    it.BeginFlush(host);
    assert it.Environment(facts) == env;
    var k := |Filter(it.handlers, facts.notified)|;
    SteadyFlush(start, env, k);
    given := AskTimes(it, host, facts, env, k);
    assert it.Environment(facts) == env;
    s, next := it.GetNextTaskForHost(host, facts, false);
  }
}
