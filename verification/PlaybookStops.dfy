/**
 When a playbook stops.  A batch is the last of its play when the new entries in the tables of
 failed and unreachable hosts are as many as its hosts; the play is the last of the playbook when
 that happened or the strategy asked for it.  The source gives as the reason that the whole batch
 is lost; how the two differ is said here.
*/
module PlaybookStops {
  import opened Basics
  import opened PlaySemantics
  import opened IteratorModel
  import opened IteratorInvariants
  import opened PlayIterators
  import opened FailureCarryOver
  import opened PlaybookRuns

  // ---------------------------------------------------------------- which batch is the last one

  /** The tables after the first `j` batches. */
  function TablesAt(t: Tables, script: PlayScript, batches: seq<Hosts>, j: nat): Tables
    requires j <= |batches|
  {
    if j == 0 then t
    else AfterBatch(TablesAt(t, script, batches, j - 1), script, batches[j - 1], j - 1)
  }

  predicate Fills(t: Tables, script: PlayScript, batches: seq<Hosts>, j: nat)
    requires j < |batches|
  {
    FillsBatch(TablesAt(t, script, batches, j), TablesAt(t, script, batches, j + 1), batches[j])
  }

  /** No batch is run after batch `j`. */
  predicate IsLast(t: Tables, script: PlayScript, batches: seq<Hosts>, j: nat)
    requires j < |batches|
  {
    script.runs(j).endPlay || Fills(t, script, batches, j)
  }

  /** Batch `j` makes this play the last one, by the code of the strategy or by the count. */
  predicate StopsPlaybook(t: Tables, script: PlayScript, batches: seq<Hosts>, j: nat)
    requires j < |batches|
  {
    !script.runs(j).endPlay && (BreakFlag(script.runs(j).code) || Fills(t, script, batches, j))
  }

  /** The code a batch leaves behind. */
  function CodeOf(run: BatchRun): nat {
    if !run.endPlay && BreakFlag(run.code) then RUN_FAILED_HOSTS else run.code
  }

  /**
   A play runs its batches up to the first one that is filled or ends the play, and the playbook
   stops after it exactly when one of the batches that were run was filled or had the break code.
  */
  lemma {:induction false} StopsPlaybookExactly(t: Tables, script: PlayScript, batches: seq<Hosts>, k: nat,
                                                code: nat, breakPlay: bool)
    requires k <= |batches|
    ensures var e := RunFrom(TablesAt(t, script, batches, k), script, batches, k, code, breakPlay);
            && k <= e.ran <= |batches| && e.tables == TablesAt(t, script, batches, e.ran)
            && (forall j :: k <= j < e.ran - 1 ==> !IsLast(t, script, batches, j))
            && (e.ran < |batches| ==> k < e.ran && IsLast(t, script, batches, e.ran - 1))
            && (e.breakPlay <==> breakPlay || exists j :: k <= j < e.ran && StopsPlaybook(t, script, batches, j))
            && e.code == if e.ran == k then code else CodeOf(script.runs(e.ran - 1))
    decreases |batches| - k
  {
    hide AfterBatch, FillsBatch, BreakFlag;
    if k < |batches| {
      var before, after := TablesAt(t, script, batches, k), TablesAt(t, script, batches, k + 1);
      assert after == AfterBatch(before, script, batches[k], k);
      var run := script.runs(k);
      if !IsLast(t, script, batches, k) {
        var c := if BreakFlag(run.code) then RUN_FAILED_HOSTS else run.code;
        StopsPlaybookExactly(t, script, batches, k + 1, c, breakPlay || BreakFlag(run.code));
        assert StopsPlaybook(t, script, batches, k) <==> BreakFlag(run.code);
      } else {
        assert StopsPlaybook(t, script, batches, k) ==> !run.endPlay;
      }
    }
  }

  // ---------------------------------------------------------------- what the count says

  /** The hosts of the batch that are not lost. */
  function Spared(after: Tables, batch: Hosts): set<HostName> {
    Elements(batch) - after.failed - after.unreachable
  }

  /** The hosts of the batch that were lost before it was run and are in no further table now. */
  function OnlyBefore(before: Tables, after: Tables, batch: Hosts): set<HostName> {
    Elements(batch) * (before.failed + before.unreachable)
      - NewlyFailed(before, after) - NewlyUnreachable(before, after)
  }

  /** The hosts that are new in both tables. */
  function InBoth(before: Tables, after: Tables): set<HostName> {
    NewlyFailed(before, after) * NewlyUnreachable(before, after)
  }

  /** New entries are hosts of the batch. */
  predicate NewInBatch(before: Tables, after: Tables, batch: Hosts) {
    NewlyFailed(before, after) + NewlyUnreachable(before, after) <= Elements(batch)
  }

  /**
   The count is that of the batch exactly when the hosts that were spared, and those only lost
   before, are as many as those entered in both tables.
  */
  lemma {:induction false} FilledExactly(before: Tables, after: Tables, batch: Hosts)
    requires Distinct(batch) && Within(before, after) && NewInBatch(before, after, batch)
    ensures FillsBatch(before, after, batch) <==>
            |Spared(after, batch)| + |OnlyBefore(before, after, batch)| == |InBoth(before, after)|
  {
    hide NewlyFailed, NewlyUnreachable, Spared, OnlyBefore, Elements, Distinct, Within;
    DistinctSize(batch);
    KeptHosts(before, after, batch);
    FilledParts(NewlyFailed(before, after), NewlyUnreachable(before, after), Elements(batch));
  }

  lemma {:induction false} FilledParts<T>(a: set<T>, b: set<T>, all: set<T>)
    requires a + b <= all
    ensures |a| + |b| == |all| <==> |all - (a + b)| == |a * b|
  {
    BothCounted(a, b);
    SubtractionCounts(a + b, all);
  }

  /** The hosts of the batch without a new entry. */
  lemma {:induction false} KeptHosts(before: Tables, after: Tables, batch: Hosts)
    requires Within(before, after)
    ensures |Elements(batch) - (NewlyFailed(before, after) + NewlyUnreachable(before, after))|
         == |Spared(after, batch)| + |OnlyBefore(before, after, batch)|
  {
    hide Elements;
    var spared, only := Spared(after, batch), OnlyBefore(before, after, batch);
    assert Elements(batch) - (NewlyFailed(before, after) + NewlyUnreachable(before, after)) == spared + only;
    assert spared !! only;
  }

  lemma {:induction false} BothCounted<T>(a: set<T>, b: set<T>)
    ensures |a| + |b| == |a + b| + |a * b|
  {
    assert a == (a - b) + a * b;
    assert a + b == (a - b) + b;
  }

  /** The strategy only acts on hosts of the batch. */
  predicate ActsOnBatch(batch: Hosts, steps: seq<StrategyStep>) {
    forall s :: s in steps ==> HostOf(s) in batch
  }

  function HostOf(step: StrategyStep): HostName {
    step.host
  }

  /** The states of the batch after the first `n` steps of the strategy. */
  function StatesAt(t: Tables, script: PlayScript, batch: Hosts, steps: seq<StrategyStep>, n: nat): States
    requires n <= |steps|
  {
    FinalStates(BatchPlay(script, batch), t.failed, steps[..n])
  }

  /**
   Step `n` is about a host of the batch that is not yet unreachable; only a host that has not
   failed, and was not entered as failed, gets lost.
  */
  predicate StepFollowsResults(t: Tables, script: PlayScript, batch: Hosts, steps: seq<StrategyStep>, n: nat)
    requires n < |steps|
  {
    var h := HostOf(steps[n]);
    && h in batch && h !in t.unreachable && h !in Lost(steps[..n])
    && (steps[n].LoseHost? ==> h !in Recorded(steps[..n]) + FailedHosts(StatesAt(t, script, batch, steps, n)))
  }

  predicate FollowsResults(t: Tables, script: PlayScript, batch: Hosts, steps: seq<StrategyStep>) {
    forall n :: 0 <= n < |steps| ==> StepFollowsResults(t, script, batch, steps, n)
  }

  /** The whole batch is lost: the condition the source gives for stopping. */
  predicate WholeBatchLost(after: Tables, batch: Hosts) {
    forall h :: h in batch ==> h in after.failed || h in after.unreachable
  }

  predicate LostBefore(t: Tables, batch: Hosts) {
    exists h :: h in batch && (h in t.failed || h in t.unreachable)
  }

  /** What holds of the batch after any number of steps. */
  predicate Accounted(t: Tables, batch: Hosts, states: States, lost: set<HostName>, recorded: set<HostName>) {
    && states.Keys == (set h | h in batch) + t.failed
    && t.failed <= FailedHosts(states)
    && (forall h :: h in recorded ==> h in batch && h !in t.unreachable)
    && (forall h :: h in lost ==> h in batch && h !in t.unreachable && h !in recorded && h !in FailedHosts(states))
    && (forall h :: h in t.unreachable && h !in t.failed ==> h !in FailedHosts(states))
  }

  lemma {:induction false} OneStepKeepsOthers(states: States, play: Play, step: StrategyStep)
    requires HostOf(step) in states
    ensures AfterStep(states, play, step).Keys == states.Keys
    ensures forall h :: h in states && h != HostOf(step) ==> AfterStep(states, play, step)[h] == states[h]
    ensures step.LoseHost? || step.Record? ==> AfterStep(states, play, step) == states
  {
    hide Next, SetFailed, Insert, EnvOf, Initial;
  }

  lemma {:induction false} NobodyFailedYet(blocks: seq<Block>)
    ensures !CheckFailed(Initial(blocks))
  {
  }

  lemma {:induction false} EarlierStayFailed(t: Tables, script: PlayScript, batch: Hosts,
                                             steps: seq<StrategyStep>, n: nat)
    requires n <= |steps|
    ensures t.failed <= FailedHosts(StatesAt(t, script, batch, steps, n))
  {
    hide FinalStates, CheckFailed;
    var play := BatchPlay(script, batch);
    forall h | h in t.failed
      ensures h in FailedHosts(StatesAt(t, script, batch, steps, n))
    {
      CarriedOver(play, t.failed, steps[..n], h);
    }
  }

  lemma {:induction false} AccountedAtStart(t: Tables, script: PlayScript, batch: Hosts, steps: seq<StrategyStep>)
    ensures Accounted(t, batch, StatesAt(t, script, batch, steps, 0), Lost(steps[..0]), Recorded(steps[..0]))
  {
    hide CheckFailed, AfterStep, SetFailed, Initial, StartStates, EnvOf;
    EarlierStayFailed(t, script, batch, steps, 0);
    FreshInitial(script.blocks, script.handlers, batch);
    NobodyFailedYet(script.blocks);
  }

  /** A step on a host of the batch that is not unreachable; only a host that has not failed gets lost. */
  lemma {:induction false} OneStepAccounted(t: Tables, script: PlayScript, batch: Hosts, before: States,
                                            step: StrategyStep, lost: set<HostName>, recorded: set<HostName>)
    requires Accounted(t, batch, before, lost, recorded)
    requires step.host in batch && step.host !in t.unreachable && step.host !in lost
    requires step.LoseHost? ==> step.host !in recorded + FailedHosts(before)
    requires t.failed <= FailedHosts(AfterStep(before, BatchPlay(script, batch), step))
    ensures Accounted(t, batch, AfterStep(before, BatchPlay(script, batch), step),
                      lost + (if step.LoseHost? then {step.host} else {}),
                      recorded + (if step.Record? then {step.host} else {}))
  {
    hide CheckFailed, AfterStep;
    OneStepKeepsOthers(before, BatchPlay(script, batch), step);
  }

  lemma {:induction false} StatesOfBatch(t: Tables, script: PlayScript, batch: Hosts, steps: seq<StrategyStep>, n: nat)
    requires n <= |steps| && ActsOnBatch(batch, steps)
    ensures StatesAt(t, script, batch, steps, n).Keys == Elements(batch) + t.failed
    decreases n
  {
    hide AfterStep, SetFailed, Initial, StartStates, EnvOf;
    var play := BatchPlay(script, batch);
    if n == 0 {
      FreshInitial(script.blocks, script.handlers, batch);
    } else {
      StatesOfBatch(t, script, batch, steps, n - 1);
      var before := StatesAt(t, script, batch, steps, n - 1);
      assert steps[..n][..n - 1] == steps[..n - 1];
      assert StatesAt(t, script, batch, steps, n) == AfterStep(before, play, steps[n - 1]);
      OneStepKeepsOthers(before, play, steps[n - 1]);
    }
  }

  lemma {:induction false} StepsAccounted(t: Tables, script: PlayScript, batch: Hosts, steps: seq<StrategyStep>, n: nat)
    requires n <= |steps| && FollowsResults(t, script, batch, steps)
    ensures Accounted(t, batch, StatesAt(t, script, batch, steps, n), Lost(steps[..n]), Recorded(steps[..n]))
    decreases n
  {
    hide CheckFailed, AfterStep, SetFailed, Initial, StartStates, EnvOf, Accounted, FailedHosts;
    var play := BatchPlay(script, batch);
    if n == 0 {
      AccountedAtStart(t, script, batch, steps);
    } else {
      StepsAccounted(t, script, batch, steps, n - 1);
      assert StepFollowsResults(t, script, batch, steps, n - 1);
      var before, now := StatesAt(t, script, batch, steps, n - 1), StatesAt(t, script, batch, steps, n);
      assert steps[..n][..n - 1] == steps[..n - 1];
      assert now == AfterStep(before, play, steps[n - 1]);
      LostGrows(steps, n - 1);
      EarlierStayFailed(t, script, batch, steps, n);
      OneStepAccounted(t, script, batch, before, steps[n - 1], Lost(steps[..n - 1]), Recorded(steps[..n - 1]));
    }
  }

  /** New entries are hosts of the batch, none of them is entered in both tables, and none was lost before. */
  lemma {:induction false} NewEntries(t: Tables, script: PlayScript, batch: Hosts, k: nat)
    requires FollowsResults(t, script, batch, script.runs(k).steps)
    ensures var after := AfterBatch(t, script, batch, k);
            && Within(t, after)
            && (forall h :: h in NewlyFailed(t, after) ==> h in batch && h !in t.unreachable)
            && (forall h :: h in NewlyUnreachable(t, after) ==> h in batch && h !in t.failed)
            && NewlyFailed(t, after) !! NewlyUnreachable(t, after)
  {
    hide FinalStates, CheckFailed;
    var steps := script.runs(k).steps;
    StepsAccounted(t, script, batch, steps, |steps|);
    assert steps[..|steps|] == steps;
  }

  lemma {:induction false} NewOfBatch(t: Tables, script: PlayScript, batch: Hosts, k: nat)
    requires ActsOnBatch(batch, script.runs(k).steps)
    ensures var after := AfterBatch(t, script, batch, k); Within(t, after) && NewInBatch(t, after, batch)
  {
    hide FinalStates, CheckFailed;
    var steps := script.runs(k).steps;
    assert steps[..|steps|] == steps;
    StatesOfBatch(t, script, batch, steps, |steps|);
    EarlierStayFailed(t, script, batch, steps, |steps|);
  }

  /**
   For every strategy that acts on hosts of the batch: it is the last of its play exactly when the
   spared hosts and those only lost before are as many as those entered in both tables.  So the
   count agrees with the reason given for it, that the whole batch is lost, exactly when nobody
   was spared and these numbers are equal, or somebody was and they are not.
  */
  lemma {:induction false} LastBatchExactly(t: Tables, script: PlayScript, batch: Hosts, k: nat)
    requires Distinct(batch) && ActsOnBatch(batch, script.runs(k).steps)
    ensures var after := AfterBatch(t, script, batch, k);
            var spared, only, both := Spared(after, batch), OnlyBefore(t, after, batch), InBoth(t, after);
            && (FillsBatch(t, after, batch) <==> |spared| + |only| == |both|)
            && (WholeBatchLost(after, batch) <==> spared == {})
            && ((FillsBatch(t, after, batch) <==> WholeBatchLost(after, batch)) <==>
                  if spared == {} then |only| == |both| else |spared| + |only| != |both|)
  {
    hide AfterBatch, FillsBatch, NewInBatch, Within, OnlyBefore;
    NewOfBatch(t, script, batch, k);
    FilledExactly(t, AfterBatch(t, script, batch, k), batch);
    LostWholly(AfterBatch(t, script, batch, k), batch);
  }

  lemma {:induction false} LostWholly(after: Tables, batch: Hosts)
    ensures WholeBatchLost(after, batch) <==> Spared(after, batch) == {}
  {
    assert forall h :: h in batch <==> h in Elements(batch);
    if Spared(after, batch) == {} {
      forall h | h in batch
        ensures h in after.failed || h in after.unreachable
      {
        assert h !in Spared(after, batch);
      }
    }
  }

  /**
   A strategy that acts on results only makes a batch the last of its play exactly when the whole
   batch is lost and none of its hosts was lost before.
  */
  lemma {:induction false} LastWhenWhollyLost(t: Tables, script: PlayScript, batch: Hosts, k: nat)
    requires Distinct(batch) && FollowsResults(t, script, batch, script.runs(k).steps)
    ensures var after := AfterBatch(t, script, batch, k);
            FillsBatch(t, after, batch) <==> WholeBatchLost(after, batch) && !LostBefore(t, batch)
  {
    hide AfterBatch, FollowsResults, FillsBatch, WholeBatchLost, Spared, OnlyBefore, InBoth, LostBefore;
    hide NewlyFailed, NewlyUnreachable;
    var after := AfterBatch(t, script, batch, k);
    NewEntries(t, script, batch, k);
    EnteredOnce(t, after, batch);
    ResultsOnBatch(t, script, batch, script.runs(k).steps);
    LastBatchExactly(t, script, batch, k);
  }

  lemma {:induction false} EnteredOnce(t: Tables, after: Tables, batch: Hosts)
    requires forall h :: h in NewlyFailed(t, after) ==> h !in t.unreachable
    requires forall h :: h in NewlyUnreachable(t, after) ==> h !in t.failed
    requires NewlyFailed(t, after) !! NewlyUnreachable(t, after)
    ensures InBoth(t, after) == {} && (OnlyBefore(t, after, batch) == {} <==> !LostBefore(t, batch))
  {
    if h :| h in batch && (h in t.failed || h in t.unreachable) {
      assert h in Elements(batch);
      assert h in OnlyBefore(t, after, batch);
    }
  }

  lemma {:induction false} ResultsOnBatch(t: Tables, script: PlayScript, batch: Hosts, steps: seq<StrategyStep>)
    requires FollowsResults(t, script, batch, steps)
    ensures ActsOnBatch(batch, steps)
  {
    forall s | s in steps
      ensures HostOf(s) in batch
    {
      var n :| 0 <= n < |steps| && steps[n] == s;
      assert StepFollowsResults(t, script, batch, steps, n);
    }
  }

  /** In every run of the play the strategy acts on results only. */
  ghost predicate AlwaysFollowsResults(t: Tables, script: PlayScript, batches: seq<Hosts>) {
    forall j :: 0 <= j < |batches| ==>
      Distinct(batches[j]) && FollowsResults(TablesAt(t, script, batches, j), script, batches[j], script.runs(j).steps)
  }

  /** Batch `j` is wholly lost in its own run. */
  predicate LostInItsRun(t: Tables, script: PlayScript, batches: seq<Hosts>, j: nat)
    requires j < |batches|
  {
    && WholeBatchLost(TablesAt(t, script, batches, j + 1), batches[j])
    && !LostBefore(TablesAt(t, script, batches, j), batches[j])
  }

  /**
   With strategies that act on results only, a play runs its batches up to the first one that ends
   the play or is wholly lost in its own run, and the playbook stops after it exactly when one of
   those that were run was lost like that or had the break code.
  */
  lemma {:induction false} StopsForResultsExactly(t: Tables, script: PlayScript, batches: seq<Hosts>, code: nat)
    requires AlwaysFollowsResults(t, script, batches)
    ensures var e := RunFrom(t, script, batches, 0, code, false);
            && e.ran <= |batches|
            && (forall j :: 0 <= j < e.ran - 1 ==>
                  !script.runs(j).endPlay && !LostInItsRun(t, script, batches, j))
            && (e.ran < |batches| ==>
                  0 < e.ran && (script.runs(e.ran - 1).endPlay || LostInItsRun(t, script, batches, e.ran - 1)))
            && (e.breakPlay <==>
                  exists j :: 0 <= j < e.ran && !script.runs(j).endPlay
                              && (BreakFlag(script.runs(j).code) || LostInItsRun(t, script, batches, j)))
  {
    hide TablesAt, Fills, LostInItsRun, BreakFlag, AlwaysFollowsResults, RunFrom, IsLast, StopsPlaybook;
    assert TablesAt(t, script, batches, 0) == t by { AtFirst(t, script, batches); }
    StopsPlaybookExactly(t, script, batches, 0, code, false);
    forall j | 0 <= j < |batches|
      ensures IsLast(t, script, batches, j) <==> script.runs(j).endPlay || LostInItsRun(t, script, batches, j)
      ensures StopsPlaybook(t, script, batches, j) <==>
              !script.runs(j).endPlay && (BreakFlag(script.runs(j).code) || LostInItsRun(t, script, batches, j))
    {
      FillsWhenLost(t, script, batches, j);
    }
  }

  lemma {:induction false} AtFirst(t: Tables, script: PlayScript, batches: seq<Hosts>)
    ensures TablesAt(t, script, batches, 0) == t
  {
  }

  lemma {:induction false} FillsWhenLost(t: Tables, script: PlayScript, batches: seq<Hosts>, j: nat)
    requires AlwaysFollowsResults(t, script, batches) && j < |batches|
    ensures IsLast(t, script, batches, j) <==> script.runs(j).endPlay || LostInItsRun(t, script, batches, j)
    ensures StopsPlaybook(t, script, batches, j) <==>
            !script.runs(j).endPlay && (BreakFlag(script.runs(j).code) || LostInItsRun(t, script, batches, j))
  {
    hide AfterBatch, FillsBatch, BreakFlag, WholeBatchLost, LostBefore, FollowsResults;
    LastWhenWhollyLost(TablesAt(t, script, batches, j), script, batches[j], j);
  }

  /** Code 8 breaks the play off and is replaced by 2, the code for failed hosts; the codes below it do not. */
  lemma {:induction false} BreakCodes()
    ensures BreakFlag(8) && !BreakFlag(0) && !BreakFlag(1) && !BreakFlag(2) && !BreakFlag(4)
    ensures forall code :: BreakFlag(code) <==> code % 16 >= 8
    ensures forall steps :: CodeOf(BatchRun(steps, 8, false)) == 2 && CodeOf(BatchRun(steps, 4, false)) == 4
    ensures forall steps, code :: CodeOf(BatchRun(steps, code, true)) == code
  {
  }

  // ---------------------------------------------------------------- where count and reason differ

  const NO_TABLES := Tables({}, {})

  /**
   With any_errors_fatal a host that just became unreachable is entered as failed too.  Of two
   hosts one is lost and both are entered as failed: the batch is wholly lost, the count is three,
   and the next batch is run.  Only then the code of the strategy stops the playbook.
  */
  lemma {:induction false} LostTwiceGoesOn(script: PlayScript, code: nat)
    requires script.runs(0).steps == [LoseHost("web1"), Record("web1"), Record("web2")]
    requires !script.runs(0).endPlay && script.runs(0).code == 8
    ensures var batches := [["web1", "web2"], ["web3"]];
            var e := RunFrom(NO_TABLES, script, batches, 0, code, false);
            && WholeBatchLost(TablesAt(NO_TABLES, script, batches, 1), batches[0])
            && e.ran == 2 && e.breakPlay
  {
    BreakCodes();
    hide AfterBatch, FillsBatch, WholeBatchLost, RunFrom, BreakFlag;
    var batches := [["web1", "web2"], ["web3"]];
    LostTwiceTables(script, batches[0]);
    assert TablesAt(NO_TABLES, script, batches, 1) == AfterBatch(NO_TABLES, script, batches[0], 0);
    assert !Fills(NO_TABLES, script, batches, 0);
    StopsPlaybookExactly(NO_TABLES, script, batches, 0, code, false);
    assert StopsPlaybook(NO_TABLES, script, batches, 0);
  }

  lemma {:induction false} LostTwiceTables(script: PlayScript, batch: Hosts)
    requires script.runs(0).steps == [LoseHost("web1"), Record("web1"), Record("web2")] && batch == ["web1", "web2"]
    ensures var after := AfterBatch(NO_TABLES, script, batch, 0);
            WholeBatchLost(after, batch) && !FillsBatch(NO_TABLES, after, batch)
  {
    hide FinalStates, FailedHosts, FillsBatch;
    var after := AfterBatch(NO_TABLES, script, batch, 0);
    StepsOf3(script.runs(0).steps);
    LastBatchExactly(NO_TABLES, script, batch, 0);
    assert "web1" in InBoth(NO_TABLES, after);
    assert Spared(after, batch) == {} && OnlyBefore(NO_TABLES, after, batch) == {};
  }

  lemma {:induction false} StepsOf3(steps: seq<StrategyStep>)
    requires steps == [LoseHost("web1"), Record("web1"), Record("web2")]
    ensures Lost(steps) == {"web1"} && Recorded(steps) == {"web1", "web2"} && ActsOnBatch(["web1", "web2"], steps)
  {
    assert steps[0] in steps && steps[1] in steps && steps[2] in steps;
    assert ["web1", "web2"][0] == "web1" && ["web1", "web2"][1] == "web2";
  }

  /** One task with a rescue section. */
  const RESCUED := [Block([], [], []), Block([Leaf(1)], [Leaf(2)], [])]

  function Asked(h: HostName): StrategyStep {
    Get(h, HostFacts(false, {}), false)
  }

  /** The task loses web1 and fails on web3; any_errors_fatal then enters all but web3, which has a rescue to run. */
  const FATAL_STEPS: seq<StrategyStep> :=
    [Asked("web1"), Asked("web2"), Asked("web3"), LoseHost("web1"), FailTask("web3"), Record("web1"), Record("web2")]

  lemma {:induction false} OneStepMore(states: States, play: Play, steps: seq<StrategyStep>, n: nat)
    requires n < |steps|
    ensures AfterSteps(states, play, steps[..n + 1]) == AfterStep(AfterSteps(states, play, steps[..n]), play, steps[n])
  {
    hide AfterStep;
    assert steps[..n + 1][..n] == steps[..n];
  }

  lemma {:induction false} InTheTask(env: Env)
    requires !env.gather
    ensures Next(Initial(RESCUED), env).state == Initial(RESCUED).(curBlock := 1, run := TASKS, curTask := 1)
    ensures var s := SetFailed(Next(Initial(RESCUED), env).state); s.run == RESCUE && !CheckFailed(s)
  {
    var s := Initial(RESCUED);
    NextUnfold(s, env);
    NextUnfold(s.(pendingSetup := true), env);
    NextUnfold(s.(curBlock := 1, run := TASKS), env);
  }

  /** After these steps web3 is in its rescue section, and it is neither failed nor unreachable. */
  lemma {:induction false} Rescuing(play: Play)
    requires play == Play(RESCUED, play.handlers, ["web1", "web2", "web3"])
    ensures var s := FinalStates(play, {}, FATAL_STEPS);
            "web3" in s && s["web3"].run == RESCUE && !CheckFailed(s["web3"])
  {
    hide Next, SetFailed, Initial, CheckFailed, EnvOf;
    var start := Marked(FreshStates(play), {});
    FreshInitial(play.blocks, play.handlers, play.batch);
    assert play.batch[0] == "web1" && play.batch[1] == "web2" && play.batch[2] == "web3";
    assert AfterSteps(start, play, FATAL_STEPS[..0]) == start;
    for n := 0 to |FATAL_STEPS|
      invariant var s := AfterSteps(start, play, FATAL_STEPS[..n]);
                s.Keys == start.Keys && s["web3"] == Web3After(play, n)
    {
      OneStepMore(start, play, FATAL_STEPS, n);
      OneStepKeepsOthers(AfterSteps(start, play, FATAL_STEPS[..n]), play, FATAL_STEPS[n]);
    }
    assert FATAL_STEPS[..|FATAL_STEPS|] == FATAL_STEPS;
    InTheTask(StepEnv(play, HostFacts(false, {}))) by { EnvGathers(play); }
  }

  /** The state of web3 after `n` of the steps. */
  function Web3After(play: Play, n: nat): State {
    var asked := Next(Initial(RESCUED), StepEnv(play, HostFacts(false, {}))).state;
    if n < 3 then Initial(RESCUED) else if n < 5 then asked else SetFailed(asked)
  }

  lemma {:induction false} EnvGathers(play: Play)
    ensures !StepEnv(play, HostFacts(false, {})).gather
  {
  }

  lemma {:induction false} FatalSteps()
    ensures Lost(FATAL_STEPS) == {"web1"} && Recorded(FATAL_STEPS) == {"web1", "web2"}
    ensures ActsOnBatch(["web1", "web2", "web3"], FATAL_STEPS)
  {
    var batch := ["web1", "web2", "web3"];
    assert batch[0] == "web1" && batch[1] == "web2" && batch[2] == "web3";
    assert FATAL_STEPS[3] in FATAL_STEPS && FATAL_STEPS[5] in FATAL_STEPS && FATAL_STEPS[6] in FATAL_STEPS;
  }

  predicate InRescue(states: States, h: HostName) {
    h in states && states[h].run == RESCUE && !CheckFailed(states[h])
  }

  lemma {:induction false} FatalTables(script: PlayScript, batch: Hosts)
    requires script.blocks == RESCUED && script.runs(0).steps == FATAL_STEPS && batch == ["web1", "web2", "web3"]
    ensures var after := AfterBatch(NO_TABLES, script, batch, 0);
            && Spared(after, batch) == {"web3"} && OnlyBefore(NO_TABLES, after, batch) == {}
            && InBoth(NO_TABLES, after) == {"web1"}
    ensures InRescue(FinalStates(BatchPlay(script, batch), {}, FATAL_STEPS), "web3")
  {
    hide FinalStates, CheckFailed;
    Rescuing(BatchPlay(script, batch));
    FatalSteps();
    assert batch[0] == "web1" && batch[1] == "web2" && batch[2] == "web3";
  }

  /**
   The other way round: web3 has a rescue to run and is spared, web1 is entered twice, so the count
   of three is that of the batch.  Nobody is asked whether the batch is lost: the next batch is not
   run, and the playbook stops.
  */
  lemma {:induction false} SparedAndStopped(script: PlayScript, code: nat)
    requires script.blocks == RESCUED && script.runs(0).steps == FATAL_STEPS && !script.runs(0).endPlay
    ensures var batches := [["web1", "web2", "web3"], ["web4"]];
            var e := RunFrom(NO_TABLES, script, batches, 0, code, false);
            && Spared(e.tables, batches[0]) == {"web3"}
            && InRescue(FinalStates(BatchPlay(script, batches[0]), {}, FATAL_STEPS), "web3")
            && e.ran == 1 && e.breakPlay
  {
    hide AfterBatch, FinalStates, FillsBatch, RunFrom, BreakFlag, InRescue, Spared, OnlyBefore, InBoth;
    var batches := [["web1", "web2", "web3"], ["web4"]];
    var after := AfterBatch(NO_TABLES, script, batches[0], 0);
    assert TablesAt(NO_TABLES, script, batches, 1) == after;
    FatalTables(script, batches[0]);
    FatalSteps();
    LastBatchExactly(NO_TABLES, script, batches[0], 0);
    assert Fills(NO_TABLES, script, batches, 0) && IsLast(NO_TABLES, script, batches, 0);
    StopsPlaybookExactly(NO_TABLES, script, batches, 0, code, false);
    assert StopsPlaybook(NO_TABLES, script, batches, 0);
  }

  /**
   A host that was lost in an earlier play is all of the first batch: that batch is wholly lost,
   the next one is run, and the playbook goes on after the play.
  */
  lemma {:induction false} LostEarlierGoesOn(script: PlayScript, code: nat)
    requires script.runs(0) == script.runs(1) == BatchRun([], 2, false)
    ensures var t, batches := Tables({"web1"}, {}), [["web1"], ["web2"]];
            && WholeBatchLost(TablesAt(t, script, batches, 1), batches[0])
            && RunFrom(t, script, batches, 0, code, false) == Ended(t, 2, false, 2)
  {
    hide AfterBatch, FillsBatch, RunFrom;
    var t, batches := Tables({"web1"}, {}), [["web1"], ["web2"]];
    NothingDone(t, script, batches[0], 0);
    NothingDone(t, script, batches[1], 1);
    assert TablesAt(t, script, batches, 0) == t;
    assert TablesAt(t, script, batches, 1) == AfterBatch(t, script, batches[0], 0) == t;
    assert TablesAt(t, script, batches, 2) == AfterBatch(t, script, batches[1], 1) == t;
    assert !Fills(t, script, batches, 0) && !Fills(t, script, batches, 1);
    StopsPlaybookExactly(t, script, batches, 0, code, false);
  }

  /** A batch in which nothing is done makes no new entries, and is not filled unless it is empty. */
  lemma {:induction false} NothingDone(t: Tables, script: PlayScript, batch: Hosts, k: nat)
    requires script.runs(k).steps == [] && batch != []
    ensures AfterBatch(t, script, batch, k) == t && !FillsBatch(t, t, batch)
  {
    hide FinalStates;
    NobodyElseFails(t, script, batch);
    assert NewlyFailed(t, t) == {} && NewlyUnreachable(t, t) == {};
    assert Lost([]) == {} && Recorded([]) == {};
  }

  lemma {:induction false} NobodyElseFails(t: Tables, script: PlayScript, batch: Hosts)
    ensures FailedHosts(FinalStates(BatchPlay(script, batch), t.failed, [])) == t.failed
  {
    hide CheckFailed, SetFailed, Initial, StartStates;
    EarlierStayFailed(t, script, batch, [], 0);
    FreshInitial(script.blocks, script.handlers, batch);
    NobodyFailedYet(script.blocks);
  }
}
