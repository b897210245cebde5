/**
 A playbook's plays, run in serial batches.  Hosts are cut into batches, each batch is one run
 of the task queue manager, and after each batch new failures are counted by subtraction to
 decide whether the whole playbook stops.
*/
module PlaybookRuns {
  import opened Basics
  import opened PlaySemantics
  import opened PlayIterators
  import opened FailureCarryOver

  type Hosts = seq<HostName>

  // ---------------------------------------------------------------- cutting hosts into batches

  /** The serial entry for batch `i`: the last entry is repeated, and no entry means everything at once. */
  function SerialEntry(serial: seq<int>, i: nat): int {
    if serial == [] then -1 else if i < |serial| then serial[i] else serial[|serial| - 1]
  }

  /** Batch `i` of `count` has the size its serial entry asks for; only the last may be smaller or take all. */
  predicate SizedBySerial(batch: Hosts, serial: seq<int>, i: nat, count: nat) {
    var entry := SerialEntry(serial, i);
    && (entry <= 0 ==> i == count - 1)
    && (entry > 0 ==> |batch| <= entry && (i < count - 1 ==> |batch| == entry))
  }

  /** Batches filled from positive entries; only the last may have run out of hosts, and only if there are no more. */
  predicate FilledBySerial(batches: seq<Hosts>, serial: seq<int>, more: bool) {
    forall i :: 0 <= i < |batches| ==>
      var entry := SerialEntry(serial, i);
      entry > 0 && |batches[i]| <= entry && ((more || i < |batches| - 1) ==> |batches[i]| == entry)
  }

  /**
   The sizes by position: the entries in turn, and then the last one again and again; only the last
   batch may be smaller, and an entry that is not positive makes it take all that is left.
  */
  predicate SizedByPosition(batches: seq<Hosts>, serial: seq<int>) {
    forall i :: 0 <= i < |batches| ==>
      if serial == [] then i == |batches| - 1
      else
        var entry := serial[if i < |serial| then i else |serial| - 1];
        if entry <= 0 then i == |batches| - 1
        else |batches[i]| == entry || (i == |batches| - 1 && 0 < |batches[i]| < entry)
  }

  lemma {:induction false} SizesAre(batches: seq<Hosts>, serial: seq<int>)
    requires [] !in batches
    requires forall i :: 0 <= i < |batches| ==> SizedBySerial(batches[i], serial, i, |batches|)
    ensures SizedByPosition(batches, serial)
  {
  }

  lemma {:induction false} NoBatchYet(serial: seq<int>)
    ensures Joined<HostName>([]) == [] && FilledBySerial([], serial, true) && FilledBySerial([], serial, false)
  {
  }

  lemma {:induction false} OneMoreFilled(batches: seq<Hosts>, batch: Hosts, serial: seq<int>, more: bool)
    requires FilledBySerial(batches, serial, true)
    requires 0 < SerialEntry(serial, |batches|) && |batch| <= SerialEntry(serial, |batches|)
    requires more ==> |batch| == SerialEntry(serial, |batches|)
    ensures FilledBySerial(batches + [batch], serial, more)
  {
  }

  lemma {:induction false} FilledIsSized(batches: seq<Hosts>, serial: seq<int>)
    requires FilledBySerial(batches, serial, false)
    ensures forall i :: 0 <= i < |batches| ==> SizedBySerial(batches[i], serial, i, |batches|)
  {
  }

  lemma {:induction false} RestIsLast(batches: seq<Hosts>, rest: Hosts, serial: seq<int>)
    requires FilledBySerial(batches, serial, true) && SerialEntry(serial, |batches|) <= 0
    ensures var all := batches + [rest];
            forall i :: 0 <= i < |all| ==> SizedBySerial(all[i], serial, i, |all|)
  {
  }

  /**
   The serial entries are already numbers: a percentage is turned into one from the number of
   all hosts, which does not change during the loop.
  */
  method SerializedBatches(hosts: Hosts, serial: seq<int>) returns (batches: seq<Hosts>)
    ensures Joined(batches) == hosts
    ensures [] !in batches
    ensures forall i :: 0 <= i < |batches| ==> SizedBySerial(batches[i], serial, i, |batches|)
    ensures SizedByPosition(batches, serial)
  {
    hide SizedByPosition;
    hide Joined, FilledBySerial, SizedBySerial;
    NoBatchYet(serial);
    var list := if |serial| == 0 then [-1] else serial;
    var allHosts := hosts;
    var curItem := 0;
    batches := [];
    while |allHosts| > 0
      invariant Joined(batches) + allHosts == hosts
      invariant [] !in batches
      invariant 0 <= curItem < |list| && list[curItem] == SerialEntry(serial, |batches|)
      invariant curItem == if |batches| < |list| then |batches| else |list| - 1
      invariant FilledBySerial(batches, serial, |allHosts| > 0)
      decreases |allHosts|
    {
      var entry := list[curItem];
      if entry <= 0 {
        JoinedGrows(batches, allHosts);
        RestIsLast(batches, allHosts, serial);
        batches := batches + [allHosts];
        SizesAre(batches, serial);
        return;
      }
      var playHosts: Hosts := [];
      ghost var start := allHosts;
      for x := 0 to entry
        invariant playHosts + allHosts == start
        invariant |playHosts| <= x && (|allHosts| > 0 ==> |playHosts| == x)
        invariant x > 0 ==> playHosts != []
      {
        if |allHosts| > 0 {
          playHosts := playHosts + [allHosts[0]];
          allHosts := allHosts[1..];
        }
      }
      JoinedGrows(batches, playHosts);
      OneMoreFilled(batches, playHosts, serial, |allHosts| > 0);
      batches := batches + [playHosts];
      curItem := curItem + 1;
      if curItem > |list| - 1 {
        curItem := |list| - 1;
      }
    }
    FilledIsSized(batches, serial);
    SizesAre(batches, serial);
  }

  // ---------------------------------------------------------------- one batch after another

  datatype Tables = Tables(failed: set<HostName>, unreachable: set<HostName>)

  predicate Within(t: Tables, later: Tables) {
    t.failed <= later.failed && t.unreachable <= later.unreachable
  }

  /** Tables that only grow, from `first` to `last`. */
  predicate Growing(first: Tables, tables: seq<Tables>, last: Tables) {
    && Within(first, last)
    && (forall j :: 0 <= j < |tables| ==> Within(first, tables[j]) && Within(tables[j], last))
    && (forall i, j :: 0 <= i < j < |tables| ==> Within(tables[i], tables[j]))
  }

  /** Run `j` gave no task to a host that was in the table of failed hosts when it started. */
  predicate FailedStayOut(given: seq<seq<Given>>, tables: seq<Tables>) {
    && |given| == |tables|
    && forall j :: 0 <= j < |given| ==> forall g :: g in given[j] ==> g.host !in tables[j].failed
  }

  /** How the strategy behaves in one batch: what it does, its return code, and whether it ended the play. */
  datatype BatchRun = BatchRun(steps: seq<StrategyStep>, code: nat, endPlay: bool)

  datatype PlayScript = PlayScript(blocks: seq<Block>, handlers: seq<TaskId>, hosts: Hosts, serial: seq<int>,
                                   runs: nat -> BatchRun)

  const RUN_FAILED_HOSTS: nat := 2
  const RUN_FAILED_BREAK_PLAY: nat := 8

  predicate BreakFlag(code: nat) {
    code / RUN_FAILED_BREAK_PLAY % 2 == 1
  }

  function BatchPlay(script: PlayScript, batch: Hosts): Play {
    Play(script.blocks, script.handlers, batch)
  }

  function AfterBatch(t: Tables, script: PlayScript, batch: Hosts, k: nat): Tables {
    var steps := script.runs(k).steps;
    Tables(Recorded(steps) + FailedHosts(FinalStates(BatchPlay(script, batch), t.failed, steps)),
           t.unreachable + Lost(steps))
  }

  function NewlyFailed(before: Tables, after: Tables): set<HostName> {
    after.failed - before.failed
  }

  function NewlyUnreachable(before: Tables, after: Tables): set<HostName> {
    after.unreachable - before.unreachable
  }

  /** The new entries of a batch fill it: the playbook stops here. */
  predicate FillsBatch(before: Tables, after: Tables, batch: Hosts) {
    |NewlyFailed(before, after)| + |NewlyUnreachable(before, after)| == |batch|
  }

  datatype Ended = Ended(tables: Tables, code: nat, breakPlay: bool, ran: nat)

  /** The batches from the k-th on, with new failures as sets instead of counts. */
  function RunFrom(t: Tables, script: PlayScript, batches: seq<Hosts>, k: nat, code: nat, breakPlay: bool): Ended
    requires k <= |batches|
    decreases |batches| - k
  {
    if k == |batches| then Ended(t, code, breakPlay, k)
    else
      var after := AfterBatch(t, script, batches[k], k);
      var run := script.runs(k);
      if run.endPlay then Ended(after, run.code, breakPlay, k + 1)
      else
        var c := if BreakFlag(run.code) then RUN_FAILED_HOSTS else run.code;
        if FillsBatch(t, after, batches[k]) then Ended(after, c, true, k + 1)
        else RunFrom(after, script, batches, k + 1, c, breakPlay || BreakFlag(run.code))
  }

  lemma {:induction false} SubtractionCounts<T>(before: set<T>, after: set<T>)
    requires before <= after
    ensures |after| - |before| == |after - before|
  {
    assert after == before + (after - before);
  }

  lemma {:induction false} IsAfterBatch(t: Tables, script: PlayScript, batch: Hosts, k: nat)
    ensures var steps := script.runs(k).steps;
            AfterBatch(t, script, batch, k)
            == Tables(Recorded(steps) + FailedHosts(FinalStates(BatchPlay(script, batch), t.failed, steps)),
                      t.unreachable + Lost(steps))
  {
  }

  lemma {:induction false} Unmoved(t: Tables)
    ensures Growing(t, [], t) && FailedStayOut([], [])
  {
  }

  lemma {:induction false} OneMoreRun(first: Tables, given: seq<seq<Given>>, tables: seq<Tables>,
                                      before: Tables, now: seq<Given>, after: Tables)
    requires Growing(first, tables, before) && FailedStayOut(given, tables)
    requires Within(before, after) && forall g :: g in now ==> g.host !in before.failed
    ensures Growing(first, tables + [before], after) && FailedStayOut(given + [now], tables + [before])
  {
  }

  /** The batches of a play. */
  predicate BatchesOf(script: PlayScript, batches: seq<Hosts>) {
    && Joined(batches) == script.hosts && [] !in batches
    && forall i :: 0 <= i < |batches| ==> SizedBySerial(batches[i], script.serial, i, |batches|)
  }

  /** How one play of a playbook went: the tables and the code it found, its batches, and its end. */
  datatype PlayRan = PlayRan(before: Tables, batches: seq<Hosts>, code: nat, ended: Ended)

  /** The play was run on these tables and after this code. */
  predicate RanOn(r: PlayRan, script: PlayScript, tables: Tables, code: nat) {
    && r.before == tables && r.code == code && BatchesOf(script, r.batches)
    && RunFrom(tables, script, r.batches, 0, code, false) == r.ended
  }

  /** The plays were run one after the other, each on what the one before it left. */
  predicate Told(first: Tables, plays: seq<PlayScript>, story: seq<PlayRan>, last: Tables, code: nat)
    decreases |plays|
  {
    && |story| == |plays|
    && if plays == [] then first == last && code == 0
       else
         var front, r := story[..|story| - 1], story[|story| - 1];
         && last == r.ended.tables && code == r.ended.code
         && RanOn(r, plays[|plays| - 1], r.before, r.code)
         && Told(first, plays[..|plays| - 1], front, r.before, r.code)
  }

  class PlaybookExecutor {
    const tqm: TaskQueueManager
    var unreachableHosts: set<HostName>

    constructor ()
      ensures fresh(tqm) && tqm.failedHosts == {} && tqm.unreachableHosts == {} && unreachableHosts == {}
    {
      tqm := new TaskQueueManager();
      unreachableHosts := {};
    }

    ghost function Now(): Tables
      reads tqm
    {
      Tables(tqm.failedHosts, tqm.unreachableHosts)
    }

    /**
     One play in batches.  The counters decide exactly as the sets of new entries would, no
     table loses a host, and no batch gives a task to a host that failed before it.
    */
    method RunPlayInBatches(script: PlayScript, batches: seq<Hosts>, lastCode: nat)
      returns (result: nat, breakPlay: bool, given: seq<seq<Given>>, ghost tables: seq<Tables>)
      requires unreachableHosts <= tqm.unreachableHosts
      modifies tqm, `unreachableHosts
      ensures unreachableHosts <= tqm.unreachableHosts
      ensures RunFrom(old(Now()), script, batches, 0, lastCode, false)
           == Ended(Now(), result, breakPlay, |given|)
      ensures |given| <= |batches| && FailedStayOut(given, tables)
      ensures Growing(old(Now()), tables, Now())
    {
      hide FinalStates, FillsBatch, Growing, FailedStayOut, AfterBatch, AllGiven, FailedHosts, FreshStates, Marked;
      Unmoved(Now());
      tqm.unreachableHosts := tqm.unreachableHosts + unreachableHosts;
      assert tqm.unreachableHosts == old(tqm.unreachableHosts);
      var previouslyFailed, previouslyUnreachable := |tqm.failedHosts|, |tqm.unreachableHosts|;
      result, breakPlay, given, tables := lastCode, false, [], [];
      for k := 0 to |batches|
        invariant unreachableHosts <= tqm.unreachableHosts
        invariant RunFrom(old(Now()), script, batches, 0, lastCode, false)
               == RunFrom(Now(), script, batches, k, result, breakPlay)
        invariant previouslyFailed == |tqm.failedHosts| && previouslyUnreachable == |tqm.unreachableHosts|
        invariant |given| == k && FailedStayOut(given, tables)
        invariant Growing(old(Now()), tables, Now())
      {
        ghost var before := Now();
        var run := script.runs(k);
        var now := tqm.RunPlay(BatchPlay(script, batches[k]), run.steps);
        result := run.code;
        OneMoreRun(old(Now()), given, tables, before, now, Now());
        given, tables := given + [now], tables + [before];
        IsAfterBatch(before, script, batches[k], k);
        if run.endPlay {
          return;
        }
        if BreakFlag(result) {
          result := RUN_FAILED_HOSTS;
          breakPlay := true;
        }
        var failedHostsCount := |tqm.failedHosts| + |tqm.unreachableHosts| - (previouslyFailed + previouslyUnreachable);
        DecidesByCount(before, Now(), batches[k]);
        if |batches[k]| == failedHostsCount {
          breakPlay := true;
          return;
        }
        previouslyFailed := previouslyFailed + (|tqm.failedHosts| - previouslyFailed);
        previouslyUnreachable := previouslyUnreachable + (|tqm.unreachableHosts| - previouslyUnreachable);
        unreachableHosts := unreachableHosts + tqm.unreachableHosts;
      }
    }

    /**
     The plays of a playbook.  Each is run in its batches on the tables the play before it left, and
     the last one run is the last of the playbook or the first that was broken off.  Over the whole
     playbook the tables only grow, and a host that failed in any run is out of every later one.
    */
    method RunPlays(plays: seq<PlayScript>)
      returns (result: nat, ran: nat, given: seq<seq<Given>>, ghost tables: seq<Tables>, ghost story: seq<PlayRan>)
      requires unreachableHosts <= tqm.unreachableHosts
      modifies tqm, `unreachableHosts
      ensures ran <= |plays| && FailedStayOut(given, tables)
      ensures Growing(old(Now()), tables, Now())
      ensures Told(old(Now()), plays[..ran], story, Now(), result)
      ensures |story| == ran && forall p :: 0 <= p < ran - 1 ==> !story[p].ended.breakPlay
      ensures ran < |plays| ==> 0 < ran && story[ran - 1].ended.breakPlay
    {
      hide RunFrom, BatchesOf, Growing, FailedStayOut, Told;
      Unmoved(Now());
      result, ran, given, tables, story := 0, 0, [], [], [];
      assert Told(Now(), [], [], Now(), 0) by { NothingTold(Now()); }
      while ran < |plays|
        invariant unreachableHosts <= tqm.unreachableHosts && ran <= |plays|
        invariant FailedStayOut(given, tables) && Growing(old(Now()), tables, Now())
        invariant Told(old(Now()), plays[..ran], story, Now(), result)
        invariant |story| == ran && forall p :: 0 <= p < ran ==> !story[p].ended.breakPlay
      {
        ghost var before, earlier := Now(), result;
        var batches := SerializedBatches(plays[ran].hosts, plays[ran].serial);
        assert BatchesOf(plays[ran], batches) by { SerializedAre(plays[ran], batches); }
        var breakPlay, now;
        ghost var later;
        result, breakPlay, now, later := RunPlayInBatches(plays[ran], batches, result);
        MoreRuns(old(Now()), given, tables, before, now, later, Now());
        given, tables := given + now, tables + later;
        ghost var next := PlayRan(before, batches, earlier, Ended(Now(), result, breakPlay, |now|));
        OneMoreTold(old(Now()), plays[..ran], story, before, earlier, plays[ran], next);
        assert plays[..ran + 1] == plays[..ran] + [plays[ran]];
        story := story + [next];
        ran := ran + 1;
        if breakPlay {
          break;
        }
      }
    }
  }

  lemma {:induction false} SerializedAre(script: PlayScript, batches: seq<Hosts>)
    requires Joined(batches) == script.hosts && [] !in batches
    requires forall i :: 0 <= i < |batches| ==> SizedBySerial(batches[i], script.serial, i, |batches|)
    ensures BatchesOf(script, batches)
  {
  }

  lemma {:induction false} NothingTold(t: Tables)
    ensures Told(t, [], [], t, 0)
  {
  }

  lemma {:induction false} OneMoreTold(first: Tables, plays: seq<PlayScript>, story: seq<PlayRan>, last: Tables,
                                       code: nat, play: PlayScript, next: PlayRan)
    requires Told(first, plays, story, last, code) && RanOn(next, play, last, code)
    ensures Told(first, plays + [play], story + [next], next.ended.tables, next.ended.code)
  {
    hide RunFrom, BatchesOf;
    assert (plays + [play])[..|plays|] == plays && (story + [next])[..|story|] == story;
  }

  lemma {:induction false} MoreRuns(first: Tables, given: seq<seq<Given>>, tables: seq<Tables>, before: Tables,
                                    now: seq<seq<Given>>, later: seq<Tables>, after: Tables)
    requires Growing(first, tables, before) && FailedStayOut(given, tables)
    requires Growing(before, later, after) && FailedStayOut(now, later)
    ensures Growing(first, tables + later, after) && FailedStayOut(given + now, tables + later)
  {
  }

  lemma {:induction false} DecidesByCount(before: Tables, after: Tables, batch: Hosts)
    requires before.failed <= after.failed && before.unreachable <= after.unreachable
    ensures FillsBatch(before, after, batch)
       <==> |batch| == |after.failed| + |after.unreachable| - (|before.failed| + |before.unreachable|)
  {
    SubtractionCounts(before.failed, after.failed);
    SubtractionCounts(before.unreachable, after.unreachable);
  }

  lemma {:induction false} DistinctApart(front: Hosts, last: Hosts)
    requires Distinct(front + last)
    ensures Distinct(front) && Distinct(last)
    ensures forall h :: h in front ==> h !in last
  {
    var all := front + last;
    assert forall k :: 0 <= k < |front| ==> all[k] == front[k];
    assert forall k :: 0 <= k < |last| ==> all[|front| + k] == last[k];
  }

  /** Batches cut from distinct hosts have distinct hosts and share none. */
  lemma {:induction false} BatchesShareNothing(batches: seq<Hosts>, i: nat)
    requires i < |batches| && Distinct(Joined(batches))
    ensures Distinct(batches[i])
    ensures forall j, h :: 0 <= j < |batches| && j != i && h in batches[i] ==> h !in batches[j]
    decreases |batches|
  {
    hide Distinct;
    var front, last := batches[..|batches| - 1], batches[|batches| - 1];
    DistinctApart(Joined(front), last);
    forall j | 0 <= j < |front|
      ensures forall h :: h in front[j] ==> h in Joined(front)
    {
      InJoined(front, j);
    }
    if i < |front| {
      BatchesShareNothing(front, i);
    }
  }

  lemma {:induction false} InJoined(batches: seq<Hosts>, j: nat)
    requires j < |batches|
    ensures forall h :: h in batches[j] ==> h in Joined(batches)
    decreases |batches|
  {
    if j < |batches| - 1 {
      InJoined(batches[..|batches| - 1], j);
    }
  }
}
