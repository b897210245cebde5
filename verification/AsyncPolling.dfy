/**
 Waiting for an asynchronous task: its status is asked for again and again until it is
 settled or the time budget is used up.  A status call may raise.
*/
module AsyncPolling {

  datatype Reply = Raised | Status(finished: bool, failed: bool, parsed: bool, skipped: bool)

  datatype Outcome = NoJobId | Finished(reply: Reply) | NotInTime(reply: Reply) | Unparseable(reply: Reply) | Reraised

  /** The reply that ends the waiting. */
  predicate Settles(r: Reply) {
    r.Status? && (r.finished || (r.failed && r.parsed) || r.skipped)
  }

  /** The number of times the poll interval fits into the budget, rounded up. */
  function Budget(asyncVal: int, poll: int): (n: int)
    requires poll > 0
    ensures (n - 1) * poll < asyncVal <= n * poll
  {
    (asyncVal + poll - 1) / poll
  }

  /** What is made of the last reply. */
  function Verdict(last: Reply): Outcome {
    if last.Raised? then Reraised
    else if last.finished then Finished(last)
    else if last.parsed then NotInTime(last)
    else Unparseable(last)
  }

  /**
   The status is asked for until a reply settles the task, at most as often as the budget
   allows, and the outcome is that of the last reply: there always is one, and an exception is
   passed on only when it was the very last call the budget allows.  A task that failed without
   being finished ends the waiting at once, and is reported as not done in time all the same.
  */
  method Poll(hasJobId: bool, asyncVal: int, poll: int, replies: nat -> Reply) returns (outcome: Outcome, calls: nat)
    requires asyncVal > 0 && poll > 0
    ensures !hasJobId ==> outcome == NoJobId && calls == 0
    ensures hasJobId ==>
              && 1 <= calls && (calls - 1) * poll < asyncVal
              && (forall i: nat :: i < calls - 1 ==> match replies(i)
                    case Raised => true
                    case Status(finished, failed, parsed, skipped) => !finished && !skipped && !(failed && parsed))
              && match replies(calls - 1)
                 case Raised => outcome == Reraised && calls * poll >= asyncVal
                 case Status(finished, failed, parsed, skipped) =>
                   && (finished || skipped || (failed && parsed) || calls * poll >= asyncVal)
                   && outcome == if finished then Finished(replies(calls - 1))
                                 else if parsed then NotInTime(replies(calls - 1))
                                 else Unparseable(replies(calls - 1))
  {
    calls := 0;
    if !hasJobId {
      return NoJobId, 0;
    }
    var timeLeft := asyncVal;
    var last := Raised;
    while timeLeft > 0
      invariant timeLeft == asyncVal - calls * poll && calls <= Budget(asyncVal, poll)
      invariant forall i: nat :: i < calls ==> !Settles(replies(i))
      invariant calls > 0 && timeLeft <= 0 ==> last == replies(calls - 1) && !last.Raised?
      invariant calls > 0 ==> (calls - 1) * poll < asyncVal
      decreases timeLeft
    {
      StillInBudget(asyncVal, poll, calls);
      var reply := replies(calls);
      calls := calls + 1;
      if reply.Raised? {
        timeLeft := timeLeft - poll;
        if timeLeft <= 0 {
          BudgetUsed(asyncVal, poll, calls);
          return Reraised, calls;
        }
      } else {
        last := reply;
        if Settles(reply) {
          break;
        }
        timeLeft := timeLeft - poll;
      }
    }
    if timeLeft <= 0 {
      BudgetUsed(asyncVal, poll, calls);
    }
    outcome := Verdict(last);
  }

  lemma {:induction false} StillInBudget(asyncVal: int, poll: int, calls: nat)
    requires poll > 0 && asyncVal - calls * poll > 0
    ensures calls < Budget(asyncVal, poll)
  {
    var n := Budget(asyncVal, poll);
    if calls >= n {
      Times(n, calls, poll);
    }
  }

  lemma {:induction false} BudgetUsed(asyncVal: int, poll: int, calls: nat)
    requires poll > 0 && asyncVal - calls * poll <= 0 && calls <= Budget(asyncVal, poll)
    ensures calls == Budget(asyncVal, poll)
  {
    var n := Budget(asyncVal, poll);
    if calls < n {
      Times(calls, n - 1, poll);
    }
  }

  lemma {:induction false} Times(a: int, b: int, p: int)
    requires a <= b && p >= 0
    ensures a * p <= b * p
  {
    assert b * p - a * p == (b - a) * p;
  }
}
