# Verified model of Distronode's play iterator and its surroundings

This project states and proves properties of the parts of Distronode where most of the state
and branching is.

* **The per-host play iterator.** A host walks through nested `block` / `rescue` / `always`
  sections with a tree of cursors. The cursor is a class with the fields of `HostState`
  (`HostStates.dfy`), the iterator a class with a dictionary of such cursors
  (`PlayIterators.dfy`). Both are proved against functions on values (`IteratorModel.dfy`),
  and about those functions the properties are proved: the invariant of every reachable tree,
  termination and the bound on the tasks given out, the refinement of the recursive
  try / catch / finally meaning (`PlaySemantics.dfy`), insertion, the failure verdict, starting
  at a task, handler flushes (`HandlerFlush.dfy`, `HandlerRuns.dfy`) and failed handlers
  (`HandlerFailure.dfy`, on the remaining work of `RemainingWork.dfy`; `SteadyRuns.dfy` shows that
  its assumptions hold wherever a run can get). Whole plays, starts at a task and flushes are
  driven on the objects in `PlayRuns.dfy`, `PlayStarts.dfy` and `PlayFlushes.dfy`.
  `SharedBlocks.dfy` adds that hosts share block objects.
* **Failures across plays and batches** (`FailureCarryOver.dfy`, `PlaybookRuns.dfy`,
  `PlaybookStops.dfy`): re-marking earlier failures in each new iterator, cutting hosts into serial
  batches, counting new failures by subtraction, and when the playbook stops.
* **Payloads of modules** (`ImportClosure.dfy`, `ImportOrder.dfy`, `ImportSearch.dfy`,
  `PayloadZip.dfy`, `PayloadCache.dfy`): the import closure as a least closed set in every order
  and in the sorted one, the archive assembled from it, and the file cache that worker
  processes share under a lock, as a transition system over all interleavings.
* **Smaller parts**: the Galaxy response cache against the uncached fetch (`GalaxyCache.dfy`), the
  depth-first YAML inventory export (`InventoryExport.dfy`), the release version cycle in the
  order of PEP 440 (`ReleaseCycle.dfy`) and the async poll loop (`AsyncPolling.dfy`).

`dafny verify dfyconfig.toml` checks everything.

## What turned out otherwise than one might expect

* A failed handler is no failure of the section that the flush interrupted. Its host goes to the
  rescue section of the current block, even out of the always section, so a rescue may run
  although no task failed (`HandlerFailure.FailedHandlerRescues`,
  `HandlerFlush.RescueWithoutTaskFailure`). During a rescue section the failure is forgiven
  without any trace, and during an always section it often is: the host goes on as if the handler
  had succeeded (`HandlerFailure.ForgivenInRescue`, `HandlerFailure.ForgivenInAlways`). It has
  the effect of a failed section only under the condition of
  `HandlerFailure.LikeSectionFailureExactly`.
* A flush that starts while an earlier handler failure is still noted runs no handler and ends the
  host as failed (`SteadyRuns.FlushAfterFailure`).
* While a failed block is cleaned up and no rescue section above can take that up, the verdict of
  `_check_failed_state` lags behind: the host is not reported although it can no longer succeed
  (`IteratorVerdict.LaggingRun`). The exact condition is `IteratorVerdict.RightExactly`.
* A comment in `playbook_executor.py` says that the batches of a play are broken off when the
  entire batch failed. The count only sees new entries and counts a host in both tables twice.
  So a batch with a host that was lost in an earlier play does not break off when all of it is
  lost, as long as no host is in both tables; and `any_errors_fatal`, which enters hosts that became unreachable as
  failed too, can go on after a wholly lost batch as well as break off although a host was spared.
  The exact condition is `PlaybookStops.LastBatchExactly`; the inputs are
  `PlaybookStops.LostEarlierGoesOn`, `PlaybookStops.LostTwiceGoesOn` and
  `PlaybookStops.SparedAndStopped`. The break code of a strategy stops the playbook too, but only
  after the remaining batches of the play, up to the first that breaks off
  (`PlaybookStops.StopsPlaybookExactly`).
* An optional import can hide that the package above a required import is missing; whether it
  does depends on the order in which the two are taken (`ImportSearch.OrderMatters`). The code
  sorts, so the names of two imports decide whether a payload can be built
  (`ImportSearch.NamesDecide`). Exactly when every order succeeds, when some order does and when
  the order makes no difference is in `ImportOrder.dfy`. Where all ancestors of the collected
  modules exist, or nothing is optional, it never does.
* The payload cache keeps its promise exactly when all workers of a cached file take the same
  lock. The file goes by the place of the module, the lock by the name each caller uses, and only
  if a lock of that name was made before the caller was forked. A lock that comes too late, and a
  second name for the same module, such as `stat` and `distronode.legacy.stat`, both let one
  module be shipped in two different payloads (`PayloadCache.KeptExactlyForCallers`,
  `PayloadCache.StatByTwoNames`, `PayloadCache.PingByTwoNames`).
* A task that is started at without fact gathering being wanted, and is the first of the play, is
  preceded by fact gathering all the same (`PlayStarts.RestartedOrder`).
* An asynchronous task that failed without being finished ends the waiting at once, and is reported
  as not done within the time (`AsyncPolling.Poll`).
* A modification date that changes with every change of a collection is not enough for the
  Galaxy cache if a date may come back: what counts is the date at successive calls that find the
  collection (`GalaxyCache.AgreesExactly`, `GalaxyCache.ReturningDate`).

## Model

| member | source | states |
|---|---|---|
| IteratorModel.StepShrinks | lib/distronode/executor/play_iterator.py:269-458 | every turn of the `while True` loop that hands out no task makes the measure of the state tree smaller, which gives termination of the loop and its recursion for all trees, flushes included |
| IteratorInvariants.NextOk | lib/distronode/executor/play_iterator.py:264-458 | asking for a task keeps the invariant; a task is only handed out from a tree that is not failed; no task means the host is complete |
| IteratorInvariants.SetFailedOk | lib/distronode/executor/play_iterator.py:460-499 | a failure reported at any time keeps the invariant |
| IteratorInvariants.InsertOk | lib/distronode/executor/play_iterator.py:580-615 | an insertion keeps the invariant and the run state |
| IteratorInvariants.RunOk | lib/distronode/executor/play_iterator.py:264-618 | the invariant (flags per section, cursors within their lists, children of the current section, no failed tree between operations) holds after every sequence of requests, failures and insertions |
| IteratorBound.NextUses | lib/distronode/executor/play_iterator.py:264-458 | a task handed out uses up one of the leaves ahead, and nothing ever adds leaves |
| IteratorBound.FailUses | lib/distronode/executor/play_iterator.py:460-499 | reporting a failure never adds leaves ahead |
| IteratorBound.RunUses | lib/distronode/executor/play_iterator.py:264-499 | over a run without insertions, tasks given plus leaves still ahead never exceed the leaves ahead at the start |
| IteratorBound.PlayIsBounded | lib/distronode/executor/play_iterator.py:264-458 | for every interleaving of requests and failures a host is given at most 1 + the number of leaves of the compiled blocks, and is complete once asked more often |
| RemainingWork.BoundIsReached | lib/distronode/executor/play_iterator.py:264-458 | without rescue sections and failures the host is given fact gathering and every leaf, so the bound is reached |
| IteratorShape.NextShaped | lib/distronode/executor/play_iterator.py:319-424 | a request keeps the shape (at most one child state per level, that of the current section), and the active state is the one whose cursor just passed the task handed out |
| IteratorShape.SetFailedShaped | lib/distronode/executor/play_iterator.py:460-499 | a failure keeps the shape |
| IteratorShape.InsertShaped | lib/distronode/executor/play_iterator.py:580-615 | an insertion keeps the shape |
| IteratorShape.RunShaped | lib/distronode/executor/play_iterator.py:319-424 | every state reachable from the start of a play by requests, failures and insertions satisfies the whole invariant |
| IteratorRefinement.FailHereMeaning | lib/distronode/executor/play_iterator.py:464-489 | a failure at the active level leaves exactly what the meaning says follows a failed section |
| IteratorRefinement.StepMeaning | lib/distronode/executor/play_iterator.py:269-424 | one turn of the loop keeps the meaning of what is left to do |
| IteratorRefinement.NextMeaning | lib/distronode/executor/play_iterator.py:264-458 | running the task that is handed out, and reporting its failure if it fails, leaves exactly what had to be done before |
| IteratorRefinement.DriveMeaning | lib/distronode/executor/play_iterator.py:244-262 | driving a host to completion from any reachable state gives the log and verdict that its meaning says |
| IteratorRefinement.InitialMeaning | lib/distronode/executor/play_iterator.py:264-362 | what is left to do at the start of a play is the try / catch / finally meaning of the play |
| IteratorRefinement.PlayRefinement | lib/distronode/executor/play_iterator.py:264-534 | for every list of nested blocks and every oracle, the host is given exactly the tasks of the try / catch / finally meaning in order, and is counted as failed exactly when that meaning fails |
| IteratorInsertion.InsertMeaning | lib/distronode/executor/play_iterator.py:580-618 | after an insertion at any depth the inserted tasks come first; if they succeed the host goes on as without them, and if one fails as if its section had failed there, for every oracle |
| IteratorInsertion.InsertPlain | lib/distronode/executor/play_iterator.py:580-618 | without failures: the inserted tasks, then exactly the old remaining ones |
| IteratorInsertion.InsertTakesEffect | lib/distronode/executor/play_iterator.py:580-583 | an insertion changes the state exactly when there is something to insert and the host stands in a section |
| SharedBlocks.Cursor.InsertTasks | lib/distronode/executor/play_iterator.py:580-615 | with shared block objects: only the host's own list and a new copy are written, and the list stands for the blocks with the tasks inserted |
| SharedBlocks.InsertForOneHost | lib/distronode/executor/play_iterator.py:580-618 | hosts may share all their block objects; an insertion for one leaves the blocks of all others as they were |
| IteratorVerdict.DoomedExactly | lib/distronode/executor/play_iterator.py:460-534 | a reachable state is doomed exactly when the play fails even if every remaining task succeeds |
| IteratorVerdict.ReportedExactly | lib/distronode/executor/play_iterator.py:512-534 | a host is reported as failed exactly when its active path has come to a dead end, and doomed exactly when it has or a failed block on it is cleaned up with no rescue section above to take that up |
| IteratorVerdict.RightExactly | lib/distronode/executor/play_iterator.py:512-534 | the verdict agrees with doom exactly when it does not lag, and it lags exactly when a doomed host is not reported |
| IteratorVerdict.LagsAfterTask | lib/distronode/executor/play_iterator.py:264-458 | when a task was just handed out, the verdict lags exactly when a failed block is cleaned up for good, and only then the host is doomed |
| IteratorVerdict.LaggingRun | lib/distronode/executor/play_iterator.py:391-424 | a run in which it lags: a failed block without rescue section whose always task was handed out |
| IteratorVerdict.DoomedForever | lib/distronode/executor/play_iterator.py:460-538 | no sequence of requests, failures and insertions undoes doom |
| IteratorVerdict.VerdictIsFinal | lib/distronode/executor/play_iterator.py:512-538 | once a host is reported as failed, every continuation that completes ends with it reported as failed |
| HandlerFlush.NextIgnoresBook | lib/distronode/executor/play_iterator.py:264-458 | outside a flush, what is handed out does not depend on what earlier flushes left in the handler fields |
| HandlerFlush.NextBookOk | lib/distronode/executor/play_iterator.py:426-449 | requests keep the handler fields in order |
| HandlerRuns.FieldsInOrder | lib/distronode/executor/play_iterator.py:426-449 | over every run of requests, failures, insertions and flushes they stay in order |
| HandlerFlush.FlushRun | lib/distronode/executor/play_iterator.py:426-449 | a running flush that no handler fails hands out the handlers that are notified when their turn comes, in list order, each once, and then answers as the interrupted host would |
| HandlerFlush.FlushIsTransparent | lib/distronode/executor/play_iterator.py:426-449 | a whole flush from any unfinished state: the notified handlers of the play's list in order (so handlers included in an earlier flush are gone), and then the same answer as without the flush |
| HandlerFlush.RunIgnoresBook | lib/distronode/executor/play_iterator.py:426-449 | no later request, failure or insertion tells a flushed host from one that was not flushed |
| HandlerFlush.FlushOnlyAddsHandlers | lib/distronode/executor/play_iterator.py:426-449 | one flush followed by any run gives out the notified handlers in order and then exactly what the run gives without the flush |
| HandlerRuns.FlushesCutOut | lib/distronode/executor/play_iterator.py:426-449 | a run with any number of flushes, started anywhere, with handlers included while they run and no handler failing, gives out exactly the tasks and ends in exactly the state, but for the handler fields, of the run with all flushes cut out |
| HandlerFlush.FlushedSteadily | lib/distronode/executor/play_iterator.py:439-449 | with a steady set of notified handlers, a flush gives out exactly those of the list, in its order |
| HandlerFlush.IncludedHandlersRun | lib/distronode/executor/play_iterator.py:612-613 | blocks of handlers included during a flush: the requests that follow are answered with the handlers of each block in turn, in their order, and then with those not yet reached, each if it is notified in its turn |
| HandlerFlush.IncludedHandlersSteadily | lib/distronode/executor/play_iterator.py:612-613 | with a steady set of notified handlers: exactly the notified ones of the included blocks, in order, and then those of the old rest |
| HandlerFailure.AfterFailedHandler | lib/distronode/executor/play_iterator.py:264-498 | what a failed handler leaves to do, for every oracle: the rest of the rescue section if the block has one that has not failed, then the always section and the play as after a rescue; otherwise the always section, and the host fails |
| HandlerFailure.FailedHandlerRescues | lib/distronode/executor/play_iterator.py:426-498 | a rescue task of the block is next after a failed handler exactly when the block has a rescue section that has not failed and something is left to hand out in it |
| HandlerFailure.FailedHandlerDooms | lib/distronode/executor/play_iterator.py:460-534 | even if all else succeeds the host fails exactly when no rescue section is left to try or a child of the rescue or always section is doomed already |
| HandlerFailure.LikeSectionFailureExactly | lib/distronode/executor/play_iterator.py:460-498 | a failed handler has the effect of a failure of the interrupted section, for every oracle, exactly when that was the block section, or nothing is left to hand out and the host fails anyway |
| HandlerFailure.ForgivenInRescue | lib/distronode/executor/play_iterator.py:490-498 | a handler that fails during the rescue section is always forgiven: the host goes on as if it had succeeded |
| HandlerFailure.ForgivenInAlways | lib/distronode/executor/play_iterator.py:490-498 | one that fails during the always section is forgiven exactly when the block had failed anyway, its rescue section has nothing left to hand out, or there is none and a child of the always section is doomed |
| SteadyRuns.SteadyEverywhere | lib/distronode/executor/play_iterator.py:264-618 | every run of requests, failures, insertions, flushes and failed handlers ends in a state that the results about failed handlers speak of |
| SteadyRuns.FlushAfterFailure | lib/distronode/executor/play_iterator.py:426-437 | a host whose flush starts while the failure of an earlier handler is still noted is reported as failed at once, and the next request ends it |
| HandlerFlush.RescueWithoutTaskFailure | lib/distronode/executor/play_iterator.py:490-498 | a play in which a handler flushed in the always section fails and the rescue task runs although no task failed |
| StartAtTask.SeekFound | lib/distronode/executor/play_iterator.py:211-219 | the fast-forward search ends at a state whose next task matches, or at one that has nothing left |
| StartAtTask.RestartOk | lib/distronode/executor/play_iterator.py:222-224 | a host sent back to setup satisfies the invariant |
| StartAtTask.RestartMeaning | lib/distronode/executor/play_iterator.py:206-224 | after the repeated fact gathering a restarted host has exactly the work left where its search ended |
| StartAtTask.StartsAtTheMatch | lib/distronode/executor/play_iterator.py:206-224 | for a host whose own search matched, everything it is given before the match is the fact-gathering task, wherever the match is nested |
| PlayStarts.SeekStops | lib/distronode/executor/play_iterator.py:211-219 | the search stops right before the first wanted task of the failure-free order, or at its end |
| PlayStarts.RestartedOrder | lib/distronode/executor/play_iterator.py:206-224 | a host sent back to setup is given the failure-free order from its first wanted task on, after at most one fact gathering |
| PlayStarts.StartStatesAre | lib/distronode/executor/play_iterator.py:202-224 | from the first host of the batch that found a wanted task on, every host goes back to setup from where its own search ended |
| PlayStarts.PlayFromTask | lib/distronode/executor/play_iterator.py:198-262 | on the constructed object, for any host of a batch: nothing if no host up to it has a wanted task in its order; otherwise at most two fact gatherings and then its first wanted task; and if nothing fails, exactly its order from there on |
| SaneStates.NextSane | lib/distronode/executor/play_iterator.py:264-458 | the condition under which all operations are defined, flushes and failed handlers included, is kept by requests |
| SaneStates.SetFailedSane | lib/distronode/executor/play_iterator.py:460-499 | and by failures |
| SaneStates.InsertSane | lib/distronode/executor/play_iterator.py:580-615 | and by insertions |
| HostStates.HostState.constructor | lib/distronode/executor/play_iterator.py:59-79 | a new object stands for the initial cursor |
| HostStates.HostState.Copy | lib/distronode/executor/play_iterator.py:122-144 | a copy is an equal tree of new objects |
| HostStates.CheckFailedState | lib/distronode/executor/play_iterator.py:512-534 | the verdict of the object tree is that of its value |
| HostStates.SetFailedState | lib/distronode/executor/play_iterator.py:460-499 | the in-place update makes the tree stand for the failed value and touches no other object |
| HostStates.InsertTasksIntoState | lib/distronode/executor/play_iterator.py:580-615 | the in-place update makes the tree stand for the value with the tasks inserted |
| HostStates.GetActiveState | lib/distronode/executor/play_iterator.py:553-563 | the object returned stands for the active value |
| HostStates.StepSetupState | lib/distronode/executor/play_iterator.py:279-317 | the SETUP branch computes the step function |
| HostStates.StepTasksState | lib/distronode/executor/play_iterator.py:319-362 | the TASKS branch computes the step function, given the child's answer |
| HostStates.StepRescueState | lib/distronode/executor/play_iterator.py:363-390 | the RESCUE branch computes the step function, given the child's answer |
| HostStates.StepAlwaysState | lib/distronode/executor/play_iterator.py:391-424 | the ALWAYS branch computes the step function, given the child's answer |
| HostStates.StepHandlersState | lib/distronode/executor/play_iterator.py:426-449 | the HANDLERS branch computes the step function |
| HostStates.GetNextTaskFromState | lib/distronode/executor/play_iterator.py:264-458 | the loop with its recursion terminates on the object tree and computes exactly the value function |
| PlayIterators.PlayIterator.constructor | lib/distronode/executor/play_iterator.py:198-230 | every host of the batch gets its start state, searched with its own facts and moved to the task to start at from the first host that matches on; what hosts are given from there is in `PlayStarts.PlayFromTask` |
| PlayIterators.PlayIterator.FastForward | lib/distronode/executor/play_iterator.py:211-219 | the search loop terminates and stores the state it stopped at |
| PlayIterators.PlayIterator.GetHostState | lib/distronode/executor/play_iterator.py:235-242 | gives a disjoint copy; an unknown host first gets a stub without blocks; for a known host nothing stored changes |
| PlayIterators.PlayIterator.GetNextTaskForHost | lib/distronode/executor/play_iterator.py:244-262 | answers as the value function; with `peek` the stored states and all objects of a known host are unchanged; otherwise only this host's state changes |
| PlayIterators.PlayIterator.MarkHostFailed | lib/distronode/executor/play_iterator.py:501-507 | only this host's state changes, to the failed one, and the host is noted as removed |
| PlayIterators.PlayIterator.AddTasks | lib/distronode/executor/play_iterator.py:617-618 | only this host's state changes, to the one with the tasks inserted; no other host's remaining tasks change |
| PlayIterators.PlayIterator.IsFailed | lib/distronode/executor/play_iterator.py:536-538 | the verdict of the host's state |
| PlayIterators.PlayIterator.GetFailedHosts | lib/distronode/executor/play_iterator.py:509-510 | exactly the hosts whose state is failed |
| PlayIterators.PlayIterator.SetStateForHost | lib/distronode/executor/play_iterator.py:627-630 | replaces the state of one host and keeps all others |
| PlayIterators.PlayIterator.BeginFlush | lib/distronode/plugins/strategy/__init__.py:964-968 | the host's stored state is switched to HANDLERS in place, remembering where it was |
| PlayIterators.PlayIterator.SendBackToSetup | lib/distronode/executor/play_iterator.py:221-224 | the stored state goes back to SETUP in place with its cursors kept |
| PlayRuns.DriveHost | lib/distronode/executor/play_iterator.py:244-262 | a loop of requests and reported failures on the iterator object terminates with the log and verdict of the drive function, other hosts untouched |
| PlayRuns.PlayOneHost | lib/distronode/executor/play_iterator.py:149-310 | a play driven on the objects gives exactly the log of the try / catch / finally meaning, fact gathering first if it is wanted and the setup block has a task for it, and the host is in `get_failed_hosts` exactly when that meaning fails |
| PlayFlushes.FlushAHost | lib/distronode/executor/play_iterator.py:426-449 | a flush on the object: the requests after it started are answered with exactly the notified ones of the iterator's handlers, in their order, and the next one with the task a peek before the flush showed |
| PlayRuns.PeeksThenTake | lib/distronode/executor/play_iterator.py:244-262 | any number of peeks give the task the real call then gives, from an unchanged state |
| FailureCarryOver.CompleteSteps | lib/distronode/executor/play_iterator.py:249-251 | whatever a strategy does, a completed host keeps its state and is given nothing |
| FailureCarryOver.CarriedOver | lib/distronode/executor/task_queue_manager.py:328-336 | a host that failed earlier, in the batch or not, is failed at the end of the play and given no task |
| FailureCarryOver.HostsApart | lib/distronode/executor/play_iterator.py:235-262 | whatever a strategy does with other hosts in between, a host is in the state, and was given the tasks, that its own requests, failures and insertions lead to |
| FailureCarryOver.StubIsDone | lib/distronode/executor/play_iterator.py:235-242 | a host the iterator did not know is done at once and not failed, and the others are as they were |
| FailureCarryOver.MarkEarlierFailures | lib/distronode/executor/task_queue_manager.py:332-334 | marks exactly the earlier failures in the new iterator |
| FailureCarryOver.NoteEarlierUnreachable | lib/distronode/executor/task_queue_manager.py:335-336 | puts exactly the unreachable hosts on the list of removed ones, states untouched |
| FailureCarryOver.TaskQueueManager.RunPlay | lib/distronode/executor/task_queue_manager.py:328-355 | the rebuilt table is that of the final states and of the hosts the strategy entered itself, never loses a host, and no earlier failed host is given a task |
| PlaybookRuns.SerializedBatches | lib/distronode/executor/playbook_executor.py:274-318 | the batches joined are the host list in order, none is empty, and batch i has the size of serial entry i, the last entry repeating; only the last batch may be smaller, and a non-positive entry takes the rest |
| PlaybookRuns.BatchesShareNothing | lib/distronode/executor/playbook_executor.py:280-318 | batches cut from distinct hosts are distinct and disjoint |
| PlaybookRuns.DecidesByCount | lib/distronode/executor/playbook_executor.py:204-205 | the subtraction of counts equals the number of newly failed plus newly unreachable entries |
| PlaybookRuns.PlaybookExecutor.RunPlayInBatches | lib/distronode/executor/playbook_executor.py:174-217 | the counters decide as the sets of new entries would; tables only grow; no batch gives a task to a host failed before it |
| PlaybookRuns.PlaybookExecutor.RunPlays | lib/distronode/executor/playbook_executor.py:126-220 | each play is run in its batches on the tables and the code the one before it left; the last one run is the last of the playbook or the first that was broken off; the tables only grow and a failed host is out of every later run |
| PlaybookStops.StopsPlaybookExactly | lib/distronode/executor/playbook_executor.py:174-217 | the batches of a play are run up to the first that ends the play or whose count is filled, and the playbook stops after the play exactly when one of those that were run was filled or had the break code |
| PlaybookStops.FilledExactly | lib/distronode/executor/playbook_executor.py:204-207 | the count is that of the batch exactly when the hosts spared and those only lost before are as many as those entered in both tables |
| PlaybookStops.LastBatchExactly | lib/distronode/executor/playbook_executor.py:200-209 | for every strategy that acts on hosts of the batch: the same of the tables it leaves, and exactly when the count agrees with the reason given for it, that the entire batch is lost |
| PlaybookStops.StepsAccounted | lib/distronode/executor/playbook_executor.py:200-205 | with a strategy that acts on results only, lost hosts are of the batch and never also among the failed ones |
| PlaybookStops.BreakCodes | lib/distronode/executor/playbook_executor.py:195-198 | code 8 breaks the play off and becomes 2; lower codes do not |
| PlaybookStops.LastWhenWhollyLost | lib/distronode/executor/playbook_executor.py:200-209 | with such a strategy a batch is the last of its play exactly when the whole batch is lost and none of its hosts was lost before |
| PlaybookStops.StopsForResultsExactly | lib/distronode/executor/playbook_executor.py:174-217 | and over all batches of a play: which is the last one run, and that the playbook stops exactly when one that was run was lost like that or had the break code |
| PlaybookStops.LostTwiceGoesOn | lib/distronode/plugins/strategy/linear.py:365-378 | any_errors_fatal, one host of two unreachable and both entered as failed: the first batch is wholly lost, the second is run, and the playbook stops only after it |
| PlaybookStops.SparedAndStopped | lib/distronode/plugins/strategy/linear.py:365-378 | any_errors_fatal with a host in its rescue section that is not entered: the count is filled, the next batch is not run and the playbook stops, although that host is not lost |
| PlaybookStops.LostEarlierGoesOn | lib/distronode/executor/playbook_executor.py:200-209 | a batch that is all lost, in an earlier play: the next batch is run, and the playbook goes on after the play |
| ImportClosure.CoreLocates | lib/distronode/executor/module_common.py:653-663 | where a core name is found: all of six at six; any other at itself, and an ambiguous one more than one part below module_utils else at the name before it |
| ImportClosure.CollectionLocates | lib/distronode/executor/module_common.py:818-858 | where a name of a collection is found; its packages down to module_utils always are, and a path elsewhere is refused |
| ImportClosure.LocatedIsProper | lib/distronode/executor/module_common.py:739-763 | what is located is one of ours, on a proper path, exists, and stands for six if it lies below it |
| ImportClosure.SkipKeeps | lib/distronode/executor/module_common.py:935-958 | an entry that is skipped leaves nothing unsettled |
| ImportClosure.AddKeeps | lib/distronode/executor/module_common.py:965-987 | a module that is added brings all its imports and ancestors onto the worklist or has them cached, and lies in every closed set |
| ImportClosure.DoneIsClosed | lib/distronode/executor/module_common.py:934-987 | an empty worklist means the least closed set, with every required import found and `basic` in it |
| ImportClosure.RaisedForCause | lib/distronode/executor/module_common.py:950-972 | a reported problem is one of every closed set |
| ImportClosure.LeastExists | lib/distronode/executor/module_common.py:884-987 | a least closed set exists for every world and every module |
| ImportClosure.GaplessBlame | lib/distronode/executor/module_common.py:950-958 | if every ancestor of a collected module exists, a problem means a fault of the least closed set |
| ImportClosure.EveryRun | lib/distronode/executor/module_common.py:934-987 | in every order a run that ends without a problem gives the least closed set with every required import found, and a problem is one of every closed set |
| ImportClosure.GaplessDecides | lib/distronode/executor/module_common.py:934-987 | if every ancestor of a collected module exists, a run in any order succeeds exactly when the least closed set has no fault |
| ImportClosure.RequiredDecides | lib/distronode/executor/module_common.py:934-987 | if no import of a collected module is optional, a run in any order succeeds exactly when the least closed set has no fault and all ancestors exist |
| ImportClosure.TidyIsGapless | lib/distronode/executor/module_common.py:981-987 | with the ancestors of every module on disk, those of every collected module exist |
| ImportSearch.RecursiveFinder | lib/distronode/executor/module_common.py:884-987 | the loop terminates; its outcome is that of the sorted run: a least closed set with every required import found, or a real problem; every file that an import of the script or of a collected file means is in the result, also when something inside the file is imported, and no import that means a file is reported as not found |
| ImportOrder.EveryOrderSucceeds | lib/distronode/executor/module_common.py:934-987 | every order succeeds exactly when the least closed set has no fault and no module with a missing ancestor is required by something that is collected whether or not that module is |
| ImportOrder.SomeOrderSucceeds | lib/distronode/executor/module_common.py:934-987 | some order succeeds exactly when the least closed set has no fault and can be reached without a required import of a module with a missing ancestor |
| ImportOrder.OrderMakesNoDifferenceExactly | lib/distronode/executor/module_common.py:934-987 | the order makes no difference exactly when there is a fault or one of these two conditions decides for all orders |
| ImportSearch.OneSortedRun | lib/distronode/executor/module_common.py:934-936 | a script has one sorted run: the order of the worklist is total |
| ImportSearch.SortedBetween | lib/distronode/executor/module_common.py:934-987 | what the two conditions say of the sorted run: it succeeds under the first, fails without the second, and is decided where the order makes no difference |
| ImportSearch.OrderMatters | lib/distronode/executor/module_common.py:950-987 | two complete runs of the same script, one that succeeds and one that fails, which differ in whether the optional or the required import of a module comes first |
| ImportSearch.NamesDecide | lib/distronode/executor/module_common.py:934-987 | of such a script the sorted run succeeds exactly when the optional import sorts before the required one |
| ImportSearch.NeitherDecides | lib/distronode/executor/module_common.py:934-987 | and neither of the two conditions tells these scripts apart |
| PayloadZip.ZipFile.WriteUtils | lib/distronode/executor/module_common.py:989-997 | every cached module is written once under its own path |
| PayloadZip.ZipFile.AddModule | lib/distronode/executor/module_common.py:1039-1070 | writes the module and exactly the package files on its way that are not there yet |
| PayloadZip.ModuleStandsApart | lib/distronode/executor/module_common.py:1046-1070 | collected names share with the module's name only directories above the modules |
| PayloadZip.PayloadDistinct | lib/distronode/executor/module_common.py:981-1070 | no two members of the archive have the same path when none is named `__init__` |
| PayloadZip.PayloadDirectories | lib/distronode/executor/module_common.py:981-1070 | every directory of the archive is a package exactly when every ancestor of a collected module was collected as one |
| PayloadZip.CollectedAsPackages | lib/distronode/executor/module_common.py:981-987 | it was, when the ancestors are packages on disk |
| PayloadZip.PathsByDisk | lib/distronode/executor/module_common.py:757-762 | by what is on disk: packages and made-up packages are members as package files, other collected modules as themselves and not as package files |
| PayloadZip.Assemble | lib/distronode/executor/module_common.py:1176-1189 | search, archive and module together: the members are exactly the least closed set, each by what is on disk, the module and the package files on its way, with distinct paths and packages for directories under the conditions above |
| PayloadCache.StepSafe | lib/distronode/executor/module_common.py:1154-1230 | with one lock every step of every worker keeps the protocol invariant and never changes a published file |
| PayloadCache.OneLockKeepsPromise | lib/distronode/executor/module_common.py:1154-1230 | in every interleaving, exceptions included: the cached file is absent or one whole payload, at most one rename happens, the read after the lock finds the file, finishers ship the cached bytes, at most one worker is inside the lock |
| PayloadCache.NoDeadlock | lib/distronode/executor/module_common.py:1154-1230 | while a worker is not done, some worker can move |
| PayloadCache.TwoLocksRenameTwice | lib/distronode/executor/module_common.py:1161-1170 | two workers with different locks can both rename |
| PayloadCache.TwoLocksFailARename | lib/distronode/executor/module_common.py:1209-1216 | with different locks a worker can find its file renamed away by another one, and fails |
| PayloadCache.OverlayExactly | lib/distronode/executor/module_common.py:1209-1210 | what a write at an offset makes of the `-part` file, byte by byte |
| PayloadCache.DoneIsDone | lib/distronode/executor/module_common.py:1154-1235 | a worker that shipped or failed makes no further move |
| PayloadCache.ReadsAfter | lib/distronode/executor/module_common.py:1222-1235 | the read after the lock ships what is cached, or reports that another worker failed to make it |
| PayloadCache.CachedNeedsNoLock | lib/distronode/executor/module_common.py:1154-1160 | a worker that finds the file ships it in two steps, whoever holds whatever lock |
| PayloadCache.PublishesAfterFailure | lib/distronode/executor/module_common.py:1209-1230 | a run in which a worker fails in the middle of writing, and the next one gets the lock, writes over the half file and publishes its own payload |
| PayloadCache.KeptExactlyWithOneLock | lib/distronode/executor/module_common.py:1154-1230 | with the lock chosen by the name each worker calls the module by and the locks it knows, the promise holds in every run exactly when all workers of the cached file take one lock |
| PayloadCache.KeptExactlyForCallers | lib/distronode/plugins/strategy/__init__.py:365-370 | in terms of queued actions and calling names: exactly when all callers use one name that had a lock from the first of them on, or none uses a name that had one |
| PayloadCache.KeptExactlyForOneName | lib/distronode/plugins/strategy/__init__.py:365-370 | with one calling name: exactly when it is locked for the first caller or for none |
| PayloadCache.StatByTwoNames | lib/distronode/plugins/action/__init__.py:845-857 | a stat task and a copy task, whose action plugin calls stat by its legacy name: a run of the two workers that ships different payloads, whichever locks there are from the beginning |
| PayloadCache.PingByTwoNames | lib/distronode/plugins/action/__init__.py:1028-1030 | two tasks that call one module by its short and its full name: likewise |
| PayloadCache.OneLockShipsTheSame | lib/distronode/executor/module_common.py:1135-1230 | with one lock all finishers ship the same bytes although each build embeds its own time |
| PayloadCache.TwoLocksShipDifferently | lib/distronode/executor/module_common.py:1135-1230 | with different locks and different builds they may not |
| GalaxyCache.GalaxyApi.CallGalaxy | lib/distronode/galaxy/api.py:351-436 | a valid entry answers a first page; otherwise the page is fetched and added to a fresh entry or to the running one |
| GalaxyCache.GalaxyApi.ReadPages | lib/distronode/galaxy/api.py:872-905 | following the next links gives the items of all pages in order, for any number of pages and both styles, and the entry holds them all |
| GalaxyCache.GalaxyApi.GetCollectionVersions | lib/distronode/galaxy/api.py:820-905 | without cache the answer is the server's list; with cache the answer and the new entry are those of the call function, and other collections keep theirs |
| GalaxyCache.LivesForADay | lib/distronode/galaxy/api.py:351-436 | for 86400 seconds a call that finds the same date gives the list the entry was filled with; from then on every call gives the list of the server |
| GalaxyCache.SlotHolds | lib/distronode/galaxy/api.py:844-866 | as long as calls agreed, the cache holds the date and list of the last call that found the collection |
| GalaxyCache.AgreesExactly | lib/distronode/galaxy/api.py:844-905 | cached and uncached answers agree at every call and for every clock exactly when successive calls never see the list change under the same date |
| GalaxyCache.DatesDetermineList | lib/distronode/galaxy/api.py:844-905 | dates that determine the list make every history agree |
| GalaxyCache.ReturningDate | lib/distronode/galaxy/api.py:844-866 | histories in which a date comes back with another list: harmless when a call saw the date between, and harmful when no call did or the collection was not found meanwhile |
| InventoryExport.YamlInventory.ListHosts | lib/distronode/cli/inventory.py:363-372 | a group lists its available hosts in order, and variables go exactly with the hosts not met before |
| InventoryExport.YamlInventory.FormatGroup | lib/distronode/cli/inventory.py:344-382 | formats exactly what is below the group and was not seen, each once; attaches variables once per newly met host; children in their order; a group left out is blank |
| InventoryExport.HostsOfExactly | lib/distronode/cli/inventory.py:363-379 | a group lists exactly its available hosts, in its order and each once, `all` lists none, and a group is blank exactly without such hosts and without variables asked for |
| InventoryExport.AttachedExactly | lib/distronode/cli/inventory.py:367-372 | the hosts that count as attached in a group are those whose entry carries variables |
| InventoryExport.BelowIsReachable | lib/distronode/cli/inventory.py:352-359 | the groups below a group are those reachable by child links that never enter `all` |
| InventoryExport.Export | lib/distronode/cli/inventory.py:339-385 | on every acyclic graph each reachable group is formatted once and, unless it is blank, written out in full in exactly one place, no other group is, and each available host of a reachable group other than `all` has its variables attached in exactly one place, all other hosts in none |
| ReleaseCycle.OrderIsTotal | packaging/release.py:771-779 | the order of PEP 440 on the versions that pass the rules is a strict total order |
| ReleaseCycle.ReleaseFile.SetVersion | packaging/release.py:782-797 | writes the requested version unless it is refused, and nothing otherwise |
| ReleaseCycle.ReleaseFile.UpdateVersion | packaging/release.py:1204-1213 | stores what the step function says or reports its refusal with the file unchanged; an explicit pre-release may be any text, read as a version or refused |
| ReleaseCycle.ReleaseFile.PostVersion | packaging/release.py:1438-1443 | likewise for the post step |
| ReleaseCycle.StepClimbs | packaging/release.py:771-797 | a command that succeeds, with any arguments, stores a strictly later version of the same major.minor |
| ReleaseCycle.HistoryClimbs | packaging/release.py:771-797 | over every run of successful commands any later version is strictly later in PEP 440 order, major.minor fixed |
| ReleaseCycle.NeverStuck | packaging/release.py:740-779 | without explicit arguments the check never refuses, and exactly one of the two commands applies to every version |
| ReleaseCycle.PreAcceptedExactly | packaging/release.py:740-779 | an explicit pre-release is accepted exactly when it does not go back before the current one, nor repeats one already published, and what is stored is that pre-release of the release under way |
| ReleaseCycle.TextStored | packaging/release.py:740-768 | of any other text only the version that it reads as is stored |
| ReleaseCycle.FinalStored | packaging/release.py:740-768 | asking for the final release stores it, whatever pre-release is given |
| ReleaseCycle.ExplicitStoredExactly | packaging/release.py:771-797 | a version given outright is stored itself, exactly when it is a later release of the same series and the current version is no release |
| ReleaseCycle.StripUndoesPost | packaging/release.py:441-446 | stripping undoes the post step, and the stripped version came from it exactly when the post number is 0 |
| ReleaseCycle.RoundsCount | packaging/release.py:1204-1443 | n rounds of post and update from a release lead to the n-th release after it, through all in between |
| AsyncPolling.Poll | lib/distronode/executor/task_executor.py:832-935 | the status is asked for until a reply is finished, skipped or a parsed failure, and at most ceil(async / poll) times; the outcome of the last reply is finished, not in time or unparseable as its fields say, and an exception is passed on only from the last call allowed |

## Left out

- HostStates.InsertTasksIntoState: the blocks of a `HostState` are values here. That hosts share block objects, and that an insertion copies a block before it changes one of its lists, is modelled for the active level in `SharedBlocks.dfy`; blocks nested in a task list, and tasks, are values there too.
- Compilation of plays, tag filtering, templating and task execution: compiled blocks, the fact-gathering decision and the oracle of task results are parameters.
- Strategy plugins: only the calls they make on the iterator. The start of a flush follows lib/distronode/plugins/strategy/__init__.py:964-968, and the sets of notified handlers at successive requests are parameters.
- Handler failures in the refinement: they do not have the try / catch / finally meaning; what they do is in `HandlerFailure.dfy`.
- HandlerFailure.AfterFailedHandler: after the request that follows a failed handler, no further handler fails in the drive to the end; and the results speak of a failure of a host's own flushed handler, reported before the next request.
- `clear_host_errors`, `set_run_state_for_host` and `set_fail_state_for_host`: overrides from outside the step relation, as is `is_any_block_rescuing`.
- StartAtTask.StartsAtTheMatch: assumes that the fact-gathering task itself does not fail, since a failed one ends the host's play.
- Facts about a host are fixed while it is searched for the task to start at.
- `meta: clear_host_errors`, which takes single hosts out of the table of failed hosts.
- PlaybookStops.StopsForResultsExactly: is about strategies that act on hosts of the batch that are not unreachable, and report a host as unreachable only while it is not failed; for all others `PlaybookStops.LastBatchExactly` and `PlaybookStops.StopsPlaybookExactly` say when the playbook stops.
- Several playbook files in one run, retry files and callbacks.
- Percentages in `serial`: entries are numbers already; `pct_to_int` is not part of this model.
- Redirects of module_utils, and the packages made up for redirected children.
- Parsing of Python: what a file imports, and whether it parses, is given; so is the directory search behind a name.
- PayloadCache.KeptExactlyForCallers: a worker calls the module at most once, and every worker of the cached file builds it from its own copy of the source; how the file name follows from the place of the module is not part of this model.
- Killed workers, which never give their lock back, and the creation of the cache directory.
- Errors in the middle of Galaxy pagination, retries, tokens, URLs and JSON; the server does not change during one call; the cache keys of API v2 and v3 are not mixed in one history.
- The lookup of single collection versions, which the cache keeps for a day without asking for a date.
- InventoryExport.Export: children and hosts of a group are listed without repetition, as `Group` keeps them. The JSON and TOML exports are not part of this model.
- ReleaseCycle.ReleaseFile.UpdateVersion: versions are parsed already, and of an explicit pre-release that is no tag only the version is given that the resulting text reads as, if any.
- The retry loop around a task, loops over items, and the rest of the task executor.
