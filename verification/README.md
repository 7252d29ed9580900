# SDF Core, modelled and proved in Dafny

SDF Core coordinates coding agents. It gates plans behind a human, dispatches
Attempts, relays messages between agents, verifies what they produced and
accepts a Task only on Evidence somebody else collected. This project models
the parts of it whose promises span several functions or whole runs, in the
form the Python has (objects that update their fields become classes, loops
become loops with invariants, parsers and codecs become functions), and proves
those promises.

Verify everything with `dafny verify dfyconfig.toml`.

## How it is organised

| files | what they model |
|---|---|
| `RunState`, `RunSafety`, `RunProperties`, `RunClock`, `Coordinator` | the coordinator's poll loop: the phases of one poll as a transition function, the object that performs them in place, and theorems about single polls and whole runs |
| `RunOutcome`, `RunLaw` | one poll told from the run and the poll alone: exactly when it ends the run and how, and what it makes of every subtask, agent and message |
| `DecisionGate` | which pending material decisions block which work |
| `Evaluation`, `Acceptance`, `EvaluationPlan` | the evaluator, the stages that may withdraw a PASS, and the verdict told from the request and the runs of its commands |
| `States`, `Execution` | Tasks, Attempts and stored Evidence: begin, finish, cancel, recovery, and every history of them |
| `RunEvidence`, `RunBook`, `RunPhases`, `RunHost` | what the verdicts of a run say about its Tasks and their stored Evidence, and the host that makes a run's verifications on the ledger, poll by poll |
| `RunMail`, `RunLate` | what the loop relays, announces and delivers over a run; a run that a late report ends |
| `Events`, `EventProperties`, `EventSummary` | the k-way merge of event streams and the gap report |
| `Unicode`, `Base64`, `JsonText`, `IsoTime`, `Cursor`, `CursorFormat` | the page cursor, byte by byte, and against the tables of its formats |
| `Listing`, `Paging`, `Inbox` | keyset pages, walks over changing tables, the approver inbox page by page and walk by walk |
| `Identities`, `Plans`, `PlanGuards` | plans and decision requests, and what the flush guards alone guarantee |
| `DispatchKey`, `Dispatch` | dispatch keys and any interleaving of concurrent dispatchers |
| `MessageHub`, `MessageReads` | the messages of a run and reading them while it goes on |
| `TaskTrace`, `FailureLimiter`, `Paths`, `Checks`, `CheckWords`, `ScopedApply` | the decision-graph search, the lockout window, check argument vectors and their words, the scoped tree merge |
| `Orders`, `Results`, `Requests`, `Verdicts` | stable sorting and orders, optional values, request states, verdicts |

What the model cannot determine is a parameter and is quantified over: the
clock, the agents, human decisions, whether a check passes and what tree it
leaves behind, digests, and the rows other sessions write. A digest is an
uninterpreted function, assumed injective only where a result says so.

## Where a promise holds only under a condition

Each of these has its condition as an if-and-only-if, or as an exact count.

* `order_events` says the same rows always give the same order. That is true
  exactly when no two different rows of a stream tie on (sequence, id); the
  unique key of the table implies it (`EventProperties.OrderIndependentIffTieFree`).
* The merged list is globally sorted exactly when no stream's clock steps back
  (`EventProperties.MergeSortedIffTimesMonotone`).
* A cursor brings its row identifier back exactly when the identifier is not
  empty and holds no high surrogate directly before a low one; JSON joins such a
  pair into one character (`Cursor.RoundTripIff`, `Cursor.PairIsLost`).
* The number of polls of a run is bounded exactly when `poll_interval_s` is not
  zero or the run starts over its wall cap. The configuration checks neither
  `poll_interval_s` nor `stall_s` for its range; no bound depends on `stall_s`.
  If only runs whose clock moves on at every poll are counted, starting exactly
  at the cap bounds them too (`RunClock.BoundedIffIntervalNonZero`,
  `RunClock.BoundedOnATickingClock`).
* The flush guards keep every Attempt behind an accepted plan exactly when no
  flush puts an already attempted Task under an undecided plan; they let such a
  flush through, and no operation produces one (`PlanGuards.GuardsKeepGate`,
  `PlanGuards.LateLinkPasses`, `PlanGuards.ProposePasses`).
* A Task with declared criteria whose checks name no held-out file can be
  accepted, in some course of events, exactly when its criteria are covered, its
  result has a tree, its agent is not the evaluator, and, if any policy asks for a
  hidden oracle, some policy asks for one at the position of a planned check. A
  policy at a position no check has asks for one too, so on its own it rules
  acceptance out (`Acceptance.AcceptableIff`).
* The subtasks a run holds to be passed are exactly those whose Tasks are
  `succeeded`, as long as only the run settles them and no exception has ended it
  (`RunEvidence.PassedIffAccepted`, `RunHosts.Host.PassedAreAccepted`).
* A worker's report after its last verification round ends the run as failed;
  the verification phase raises exactly then, or when a check itself raises. A
  run of three polls gets there with no check raising
  (`RunProperties.LateReportFailsRun`, `RunLate.LateReportHappens`).

## Model

| member | source | states |
|---|---|---|
| `Coordinators.Coordinator.constructor` | sdf_core/coordinator.py:380-452 | a run starts with idle agents, every subtask on its first, unjudged Attempt, no held time, and the lead's brief and a note to each worker waiting to be delivered |
| `Coordinators.Coordinator.CollectFinished` | sdf_core/coordinator.py:478-487 | exactly the turns that are done end, and their agents re-check the inbox |
| `Coordinators.Coordinator.RelayOutboxes` | sdf_core/coordinator.py:488-522 | messages, refusals and reports in arrival order become deliveries and verification requests, as `RunMail.RelayExact` says |
| `RunMail.RelayExact` | sdf_core/coordinator.py:488-522 | the queue grows by the deliveries of each envelope in order, verification is requested for exactly the subtasks whose worker reported, and the lead counts as done exactly if it said so |
| `Coordinators.Coordinator.AnnounceDecisions` | sdf_core/coordinator.py:528-541 | the loop tells the askers of exactly the resolutions that `RunMail.AnnouncedOnce` and `RunMail.AnnouncedWhenSeen` describe, in order, and remembers their requests |
| `RunMail.AnnouncedOnce` | sdf_core/coordinator.py:528-541 | over a whole run each request is announced at most once, and the loop remembers exactly those it announced |
| `RunMail.AnnouncedWhenSeen` | sdf_core/coordinator.py:528-541 | a resolution of an agent's request that a poll takes in is announced by the end of that poll, and what is announced waits in the queue, in order |
| `Coordinators.Coordinator.VerifyReady` | sdf_core/coordinator.py:577-588 | the verification loop does to every subtask what the phase specification says, and stops at the first exception |
| `Coordinators.Coordinator.NotifyLead` | sdf_core/coordinator.py:590-595 | the notice goes out exactly when everything has passed and none went out before |
| `RunProperties.NotifiedOnce` | sdf_core/coordinator.py:590-595 | over a whole run the lead is told at most once that everything passed, and then it is so |
| `Coordinators.Coordinator.DeliverMail` | sdf_core/coordinator.py:597-604 | the loop delivers what `RunMail.DeliverExact` says, and nothing else changes |
| `RunMail.DeliverExact` | sdf_core/coordinator.py:597-604 | exactly the undeliverable mail stays queued, in its order, and exactly the recipients of the rest are woken |
| `Coordinators.Coordinator.WakeIdle` | sdf_core/coordinator.py:606-633 | the wake loop starts turns in agent order under the concurrency cap, skipping blocked agents, which keep their wake flag |
| `Coordinators.Coordinator.Conclude` | sdf_core/coordinator.py:635-674 | success, exhaustion, waiting, stalling and the no-sleep `continue`, in the order of the source |
| `Coordinators.Coordinator.MarkUnverified` | sdf_core/coordinator.py:662-670 | quiet agents get each unverified Attempt verified once |
| `Coordinators.Coordinator.PollOnce` | sdf_core/coordinator.py:453-674 | one turn of the loop on the object is exactly one step of the transition function, caps first |
| `RunOutcome.PollLaw` | sdf_core/coordinator.py:464-474 | how a poll ends the run, each way exactly when: cancelled, each cap in its order, the sandbox expiring under a pending decision, a verification that raises, success (all PASS, no pending material decision, and the lead done or nothing in flight, queued, woken or asked for), rounds used up, stalling; and exactly when the next interval is marked as held |
| `RunOutcome.DecideLaw` | sdf_core/coordinator.py:635-674 | the decision on a run, read off its fields and those of the run it leaves: done, out of rounds, stalled, asking for the unseen Attempts, or sleeping on |
| `RunLaw.SubtaskMeetsLaw` | sdf_core/coordinator.py:577-588 | what a poll makes of every subtask: verified exactly if it was asked for, not passed, not blocked, its worker idle and no earlier one raised; and then its verdict, its next round, or what the exception left |
| `RunLaw.AgentsMeetLaw` | sdf_core/coordinator.py:478-633 | what a concluding poll makes of every agent and of the queue: turns ended, mail delivered to exactly the deliverable recipients, and a turn started exactly for a woken, idle, unheld agent with mail and turns left while there is room |
| `RunLaw.WakeExact` | sdf_core/coordinator.py:606-633 | every agent meets its fate in order: looked at if woken, idle, not held back and there is room for one more turn in flight |
| `Coordinators.Coordinator.Execute` | sdf_core/coordinator.py:453-674 | with a non-zero interval the `while True` loop ends, its polls form a run in the sense of every run theorem, and its outcome is that of the last poll |
| `Coordinators.Coordinator.ExecuteFor` | sdf_core/coordinator.py:453-674 | the same loop under any configuration, zero interval included: any number of its polls form a run, and it ends with the outcome of its last poll |
| `RunProperties.PollKeepsInv` | sdf_core/coordinator.py:478-633 | every poll keeps: concurrent turns, turns per agent and rounds per subtask within their caps, and, unless an exception ends the run there, verdicts exactly on settled Attempts and a FAIL or INCONCLUSIVE verdict only on the last round |
| `RunProperties.InvAlways` | sdf_core/coordinator.py:453-674 | the caps hold at every moment of every run, and the whole invariant until an exception ends it |
| `RunProperties.PassIsAbsorbing` | sdf_core/coordinator.py:583-588 | a passed subtask keeps its verdict and Attempt through any poll |
| `RunSafety.PollSubtask` | sdf_core/coordinator.py:577-588 | a poll changes a verdict or round only by a host verification of an unblocked subtask whose worker is idle |
| `RunSafety.PollAgent` | sdf_core/coordinator.py:606-633 | a poll starts a turn only for an idle, unblocked agent with mail and turns left |
| `RunProperties.LateReportFailsRun` | sdf_core/coordinator.py:902-948 | verification raises exactly when it reaches a due subtask whose check raises or whose last round is already judged |
| `RunLate.LateReportHappens` | sdf_core/coordinator.py:902-948 | a run of three polls in which every check fails, none raises and no cap is met ends failed: its last report comes after the verdict on its last round |
| `RunProperties.VerdictHasCause` | sdf_core/coordinator.py:902-948 | every recorded verdict was given by one host verification of that Attempt, at a poll where nothing blocked it |
| `RunProperties.SuccessNeeds` | sdf_core/coordinator.py:644-650 | a poll that ends `succeeded` leaves every subtask PASS and saw no pending material decision |
| `RunProperties.SuccessIsEvidence` | sdf_core/coordinator.py:543-655 | a succeeded run: empty gate at the end, and for every subtask a host verification that came to PASS |
| `RunProperties.FinalizeAgrees` | sdf_core/coordinator.py:980-1010 | finalizing never contradicts the loop; it cancels exactly the Attempts that are still open, which, unless an exception ended the run, are those without a verdict |
| `RunClock.HeldIsMarked` | sdf_core/coordinator.py:453-463 | held time is the sum of the marked intervals, and counted time is never negative |
| `RunClock.HeldOnlyWhileWaiting` | sdf_core/coordinator.py:639-643 | an interval is held only if a material decision was pending, no turn is in flight and nothing was verified |
| `RunClock.WithinCaps` | sdf_core/coordinator.py:464-472 | a poll that passes the caps is at most both caps after the start |
| `RunClock.StallBound` | sdf_core/coordinator.py:662-670 | the no-sleep `continue` happens at most once per Attempt |
| `RunClock.RunsEnd` | sdf_core/coordinator.py:453-674 | every run ends: polls are bounded by the sleeps that fit in both caps plus one per Attempt plus two |
| `RunClock.BoundedIffIntervalNonZero` | sdf_core/coordinator.py:121-154 | from the state a run starts in, the number of polls is bounded exactly when the poll interval is not zero or the run is over its wall cap already |
| `RunClock.ZeroIntervalRun` | sdf_core/coordinator.py:453-674 | with a zero interval a run that starts within its wall cap waits for its human through any number of polls, at whatever small time apart, zero or not |
| `RunClock.BoundedOnATickingClock` | sdf_core/coordinator.py:121-154 | for runs whose clock has moved on at every poll: bounded exactly when the poll interval is not zero or the run starts at or over its wall cap |
| `DecisionGate.PendingMaterial` | sdf_core/decision_gate.py:79-102 | the gate lists exactly the pending, material agent requests of the runs asked for, once each and oldest first, with their scopes |
| `DecisionGate.QueueIsOldestFirst` | sdf_core/decision_gate.py:79-102 | that list is sorted by age and holds each blocking request as often as the table |
| `DecisionGate.CheckDecisionGate` | sdf_core/decision_gate.py:105-121 | a Task is refused exactly when a pending material request of one of its plan's runs covers it, and the refusal names the oldest such request |
| `DecisionGate.BlockedIs` | sdf_core/decision_gate.py:71-121 | the blocking requests told from the rows: pending, of a run of the plan, material by the record of their message, from the worker of that subtask or from no worker of any |
| `DecisionGate.PollGateAgrees` | sdf_core/coordinator.py:543-550 | the loop calls a subtask blocked exactly when the service gate, asked about that run alone, would refuse it |
| `DecisionGate.OwnRunBlocksTask` | sdf_core/decision_gate.py:105-121 | what the loop holds back the service refuses too |
| `DecisionGate.NonWorkerBlocksEverything` | sdf_core/decision_gate.py:71-76 | a request of the lead or an unknown sender blocks every subtask |
| `DecisionGate.ResolutionLifts` | sdf_core/decision_gate.py:79-121 | any resolution of the only covering request unblocks the subtask |
| `Evaluation.RunDeclared` | sdf_core/evaluator.py:394-415 | one row per mapped check in order, a coverage gap for each criterion without one, and the covered set |
| `Evaluation.NoteUndeclared` | sdf_core/evaluator.py:417-421 | a gap for every mapping of a criterion the Task does not declare |
| `Evaluation.RunChecks` | sdf_core/evaluator.py:404-440 | the rows of a list of commands, numbered on from the rows before |
| `Evaluation.Evaluate` | sdf_core/evaluator.py:327-441 | the whole evaluation: the planned rows in order, FAIL if one failed, PASS only if all passed and the criteria are covered |
| `EvaluationPlan.EveryCommandLeavesItsRow` | sdf_core/evaluator.py:388-441 | told from the request alone: every command of every criterion's first mapping leaves one row with what its run came to, in the order of the criteria and their commands; commands outside any criterion run only without mappings; every other row says that nothing ran |
| `EvaluationPlan.OneCommandPerRow` | sdf_core/evaluator.py:388-441 | no row stands for two commands |
| `Evaluation.GapsAre` | sdf_core/evaluator.py:394-421 | an evaluation without a gap covers every criterion and maps nothing else |
| `Acceptance.StagesNeverUpgrade` | sdf_core/execution.py:817-890 | for the rows of any evaluator: no stage turns a row or the overall status into a PASS or away from a FAIL |
| `Acceptance.PassIffAccepts` | sdf_core/execution.py:833-890 | the verdict is PASS exactly when criteria are covered, every check ran to a PASS on the unchanged result tree with a sealed oracle, independent of the agent and unexpired, and a declared hidden oracle was among them |
| `Acceptance.FailIffACheckFailed` | sdf_core/execution.py:408-452 | the verdict is FAIL exactly when some check ran and failed |
| `EvaluationPlan.FailIffACommandFailed` | sdf_core/execution.py:408-452 | the verdict is FAIL exactly when a command of the request ran to FAIL in its row |
| `EvaluationPlan.PassIffEveryCommandBears` | sdf_core/execution.py:408-452 | the verdict is PASS exactly when every criterion has a command, every mapping a criterion, every command ran to PASS on the result tree with a sealed oracle, by another than the evaluator and unexpired, and an unseen one was among them if any policy asks for it |
| `Acceptance.RowVerdict` | sdf_core/acceptance.py:74-132 | after drift and acceptance a row is PASS exactly when its check proved its part, and then it is verification, independent, bound to the diff and on the result tree |
| `Acceptance.RefusalIs` | sdf_core/acceptance.py:74-132 | a row is refused exactly if it is not verification, not independent, not bound to the digest, without a sealed oracle or expired, and for the first of these reasons |
| `Acceptance.HiddenMeansHidden` | sdf_core/acceptance.py:178-209 | for any rows: the hidden-oracle rule passes exactly when some hidden check proved its part and is still unexpired when it is looked at |
| `Acceptance.AcceptedRows` | sdf_core/execution.py:408-452 | an accepted Task's rows are all PASS, independent, bound to the diff and on the result tree, cover every criterion and no other, and hold a hidden-oracle PASS if one was declared; legacy commands cannot accept |
| `Acceptance.MisplacedPolicyNeverAccepts` | sdf_core/execution.py:440-447 | when the only hidden policies are at positions no planned check has, and no check names a held-out file, PASS is impossible |
| `Acceptance.AcceptableIff` | sdf_core/execution.py:440-447 | some course of events accepts the Task exactly when its criteria are covered, its result has a tree, its agent is not the evaluator, and, if any policy asks for a hidden oracle, one does at a planned check |
| `Execution.Executions.FailTaskIfExclusive` | sdf_core/execution.py:763-780 | the Task fails unless another of its Attempts is running |
| `Execution.Executions.FailAttempt` | sdf_core/execution.py:741-761 | settles only an owned running Attempt; otherwise touches the Task only if this call completed it |
| `Execution.Executions.Settle` | sdf_core/execution.py:345-407 | capture failure, recovery settling the Attempt first (with its own write to the Task), Task no longer running, adapter failure and success: which of them it is, and the new rows of each |
| `Execution.Executions.Judge` | sdf_core/execution.py:408-601 | the Task takes the verdict exactly when the evaluator and the store hold out; otherwise it is left unaccepted |
| `Execution.Executions.Finish` | sdf_core/execution.py:325-602 | refused unless owned, running and unblocked, and completed exactly when nothing goes wrong; a PASS then makes the Task succeeded, a FAIL failed and anything else inconclusive, with the rows stored; every refusal leaves exactly what the source leaves |
| `Execution.ConcludedFollowsLifecycle` | sdf_core/state.py:6-23 | a concluded call moves Attempt and Task along their lifecycles; nothing leads on from succeeded |
| `States.TablesAre` | sdf_core/state.py:6-23 | the two lifecycles, transition by transition |
| `Execution.ConcludedIsFinished` | sdf_core/execution.py:408-602 | a completed call makes the Task succeeded, failed or inconclusive exactly as the evaluation of its criteria, the report and the agent came out, failed without an adapter result, and stores those rows |
| `Execution.KeepsProof` | sdf_core/execution.py:325-602 | settling a running Attempt takes no other Task's proof away |
| `Execution.Executions.BeginAttempt` | sdf_core/execution.py:306-311 | the Task passes through ready to running and a running Attempt appears, exactly when the lifecycle allows it |
| `Execution.Executions.Recover` | sdf_core/recovery.py:463-497 | an orphaned Attempt fails, and its Task too unless another of its Attempts is running |
| `Execution.Executions.Cancel` | sdf_core/coordinator.py:992-1009 | an Attempt still running and owned is cancelled and its running Task left inconclusive; otherwise nothing changes |
| `Execution.MovesKeepSound` | sdf_core/execution.py:325-602 | every begin, verdict, abandonment and registration keeps: rows only on completed Attempts, and every succeeded Task proved by the stored rows of one of its Attempts |
| `Execution.SoundAlways` | sdf_core/execution.py:325-602 | so at every moment of every history from the empty ledger a succeeded Task has stored rows that prove it |
| `Execution.SucceededForEver` | sdf_core/state.py:6-23 | in every history an accepted Task stays accepted |
| `Execution.SucceededHasCause` | sdf_core/execution.py:408-601 | a Task becomes succeeded by a PASS on one of its Attempts and by nothing else |
| `RunEvidence.VerifyAttempt` | sdf_core/coordinator.py:902-930 | host verification reports a verdict exactly when `finish` went through, and it is the evaluation's own (FAIL without an adapter result); an exception accepts nothing and says whether the Attempt is still open |
| `RunEvidence.SucceededRunIsAccepted` | sdf_core/coordinator.py:644-655 | when a run has succeeded, and ever after, the Task of each of its subtasks is succeeded with stored Evidence that accepts it |
| `RunEvidence.PassedIffAccepted` | sdf_core/coordinator.py:902-948 | until an exception ends a run, its passed subtasks are exactly those whose Tasks are succeeded, if only the run settles them |
| `RunHosts.Host.constructor` | sdf_core/coordinator.py:380-452 | a run can begin over a ledger with any history, each subtask with an Attempt of its Task in it |
| `RunHosts.Host.FinishAttempt` | sdf_core/coordinator.py:919-931 | `finish` on the current Attempt of a subtask goes on the book: a verdict is an evaluation that settled its Task, an exception leaves the Attempt open or settled without one |
| `RunHosts.Host.CheckAttempt` | sdf_core/coordinator.py:902-948 | host verification of one subtask on the ledger: its verdict is on the book even when what follows raises, and a retry is an Attempt of the same Task |
| `RunHosts.Host.VerifyAll` | sdf_core/coordinator.py:577-588 | the verification phase made on the ledger is the phase of the transition function for what the checks came to, and every verdict is on the book |
| `RunHosts.Host.PollOnce` | sdf_core/coordinator.py:453-674 | a poll whose verifications are made on the ledger is a poll of the run, keeps every verdict of the run backed by an evaluation during its poll, and if it ends the run as succeeded every Task is succeeded with Evidence that accepts it |
| `RunHosts.Host.CatchUp` | sdf_core/execution.py:325-602 | whatever other sessions do to the ledger between two polls, every verdict of the run stays backed |
| `RunHosts.Host.PassedAreAccepted` | sdf_core/coordinator.py:902-948 | between two polls, while no exception has ended the run and if only the run settles its Tasks, the passed subtasks are exactly those whose Tasks are succeeded |
| `Events.GroupByStream` | sdf_core/events.py:147-149 | every row in its own stream, in fetch order |
| `Events.OrderEvents` | sdf_core/events.py:140-160 | the output restricted to each stream is that stream in (sequence, id) order, and each row was the earliest head |
| `Events.MinHead` | sdf_core/events.py:155-155 | the chosen stream has a least head by (time, stream key, sequence) |
| `Events.OrdersAre` | sdf_core/events.py:120-155 | rows of a stream go by sequence and then id, heads by time and then sequence, a missing id counting as 0 and a missing time as the epoch |
| `Orders.CodesLeIs` | sdf_core/events.py:155-155 | text goes by its first difference in code points, a beginning before the whole |
| `EventProperties.MergePermutes` | sdf_core/events.py:140-160 | the merge loses, adds and repeats no row |
| `EventProperties.MergeKeepsStreamOrder` | sdf_core/events.py:150-160 | rows of one stream never swap |
| `EventProperties.MergeUnique` | sdf_core/events.py:154-160 | the rows and their streams determine the merge |
| `EventProperties.MergeIgnoresInputOrder` | sdf_core/events.py:140-160 | any two fetch orders of a tie-free table give the same list |
| `EventProperties.TieMakesOrderMatter` | sdf_core/events.py:150-151 | exchanging two different tied rows changes the list |
| `EventProperties.OrderIndependentIffTieFree` | sdf_core/events.py:140-145 | the order is independent of the fetch order exactly for tie-free tables |
| `EventProperties.MergeSortedIffTimesMonotone` | sdf_core/events.py:154-160 | the whole list is sorted exactly when every stream's times are non-decreasing |
| `EventSummary.Summarize` | sdf_core/events.py:189-207 | one row per stream in key order, with its count, bounds, exactly the missing numbers and the latest row's state |
| `EventSummary.BoundaryIs` | sdf_core/events.py:76-80 | exactly the kinds that begin with `tool_` are action boundaries |
| `EventSummary.GapsComplete` | sdf_core/events.py:197-206 | count plus gaps equals the last sequence exactly when no number repeats and none is below 1 |
| `Base64.RoundTrip` | sdf_core/human_read.py:38-48 | unpadded base64url of any bytes reads back, with the pads re-added, as those bytes |
| `Base64.Injective` | sdf_core/human_read.py:38-40 | two byte strings never share an encoding |
| `Base64.EncodedIsPlain` | sdf_core/human_read.py:43-45 | an encoding survives `strip` and is empty only for no bytes |
| `CursorFormat.EncodedIs` | sdf_core/human_read.py:38-40 | letter by letter the sextets of every three bytes in the url-safe alphabet, as many as the bits need |
| `CursorFormat.ValueIs` | sdf_core/human_read.py:43-49 | the reader takes that alphabet and the two letters of the older one |
| `CursorFormat.ForeignIsSkipped` | sdf_core/human_read.py:43-49 | characters outside the alphabet are skipped wherever they stand |
| `CursorFormat.PaddingEnds` | sdf_core/human_read.py:43-49 | nothing after a full padding matters |
| `JsonText.ReadWritten` | sdf_core/human_read.py:38-48 | an escaped string reads back as itself with adjacent surrogates joined, whatever follows it |
| `CursorFormat.ReadIs` | sdf_core/human_read.py:43-49 | a JSON string is read exactly if it is characters, short escapes and `u` escapes up to its quote, and then as their code units |
| `CursorFormat.EscapeIs` | sdf_core/human_read.py:38-40 | a character is written as its short escape, as itself if printable ASCII, else as its UTF-16 code units in hex |
| `CursorFormat.UnitEscapeIs` | sdf_core/human_read.py:38-40 | a code unit is written as four lower-case hex digits of its value |
| `IsoTime.RoundTrip` | sdf_core/human_read.py:38-58 | every valid timestamp, with any fraction and offset, reads back from its ISO form |
| `CursorFormat.StampIs` | sdf_core/human_read.py:56-60 | a timestamp is read exactly if the text says it, field by field, and it is valid |
| `CursorFormat.WrittenSays` | sdf_core/human_read.py:38-40 | what is written says the timestamp |
| `CursorFormat.CalendarIs` | sdf_core/human_read.py:56-60 | the valid timestamps are those of the Gregorian calendar with an offset below a day |
| `Cursor.DecodeEncode` | sdf_core/human_read.py:38-60 | decoding an encoded cursor gives the timestamp and the joined identifier, or an error for an empty one |
| `Cursor.RoundTripIff` | sdf_core/human_read.py:38-60 | the cursor is faithful exactly for non-empty identifiers without an adjacent surrogate pair |
| `CursorFormat.CursorIs` | sdf_core/human_read.py:43-60 | exactly these cursors are read: not empty, without white space around them or surrogates in them, base64 of the two-field object, with a valid timestamp and an identifier |
| `CursorFormat.ObjectIs` | sdf_core/human_read.py:38-40 | a cursor is written as the compact object of the timestamp and the identifier, in this order |
| `Cursor.PairIsLost` | sdf_core/human_read.py:38-60 | an identifier a cursor does not bring back |
| `Unicode.JoinedSame` | sdf_core/human_read.py:38-48 | joining changes a string exactly when it holds a pair |
| `Listing.ListedAscends` | sdf_core/human_read.py:86-99 | the filtered list ascends strictly in the key |
| `Listing.RestIsListed` | sdf_core/human_read.py:86-105 | reading on after the last row of a page gives exactly the rest of the list |
| `Paging.CursorResumes` | sdf_core/human_read.py:90-105 | a page asked for with a row's cursor starts right after that row |
| `Paging.PlaceLeIsTotalOrder` | sdf_core/human_read.py:86-87 | (created_at, id) orders places totally |
| `Paging.PlaceLeIs` | sdf_core/human_read.py:90-105 | places go by timestamp, field by field, and then by identifier |
| `Paging.ExactlyOnce` | sdf_core/human_read.py:90-105 | while the table changes between pages, a row that is there throughout is returned exactly once |
| `Paging.WalkAscends` | sdf_core/human_read.py:90-105 | no walk repeats a row or goes back |
| `Paging.WalkInventsNothing` | sdf_core/human_read.py:90-105 | a returned row was in the table its page was read from |
| `Paging.WalkIsListing` | sdf_core/human_read.py:90-105 | over an unchanging table the pages spell out the filtered list sorted by (created_at, id) |
| `Paging.WalkEnds` | sdf_core/human_read.py:90-105 | such a walk exists, every page but the last is full, and it has no more pages than rows |
| `Inbox.InboxExactlyOnce` | sdf_core/human_read.py:222-284 | while plans and requests are added between pages, a request that is the caller's to approve when the walk begins and pending until it ends is returned exactly once, with its plan |
| `Inbox.InboxAscends` | sdf_core/human_read.py:222-284 | no walk shows a request twice or goes back, whatever changes between its pages |
| `Inbox.InboxShowsEligible` | sdf_core/human_read.py:222-284 | a request shown was pending and the caller's to approve when its page was read; who cannot approve is shown nothing |
| `Inbox.InboxIsListing` | sdf_core/human_read.py:222-284 | over unchanging tables the pages spell out the sorted list of everything the caller may approve |
| `Inbox.InboxWalkEnds` | sdf_core/human_read.py:222-284 | with every fold in place such a walk exists, and every page but the last is full |
| `Inbox.WrongFoldsStopTheListing` | sdf_core/human_read.py:197-219 | no page is served while a fold is missing, nor with a row whose fold is wrong |
| `Inbox.RefusalsAre` | sdf_core/human_read.py:223-284 | a page is refused exactly over an unreadable cursor, a plan without a fold, a caller without one, or a wrong fold among the rows fetched, in that order |
| `Inbox.EligibleIs` | sdf_core/human_read.py:250-269 | who is shown what, on the rows: every pending agent request, and a pending plan request unless the caller proposed the plan, single-user mode aside |
| `Inbox.ShownIffApprovable` | sdf_core/human_read.py:222-284 | walking the inbox, an approver is shown a plan's request exactly when approving that plan now would not be refused |
| `Identities.HumanIsStripped` | sdf_core/plans.py:122-126 | validating a valid name changes nothing |
| `Identities.PolicyIsNoHuman` | sdf_core/plans.py:122-126 | what a policy signs with is no human name in any letter case |
| `Identities.ValidHumanIs` | sdf_core/plans.py:43-44 | the name that signs is the given one without the white space around it; it is refused exactly if it leaves the actor alphabet or length or is, in any letter case, a host, lead, worker or manager name or an agent's or policy's signature |
| `Identities.FoldIs` | sdf_core/casefold.py:28-45 | on actor names folding turns capitals into their letters and nothing else |
| `Plans.PlanStore.ProposePlan` | sdf_core/plans.py:136-186 | refused exactly for a bad proposer or a taken id; otherwise one plan, one pending request, one Task and link per subtask |
| `Plans.PlanStore.DecidePlan` | sdf_core/plans.py:199-244 | refusals in the order of the source; otherwise plan, request and Decision move together, once |
| `Plans.DecideRefusalIs` | sdf_core/plans.py:199-227 | a decision goes through exactly if a named human makes it on a proposed plan whose content matches its hash and the reviewed one, with its request pending, and he rejects it, another proposed it or single-user mode is on; otherwise the first obstacle is the reason |
| `Plans.ResolveRefusalIs` | sdf_core/plans.py:314-352 | a request is resolved exactly if it is pending and a named human resolves it, or a policy that does not approve and the request is not material, with a text for an answer; one about a plan only by a human decision on the plan |
| `Plans.PlanStore.OpenAgentRequest` | sdf_core/plans.py:262-272 | one pending request bound to its classified message |
| `Plans.PlanStore.ResolveRequest` | sdf_core/plans.py:314-357 | refusals in the order of the source; plan requests go through the plan decision; a policy never approves and never resolves a material request |
| `Plans.PlanStore.BeginAttempt` | sdf_core/execution.py:68-78 | an Attempt starts exactly when its Task's plan is accepted, or it has none and none is required |
| `Plans.PlanStore.CreateRun` | sdf_core/db.py:888-891 | a run starts exactly on an accepted plan |
| `Plans.WorkIsApproved` | sdf_core/plans.py:199-244 | an Attempt of a planned Task, or a run, implies its plan is approved, unchanged since proposed, and approved by a named human other than the proposer unless single-user mode is on |
| `Plans.DecideKeepsInv` | sdf_core/plans.py:199-244 | after a decision: lockstep of plan and request, an approval by a named human other than the proposer unless single-user mode, the proposed bytes |
| `Plans.ResolveKeepsInv` | sdf_core/plans.py:314-357 | after a resolution a material request is resolved by a human or still pending |
| `PlanGuards.PlanMovesOnce` | sdf_core/db.py:847-854 | over any flushes a decided plan never changes and an undecided one keeps its content |
| `PlanGuards.RequestMovesOnce` | sdf_core/db.py:832-842 | over any flushes a resolved request is final and a pending one asks the same question |
| `PlanGuards.MaterialNeedsAHuman` | sdf_core/db.py:843-844 | over any flushes a material request leaves pending only by a human |
| `PlanGuards.AcceptedMeansApproved` | sdf_core/db.py:855-861 | a plan that became accepted has a request that is still approved by a human |
| `PlanGuards.GuardsKeepGate` | sdf_core/db.py:864-891 | a guarded flush keeps all Attempts behind accepted plans exactly when it links no attempted Task to an undecided plan |
| `PlanGuards.LateLinkPasses` | sdf_core/db.py:864-891 | the guards let such a flush through |
| `PlanGuards.ProposePasses` | sdf_core/plans.py:136-186 | proposing passes the guards and never links late |
| `PlanGuards.DecidePasses` | sdf_core/plans.py:223-244 | deciding passes the guards as two flushes, request first |
| `PlanGuards.PlanFirstIsRefused` | sdf_core/db.py:852-861 | the other order is refused |
| `PlanGuards.ResolvePasses` | sdf_core/plans.py:314-357 | every resolution the operation makes passes the guards |
| `DispatchKey.DerivedKeyIff` | sdf_core/dispatch_key.py:46-68 | two keyless requests share a key exactly when they ask for the same execution: same Task, fixture, instructions, checks, parent, target and effective tier |
| `DispatchKey.KeyIs` | sdf_core/api.py:1012-1016 | the caller's key is used if it gives one, else the derived one |
| `DispatchKey.AllowedIff` | sdf_core/api.py:342-351 | a caller may name exactly the keys of 1 to 200 characters that no digest could derive |
| `DispatchKey.ExplicitNeverDerived` | sdf_core/api.py:345-351 | a caller cannot name a derived key |
| `Dispatch.StepKeepsInv` | sdf_core/execution.py:222-304 | every read, insert, clash, rollback, re-read, commit and abort keeps one Attempt per key |
| `Dispatch.InvAlways` | sdf_core/execution.py:222-304 | so does every interleaving of any number of dispatchers |
| `Dispatch.SameKeySameAttempt` | sdf_core/execution.py:222-304 | same key and Task: the same Attempt for everybody, created by at most one |
| `Dispatch.LoserFindsWinner` | sdf_core/execution.py:286-297 | losing the key always finds the winner, and refuses it to another Task |
| `Dispatch.KeylessReplay` | sdf_core/execution.py:222-304 | two answered keyless dispatchers got the same Attempt exactly when they asked for the same execution |
| `Dispatch.SomebodyMoves` | sdf_core/execution.py:286-304 | a waiting dispatcher waits for one that can go on |
| `Dispatch.RunsAreShort` | sdf_core/execution.py:222-304 | every interleaving ends after at most three steps per dispatcher |
| `MessageHub.Hub.Ingest` | sdf_core/agent_messaging.py:123-229 | refusals in the order of the source, an empty report status counting as done; a redelivered envelope changes nothing stored; otherwise one row with the next number, addressed as routed |
| `MessageHub.IngestRefusalIs` | sdf_core/agent_messaging.py:124-190 | an envelope is taken exactly if it is a member's, from its own sandbox, small enough, within its quota and identified, and either known already or of an agent's kind, with a text, addressable and, as a report or decision request, well formed |
| `MessageHub.RouteIs` | sdf_core/agent_messaging.py:231-253 | a message is routed exactly if it can be addressed, to the manager, to every other lead, to all workers if a lead sends it, or to the member named, and to nobody twice |
| `MessageHub.StrangersAreRefused` | sdf_core/agent_messaging.py:124-126 | a sender that is no member is refused as unknown |
| `MessageHub.LeadSeesAll` | sdf_core/core_mcp.py:188-192 | a lead reads every message |
| `MessageHub.Hub.Store` | sdf_core/agent_messaging.py:112-121 | storing keeps numbers 1..n, envelopes unique, one claim per report, the cap and the cached count |
| `MessageHub.Hub.NextSeq` | sdf_core/agent_messaging.py:108-110 | one more than the largest number is one more than the number of messages |
| `MessageHub.MaxSeqIs` | sdf_core/agent_messaging.py:108-110 | over any rows the number looked up is the largest, and 0 without rows |
| `MessageHub.Hub.PostFromHost` | sdf_core/agent_messaging.py:256-267 | posted exactly to a member, in a host kind, with text left after sanitizing; one numbered row from the host, and no claim or request |
| `MessageHub.ValidIdIs` | sdf_core/agent_messaging.py:95-97 | who may be a member: a lower-case letter, then letters, digits and dashes, 64 characters at most, and no name of the host, the manager or a role |
| `MessageHub.NeverToSelf` | sdf_core/agent_messaging.py:231-253 | no routing makes the sender a recipient, and every recipient is a member |
| `MessageHub.WorkerSeesIff` | sdf_core/core_mcp.py:188-192 | a worker can read an agent's message exactly when it sent it or the message was routed to it |
| `MessageHub.OneClaimPerReport` | sdf_core/agent_messaging.py:214-222 | over any log the hub keeps, every report of an agent has a status and exactly one claim |
| `MessageHub.AppendKeepsLog` | sdf_core/agent_messaging.py:112-229 | an accepted message keeps every fact about the log |
| `MessageReads.PageAdvances` | sdf_core/core_mcp.py:293-299 | a non-empty page moves on and has told everything visible up to its last number |
| `MessageReads.PageSizeIs` | sdf_core/core_mcp.py:293-299 | a page is the beginning of what is visible after the number asked from, as long as the limit, which is 50 unless asked and between 1 and 100 |
| `MessageReads.ReadsTellAll` | sdf_core/core_mcp.py:293-299 | reading on until a page is empty, while messages arrive, spells out exactly what the viewer may see of the final log |
| `MessageReads.ReadFromTheStart` | sdf_core/core_mcp.py:293-299 | so does reading from the first message |
| `TaskTrace.Visit` | sdf_core/api.py:724-738 | one popped endpoint: its edges recorded once, its unseen neighbours queued once |
| `TaskTrace.GetTaskTrace` | sdf_core/api.py:713-739 | exactly the stored nodes reachable from the Task in either direction and exactly the edges among them, each once; the search ends |
| `TaskTrace.ClosedIsReachable` | sdf_core/api.py:720-738 | a closed set of reachable endpoints is the whole component |
| `FailureLimiters.FailureLimiter.Failure` | sdf_core/auth.py:271-282 | the client is locked exactly when its failures in the window, over its full history since the last clearing, reach the limit; a full table evicts its oldest client, never this one |
| `FailureLimiters.FailureLimiter.RetryAfter` | sdf_core/auth.py:262-269 | positive exactly while the last lock since a reset has not run out, in whole seconds and at least one |
| `FailureLimiters.FailureLimiter.ResetAll` | sdf_core/auth.py:284-287 | everything is forgotten |
| `FailureLimiters.DropOld` | sdf_core/auth.py:276-277 | popping from the left is filtering, for times in order |
| `FailureLimiters.WindowStep` | sdf_core/auth.py:274-277 | the window of a longer history needs only the window of the shorter |
| `Checks.PythonInvocation` | sdf_core/checks.py:215-243 | accepted exactly by the flag grammar, split the only way the grammar allows, and rebuilt exactly |
| `Checks.ParseIff` | sdf_core/checks.py:215-243 | the parser accepts a split exactly when the grammar derives it |
| `Checks.PytestTargets` | sdf_core/checks.py:153-192 | the option loop computes exactly the targets that `Checks.TargetsIff` describes |
| `Checks.TargetsIff` | sdf_core/checks.py:153-192 | targets are those of the pytest option grammar, in order; refused exactly without a spelling, without a file, or with net quiet of 2 or more |
| `CheckWords.ItemIs` | sdf_core/checks.py:125-133 | the pytest items that are allowed, word by word |
| `CheckWords.QuietIs` | sdf_core/checks.py:178-178 | what each option adds to or takes from quietness |
| `CheckWords.ExplicitIs` | sdf_core/checks.py:181-184 | a target is explicit exactly if what stands before its first `::` ends in `.py`, holds no wildcard and no parent directory |
| `CheckWords.ValidatedIs` | sdf_core/checks.py:99-122 | the accepted checks, written out: ruff; pytest with items that name a file and stay below net quiet 2; python with its flags and a command, a module or a script in no parent directory |
| `CheckWords.OthersHardened` | sdf_core/evaluator.py:200-229 | how bare pytest and ruff run: with their fixed isolation options in front |
| `CheckWords.StrangersStay` | sdf_core/evaluator.py:200-229 | an argv of any other executable is left as it is |
| `Checks.ValidatedPytestIsExplicit` | sdf_core/checks.py:99-122 | every accepted pytest check, in either spelling, names an explicit test file and has net quiet below 2 |
| `Checks.HardenedPythonRunsTheCheck` | sdf_core/evaluator.py:92-98 | the interpreter and the bootstrap split a hardened argv back into the check's mode, target and arguments, with only the fixed pytest options added in front |
| `Checks.BarePytestRunsAsModule` | sdf_core/evaluator.py:200-229 | a bare pytest check runs like `python -m pytest` with the same arguments |
| `Checks.ValidatedHardens` | sdf_core/evaluator.py:200-229 | whatever validation accepts can be hardened |
| `ScopedApply.ApplyScoped` | sdf_core/coordinator.py:1075-1110 | for every path the collected content if in scope and not bytecode, else the fixture's; the two lists are sorted and are exactly the differing paths in and out of scope |
| `ScopedApply.WithinIsComponents` | sdf_core/coordinator.py:1065-1066 | the prefix test is a test on whole path components |
| `ScopedApply.RulesAre` | sdf_core/coordinator.py:1048-1106 | in scope is what lies in no protected path and, if any are allowed, in an allowed one, component by component; caches and `.pyc` files are bytecode; the held-out tree is no part of the fixture |
| `ScopedApply.ApplyingAgainIsStable` | sdf_core/coordinator.py:1075-1110 | applying the result again changes nothing |
| `Paths.SplitConcat` | sdf_core/coordinator.py:1065-1066 | splitting distributes over a slash |

## Left out

- Sandboxes, agent runtimes, provider transports and containment: a turn, an outbox and a check run are inputs of the model.
- Sandbox keep-alive during a material hold: one input says whether a sandbox is about to expire.
- Cost accounting: one input says whether the cost cap is exceeded.
- The hold log, violation lists, turn logs, tracing and run summaries: records that nothing decides on.
- Exceptions inside a poll other than those of a verification: the loop's catch-all ends such a run as failed.
- Read-only agent queries between polls (phase 2b) and the decision policy's own rules.
- Coordinators.Coordinator.Execute: agents and subtasks are values in sequence fields rather than objects, so aliasing between the two dictionaries and the pool's futures is not modelled; a message in flight is its recipient.
- Coordinators.Coordinator.constructor: provisioning the sandboxes and beginning the first Attempts before the loop are not modelled.
- RunProperties.FinalizeAgrees: what a cancelled Attempt does to its rows is `Execution.Executions.Cancel`; the run row and its summary are not modelled.
- Acceptance of Outcome Evidence, content MACs, scorecards and retry-parent checks.
- Evaluation.Evaluate: how one check runs (sealing, the result frame, timeouts) is an input; notes, confidence and output texts are not modelled.
- Execution.Executions.Finish: one call is atomic but for recovery settling its Attempt in the middle; artifacts, graph nodes and validation edges are not modelled.
- Execution.Executions.BeginAttempt: the dispatch key is `Dispatch`, the plan gate `Plans` and the decision gate `DecisionGate`; usage numbers, tiers and retry parents are not modelled.
- Execution.Executions.Recover: leases, heartbeats and remote effects decide which Attempts are orphans; that one is, is an input.
- RunEvidence.SucceededRunIsAccepted: that verdicts are evaluations on the ledger is its premise `Backed`, which `RunHosts.Host.PollOnce` establishes.
- RunHosts.Host.PollOnce: while a poll runs only its own verifications move the ledger; others move it between polls (`RunHosts.Host.CatchUp`). What a sandbox's collected tree comes to is an input, and ids of retries are fresh by assumption.
- Events: the time of an event is one number, so time zones of timestamps are not modelled; category checks other than the tool prefix.
- Cursor.DecodeEncode: the decoder's JSON is the compact two-field object and its timestamps are ISO forms as written; other spellings that Python also accepts are refused by the model. Base64 is read as leniently as Python reads it.
- Paging.WalkIsListing: the database's comparison of timestamps is that of their fields, one offset per table; SQL itself is a filtered, sorted list.
- Inbox.InboxExactlyOnce: plan rows keep their proposer and fold, as the flush guards require; the pinned Unicode case fold is a parameter; on actor names it is ASCII lower case.
- Plans.PlanStore.ProposePlan: objectives, graph nodes and edges, titles and the content schema; uuids are fresh by assumption.
- PlanGuards.GuardsKeepGate: the PostgreSQL triggers that repeat the guards; inserted rows are unconstrained except Attempts and runs, and an Attempt keeps its Task.
- Dispatch.SameKeySameAttempt: the transaction is read, insert, commit or abort, and re-read; refusals in between are one step; the workspace created after the commit is not modelled.
- DispatchKey.DerivedKeyIff: canonical JSON and SHA-256 are one injective function.
- MessageHub.Hub.Ingest: sanitizing, materiality rules and option limits are inputs; recipient names are lower-cased in ASCII; the Attempt a message belongs to is not stored.
- MessageReads.ReadsTellAll: query caps and message bodies.
- TaskTrace.GetTaskTrace: Evidence, Attempts and events that the endpoint adds to the trace.
- FailureLimiters.FailureLimiter.Failure: times are exact, calls are serial as under the lock, and the clock does not run backwards.
- Checks.PytestTargets: `\d` is an ASCII digit.
- Checks.HardenedPythonRunsTheCheck: what the bootstrap does after splitting its arguments.
- ScopedApply.ApplyScoped: symbolic links, empty directories, and a path that is a file in one tree and a directory in the other.
- Leases, remote effects, revisions, evidence authentication, escalation, the HTTP layer and the command line.
