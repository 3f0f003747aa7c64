# APEX Stream: verified models of the control logic

A Dafny 4.11 model of six parts of the APEX Stream repository and proofs of what
they promise. `dafny verify dfyconfig.toml` checks all of it.

1. **Workflow engine.** `Workflow`, `GraphSearch`, `CycleSearch`, `TopologicalOrder`
   and `Validation` model the validator: the three graph algorithms as the loops they
   are, each proved against walks in the graph. `Executor` models the work-queue
   interpreter, `NodeEffects` what its nodes do, `Unfolding` its recursive meaning,
   `RunSafety` what every run keeps, `RunOrder` in which order frames are taken and why a
   run ends, `DryRun` the simulation of real runs by dry runs, `Branching` how items are
   routed.
   Together: an accepted workflow has a well-founded recursive meaning and the queue
   loop computes exactly it.
2. **Audit ledger.** `JsonText` prints JSON (RFC 8259, sections 2 to 7), `JsonReading`
   reads it back, `Canonical` is the sorted-key printer, `AuditChain` the hash chain and its verifier, `AuditWriter`
   concurrent appends statement by statement and the trip through the database.
   SHA-256 is a parameter, collision-free where a lemma says so.
3. **Task queue.** `TaskQueue` is the lease protocol over whole runs of statements and
   clock ticks by any clients; `AgentRuns` puts any number of `runTask` workers on one
   table, each stopping at every `await`, with calls that fail before or after they took
   effect; `Recovery` takes rows up again after crashes and `Attempts` counts how often;
   `AgentLoop` is the code of `runTask` and of the receive loop.
4. **Scoring.** `Rounding`, `Normalizers` and `Scoring` model the score over the reals
   with both rounding stages, `ScoreLimits` when it stays within 100, `ScoreMeaning` what
   the single numbers stand for, `ScoreHash` what the input hash settles.
5. **Agent memory.** `Memory` relates the incremental baseline to the replayed history
   and the escaped LIKE search to prefixes; `BaselineRace` interleaves updates of one
   baseline.
6. **Beast runs and fingerprints.** `Beast` interleaves the handlers one SQL statement
   at a time, `BeastWarnings` follows the 80% event through them and `BeastEndings` how runs
   end; `MinHash` models the signature loops and their text form.

What the repository changes in place is a class or an array here, and its loops are
loops; each method is proved against a function or a statement about its result, and
the lemmas are about those. Effects, clocks, hashes, random ids and the choices of the
database are parameters.

Where the code and its own text disagree, the model follows the code:

- A rejection by `verifyChain` gives as `entriesChecked` the sequence number of the
  broken entry (ledger.ts:146), which counts rows that are missing (`MissingRowIsCounted`);
  `VerifyChain` says exactly when it is the number of good entries.
- A branch whose default label is empty sends the unmatched items along every edge,
  because an empty label filters nothing (executor.ts:160); `UnmatchedGoesEverywhere`
  has the exact condition.
- An audit detail that holds a date, or a function as a property, is hashed as one
  value and stored as another, so the reloaded log is rejected (`DatedLogIsRejected`);
  `ReloadedLogVerifies` has the exact condition. No caller in the repository puts
  either in a detail today.
- The shipped profile scores 100.01 when only velocity_burst, watchlist_match and
  sentiment_shift are measured, each at its maximum (`ScoreCanExceed100`), although the
  score is described as 0..100 and its column has CHECK (score BETWEEN 0 AND 100)
  (db/migrations/001_initial_schema.sql:92); `ScoreStaysWithin100` has the exact
  condition.
- "Same hash must always yield the same score" (engine.ts:56) does not hold: the hash
  covers neither the parameters of the normalizers nor the sample sizes they need
  (`SameHashedTextOtherScore`). `HashedTextShows` has exactly what it covers, and
  `HashSettlesScoreExactlyWhen` exactly when it settles the score: when the profiles
  look different to it, or need the same samples and normalize alike after rounding.
  The machine's numbers and their texts are a parameter; `GridIsFaithful` gives one that
  includes every double, and `HashLeavesScoreOpen` meets all the conditions at once.
- The 80% event can be published twice for one run: in exact arithmetic when rounding
  drops part of a cost (`SmallCostsWarnTwice`), when a cost is negative
  (`NegativeCostsWarnTwice`), and on whole cents because the guard computes in doubles:
  budget 1, costs 0.75, 0.05, 0.05, where 0.85 - 0.05 is 0.7999999999999999
  (`DoublesWarnTwice`). It can also never be published: in exact arithmetic when
  rounding lifts a total to the mark (`RoundingHidesTheMark`), and on whole cents in
  doubles: budget 3, costs 2.40 and 0.01, where 3 * 0.8 and 2.41 - 0.01 are both
  2.4000000000000004 (`DoublesMissTheMark`). The exact conditions, for any arithmetic and
  any costs: `WarnsOnceExactlyWhenNothingRepeats`, `NoWarningIsMissed` and, for both at
  once, `WarnedExactlyWhenNothingErrs`.
- A task can be handled more than maxAttempts times: the count is looked at only after a
  failure that the worker survives. What bounds crashes is the task's life: by clocks that
  agree, a task whose workers only crash is handled n times in some history if and only if
  it outlives n - 1 leases (`CrashesEscapeExactlyWhen`), so with 900 seconds under
  leases of 300 at most a fourth time. `DeliveriesAddUp` accounts for every delivery:
  without lapsed leases maxAttempts does hold (`OnlyLapsesEscapeMaxAttempts`).
- scoreIfMaximal can lie below the score that is shown, by the rounding of the latter
  (`MaximalBelowShown`, `MaximalAgainstShown`).
- Two updates of one baseline that overlap lose a sample (`UpdateCanBeLost`);
  `StoredSummarisesExactlyWhen` has the exact condition.
- A configured budget ceiling of zero or less, which the configuration allows, gives
  runs that are spent when they start and that nobody halts (`SpentAtStart`);
  `CeilingHoldsExactlyWhen` has the exact condition.

## Model

| member | source | states |
|---|---|---|
| GraphSearch.BuildAdjacency | packages/workflow-engine/src/validate.ts:169-176 | Exactly the declared nodes have an entry, and each lists the targets of its edges in the order of the edges; edges from unknown nodes are dropped. |
| Workflows.TargetsInOrder | packages/workflow-engine/src/validate.ts:169-176 | The targets listed for a node are those of exactly its outgoing edges, in the order of the edges. |
| GraphSearch.ReachableFrom | packages/workflow-engine/src/validate.ts:152-167 | The stack search ends and returns exactly the nodes that some walk from the start reaches, the start included. |
| CycleSearch.FindCycle | packages/workflow-engine/src/validate.ts:179-219 | A returned list is a closed walk over real edges that repeats no node but its ends; null is returned if and only if the graph has no closed walk at all, and then the nodes can be numbered so that every edge goes down. |
| CycleSearch.TraceBack | packages/workflow-engine/src/validate.ts:202-208 | Following the parents from the top frame yields exactly the part of the stack from the node met again up to the top, and ends. |
| TopologicalOrder.TopologicalOrder | packages/workflow-engine/src/validate.ts:222-244 | Listed nodes are declared, listed once, and every edge between two of them points forward, on every graph; without dangling edges and with distinct ids all nodes are listed if and only if there is no closed walk, that is, when findCycle returns null. |
| Workflows.AcyclicHasRanks | packages/workflow-engine/src/validate.ts:179-219 | A graph without closed walks has a numbering that goes down along every edge, so recursion over it is well-founded. |
| Workflows.TrapHoldsACycle | packages/workflow-engine/src/validate.ts:222-244 | A non-empty set of nodes in which each has a predecessor in the set holds a closed walk: what Kahn's order leaves over is on or behind a loop. |
| Validation.ValidateWorkflow | packages/workflow-engine/src/validate.ts:40-149 | The issues are exactly those warranted by the workflow, each code with its node or edge: duplicate ids, missing or several or incomplete triggers, dangling and self-looping edges, unlabelled and unknown branch edges, loops, and the six warnings; a workflow is valid if and only if none of them is an error, which is if and only if it is publishable. |
| Validation.AcceptanceIsPublishable | packages/workflow-engine/src/validate.ts:40-149 | None of the warranted issues is an error if and only if ids are distinct, there is one complete trigger, no edge dangles or loops on its node, branch edges carry known labels and there is no closed walk. |
| Validation.PublishableExactlyWhen | packages/workflow-engine/src/validate.ts:40-149 | In full: ids differ, exactly one node is a trigger, scheduled and event triggers say when, every edge joins two different nodes there are, edges out of a branch carry the label of one of its cases or the default, and there is no closed walk. |
| Validation.DistinctByCount | packages/workflow-engine/src/validate.ts:42-46 | Comparing the number of distinct ids with the number of nodes detects a repeated id, both ways. |
| Validation.PublishableHasRanks | packages/workflow-engine/src/validate.ts:110-118 | A workflow that passes validation has a well-founded meaning. |
| Executor.RunBranch | packages/workflow-engine/src/executor.ts:240-254 | The bucket map, read in insertion order, is the specified list of buckets; Branching says by index what that is. |
| Executor.RunAction | packages/workflow-engine/src/executor.ts:256-312 | The loop of the acting nodes makes the specified calls and has the specified outcome; NodeEffects says what those are. |
| NodeEffects.ActingFailsExactlyWhen | packages/workflow-engine/src/executor.ts:256-312 | The outcome is an error if and only if some item is the first whose effect fails, with that error; it succeeds if and only if every effect does. |
| NodeEffects.ActingStopsAtFirstFailure | packages/workflow-engine/src/executor.ts:256-312 | The calls made are those for the items up to and including the first that fails, in order. |
| NodeEffects.ActingSucceedsThroughout | packages/workflow-engine/src/executor.ts:256-312 | Without a failure there is one call per item, in order. |
| NodeEffects.CostsAdd | packages/workflow-engine/src/executor.ts:260-274 | Costs add up over the items. |
| Executor.RunScore | packages/workflow-engine/src/executor.ts:221-238 | The scoring loop gives the specified items and anomalies; NodeEffects says what those are. |
| NodeEffects.ScoresThroughout | packages/workflow-engine/src/executor.ts:223-231 | When all items can be scored the output is their scored forms, one by one and in order. |
| NodeEffects.ScoringStopsAtFirstFailure | packages/workflow-engine/src/executor.ts:223-231 | The first item that cannot be scored gives the error, and the anomalies are those found before it. |
| NodeEffects.AnomaliesAreTheAnomalous | packages/workflow-engine/src/executor.ts:230 | An item is recorded as an anomaly if and only if its band is above info and all items before it could be scored. |
| NodeEffects.AnomaliesAreFiltered | packages/workflow-engine/src/executor.ts:230 | When all items can be scored the anomalies are the anomalous items, in their order and each as often as it occurs. |
| NodeEffects.FilterKeepsThePassing | packages/workflow-engine/src/executor.ts:212-219 | A filter keeps exactly the items that pass all its conditions, in order and each as often as it comes. |
| NodeEffects.WhatLeavesANode | packages/workflow-engine/src/executor.ts:196-339 | What leaves a node by its kind: triggers, delays and acting nodes pass on what they got, a filter the passing items, a transformation one item for each, a source what was fetched, a score node the scored items. |
| NodeEffects.OnlyActingTouches | packages/workflow-engine/src/executor.ts:196-339 | Only acting nodes that are not in a dry run call the outside, only agent tasks cost, only score nodes record anomalies, and a node is skipped if and only if it acts and the run is dry. |
| NodeEffects.ActingOnOne | packages/workflow-engine/src/executor.ts:256-312 | On one item an agent task makes one dispatch and costs what that costs; archiving and notifying make one call and cost nothing. |
| Executor.Enqueue | packages/workflow-engine/src/executor.ts:157-162 | The nested loops append the specified frames to the queue; NodeEffects says what those are. |
| NodeEffects.EmitAllIsExact | packages/workflow-engine/src/executor.ts:157-162 | A frame is sent on if and only if a non-empty branch and an edge out of the node that the label of the branch selects give it. |
| NodeEffects.EmitCounts | packages/workflow-engine/src/executor.ts:159-161 | A branch sends one frame for each edge that it selects. |
| NodeEffects.EmitInOrder | packages/workflow-engine/src/executor.ts:159-161 | A branch sends its items along exactly the edges out of the node that carry its label, or all when it has none or the empty one, in the order of the edges. |
| NodeEffects.BranchAfterBranch | packages/workflow-engine/src/executor.ts:157-162 | The frames of two lists of branches are those of the first, then those of the second. |
| NodeEffects.OneBranch | packages/workflow-engine/src/executor.ts:157-162 | A branch without items sends nothing, any other its frames. |
| Executor.ExecuteWorkflow | packages/workflow-engine/src/executor.ts:76-185 | The queue loop ends on every workflow, cyclic or not, and its status, steps, cost, anomalies and outside calls are those of the specified run. |
| Branching.BranchSplitsItems | packages/workflow-engine/src/executor.ts:240-254 | A branch node loses and duplicates no item; its buckets are non-empty and differently labelled. |
| Branching.LabelIsThatOfTheFirstCase | packages/workflow-engine/src/executor.ts:243-244 | If the k-th case holds for an item and no earlier one does, its label is that of the k-th case; if none holds, it is the default; one of the two is so. |
| Branching.BranchSplitsByFirstCase | packages/workflow-engine/src/executor.ts:240-254 | Each bucket holds exactly the items whose first matching case carries its label, or that no case matches if that is the default, in their order; buckets come in the order in which items first need them. |
| Branching.RoutedByLabel | packages/workflow-engine/src/executor.ts:157-162 | An item whose first matching case is the k-th takes an edge if and only if the edge carries the label of that case; one that no case matches takes those with the default label, and every edge when that is empty. |
| Branching.UnmatchedGoesEverywhere | packages/workflow-engine/src/executor.ts:157-162 | An item takes every edge, labelled or not, if and only if no case matches it and the default label is empty. |
| Unfolding.UnfoldsIntoChildren | packages/workflow-engine/src/executor.ts:157-162 | The recursive meaning of a frame is the frame itself and the meanings of the frames its node sends on. |
| Unfolding.UnfoldIsUnique | packages/workflow-engine/src/executor.ts:104-163 | That meaning does not depend on the numbering used to define it. |
| Unfolding.RunConserves | packages/workflow-engine/src/executor.ts:104-163 | From any state of the loop, frames run and frames still owed by the queue add up to the same multiset at the end as at the start. |
| Unfolding.RunComputesUnfolding | packages/workflow-engine/src/executor.ts:102-163 | A completed run executes exactly the multiset of frames of the recursive unfolding from the trigger; a run that was stopped executes part of it and its queue owes exactly the rest. |
| Unfolding.LimitsOnlyTruncate | packages/workflow-engine/src/executor.ts:104-116 | Of two runs of the same work under different limits and clocks one executes a prefix of the other's frames, and a run that came to its own end is never the shorter one. |
| RunSafety.ExecutionIsSafe | packages/workflow-engine/src/executor.ts:104-163 | On every stored workflow: steps equal nodes executed and stay within the limit, the cost is the sum over the frames run, every executed node is reachable from the trigger, and each started with no more than the cost budget spent. |
| RunSafety.EnoughBudgetCompletes | packages/workflow-engine/src/executor.ts:104-165 | With node budget for the unfolding, time, and effects that succeed, a run without dangling edges completes having run exactly the unfolding, unless its cost stops it. |
| RunSafety.AcceptedWorkflowRunsItsMeaning | packages/workflow-engine/src/executor.ts:97-165 | Every workflow that validation accepts has a well-founded recursive meaning; any run executes part of it and owes exactly the rest, and a run with succeeding effects, time and node budget executes exactly it unless cost stops it. |
| RunOrder.FirstComeFirstRun | packages/workflow-engine/src/executor.ts:102-163 | The frames taken are the root and then the frames that each node sent on, in the order in which they were sent, each taken before time was up; those for known nodes were run, and the rest of them is the queue. |
| RunOrder.StartsAtFirstTrigger | packages/workflow-engine/src/executor.ts:97-100 | The root is the first trigger listed; without one the run fails. |
| RunOrder.LastNamedRuns | packages/workflow-engine/src/executor.ts:93-121 | Of nodes with the same id the last one listed is the one that runs. |
| RunOrder.EffectsAddUp | packages/workflow-engine/src/executor.ts:123-155 | The outside calls and anomalies of a run are those of the frames it ran, one after the other. |
| RunOrder.StepTells | packages/workflow-engine/src/executor.ts:125-155 | A step tells the node, how many items went in and came out, and whether it failed or was skipped. |
| RunOrder.ExecutionEndsForItsReason | packages/workflow-engine/src/executor.ts:104-165 | A completed run has an empty queue; a halted one has a full one and has reached the limit it names, looked at in the order nodes, time, cost; a failed one failed at its last frame, and no earlier frame failed. |
| DryRun.DryRunTouchesNothing | packages/workflow-engine/src/executor.ts:256-312 | A dry run makes no dispatch, archive or notify call, accrues no cost and is never stopped by cost. |
| DryRun.DryRunForetellsRealRun | packages/workflow-engine/src/executor.ts:104-163 | With the same reads, writes that succeed and clocks that agree on when time is up, the real run's frames, item counts and anomalies are a prefix of the dry run's, and equal with the same status unless cost stops the real one. |
| JsonText.PrintIsInjective | packages/core/src/audit/ledger.ts:79-88 | Two JSON values with the same text are the same value, at every nesting depth. |
| JsonText.PrintIsPrefixFree | packages/core/src/audit/ledger.ts:79-88 | A value's text, followed by anything that may follow a value, determines the value and what follows. |
| Canonical.CanonicalIsPrintedNormal | packages/core/src/audit/ledger.ts:79-88 | The canonical text is the sorted-key JSON text of the normal form: key order gone, undefined dropped from objects and null elsewhere, non-finite numbers null. |
| Canonical.CanonicalizeIsInjectiveOnNormalForms | packages/core/src/audit/ledger.ts:79-88 | Two values have the same canonical text if and only if they have the same normal form. |
| Canonical.KeyOrderIsIgnored | packages/core/src/audit/ledger.ts:83-86 | Listing the same properties in another order does not change the normal form. |
| Canonical.StoredAsHashed | services/orchestrator/src/db.ts:68 | What JSON.stringify stores is what was hashed if and only if the value holds no date and no function as a property. |
| JsonReading.CanonicalReadsBack | packages/core/src/audit/ledger.ts:79-88 | Reading the canonical text as RFC 8259 reads it gives the normal form, and nothing is left over. |
| JsonReading.PrintReadsBack | packages/core/src/audit/ledger.ts:79-88 | So does reading any printed value at the front of a longer text, with what follows left over. |
| JsonReading.KeysByUnits | packages/core/src/audit/ledger.ts:85 | Keys are sorted by their first different UTF-16 code units, which is how JavaScript compares strings. |
| JsonReading.IntTextReadsBack | packages/core/src/audit/ledger.ts:97 | Integers print in base ten, with a minus sign if and only if they are negative. |
| JsonReading.HashedByName | packages/core/src/audit/ledger.ts:95-107 | The hashed object has each of the eleven fields of the entry under its own name. |
| AuditChain.HashedTextDecidesFields | packages/core/src/audit/ledger.ts:90-110 | The hashed texts of two entries are equal if and only if the entries agree on every hashed field. |
| AuditChain.VerifyChain | packages/core/src/audit/ledger.ts:138-173 | Accepts if and only if every link, sequence step and content hash checks; on rejection the entries before the reported one form a valid chain and the reported one breaks it for exactly the reported reason; in a log that starts at 0 the count in a rejection is the number of good entries if and only if the reason is not a gap. |
| AuditChain.MissingRowIsCounted | packages/core/src/audit/ledger.ts:143-150 | A log of three entries without its second is rejected at its second entry with a count of 2. |
| AuditChain.HeadHashCommitsToChain | packages/core/src/audit/ledger.ts:90-173 | With a collision-free hash, two non-empty valid chains that end in the same hash have the same length and agree entry by entry on every hashed field. |
| AuditWriter.StepKeepsInv | services/orchestrator/src/db.ts:41-79 | Each single statement of each transaction keeps the log a gap-free chain and every session's view of the head right. |
| AuditWriter.EveryRunKeepsChain | services/orchestrator/src/db.ts:41-79 | In every state of every interleaving of appends, roll-backs included, the table is numbered from 0 without a gap, holds what was committed in that order, and each entry names its predecessor. |
| AuditWriter.ReloadedLogVerifies | services/orchestrator/src/db.ts:81-107 | A log read back with its keys in any order is accepted by verifyChain if and only if every detail in it is plain. |
| AuditWriter.ColumnsSurvive | services/orchestrator/src/db.ts:56-107 | An entry read back has every column that was stored, IP address and user agent included. |
| AuditWriter.EveryRangeVerifies | services/orchestrator/src/db.ts:81-107 | At any point of any interleaving, any first part of the log read back is accepted if and only if the details in it are plain. |
| AuditWriter.DatedLogIsRejected | services/orchestrator/src/db.ts:68-107 | A valid log whose only detail holds a date is rejected when it is read back with the text that was stored. |
| AuditWriter.AuditDatabase.Append | services/orchestrator/src/db.ts:41-79 | An append on its own adds exactly one row, for the given input, that continues the chain. |
| TaskQueue.RowsTellTheirHistory | packages/agent-runtime/src/bus.ts:34-107 | In every reachable state the row of a sent task is present, or was deleted by an ack bearing the token of its latest claim; its token, receive count and visibility time are those its history of claims, nacks and heartbeats gives. |
| TaskQueue.ClaimWaitsForLeaseEnd | packages/agent-runtime/src/bus.ts:50-56 | No row is claimed before the end of the lease that its history gave it. |
| TaskQueue.EndedLeaseCanBeClaimed | packages/agent-runtime/src/bus.ts:45-56 | Whatever became of its holders, a row that is present can be claimed by its agent if and only if the lease that its history gave it has ended. |
| TaskQueue.NoEarlyReclaim | packages/agent-runtime/src/bus.ts:45-56 | Between two claims of a row at least the timeout of the first passes, unless its holder returned it or moved its lease. |
| TaskQueue.LeaseMovesOnlyUnderTheToken | packages/agent-runtime/src/bus.ts:80-98 | A row's visibility time changes only by a claim or under the token of its latest claim. |
| TaskQueue.SupersededTokenIsPowerless | packages/agent-runtime/src/bus.ts:74-98 | Once a row has been claimed again, an ack, nack or heartbeat with an earlier token changes nothing, at any later time. |
| TaskQueue.DeletedStaysDeleted | packages/agent-runtime/src/bus.ts:74-77 | A row that is gone never comes back. |
| TaskQueue.ReceiptRoundTrip | packages/agent-runtime/src/bus.ts:11-15 | A receipt handle splits back into its row id and token if and only if the row id holds no colon. |
| TaskQueue.TaskTable.Receive | packages/agent-runtime/src/bus.ts:34-72 | With other clients acting and locking rows before every poll: the long poll ends, every poll but the last met no row of this agent that was visible and unlocked, and the last claimed as many of those it met as the limit of at most ten allows, each under a token never drawn before and with all other rows unchanged; an empty batch means that the last met none either and the deadline has passed. |
| TaskQueue.TaskTable.Nack | packages/agent-runtime/src/bus.ts:80-88 | Only under the row's token does it become pending and invisible for the backoff, and it keeps its token; nothing else changes. BackoffDoubles says how long that is. |
| TaskQueue.BackoffDoubles | packages/agent-runtime/src/bus.ts:82 | The backoff is a second at attempt 0, twice as long at each attempt up to the ninth, and 512 seconds from there on, so the cap of 900 is never reached. |
| TaskQueue.ReturnedRowComesBack | packages/agent-runtime/src/bus.ts:80-88 | A row returned at some attempt that nobody touches can be claimed again if and only if the backoff for that attempt has passed. |
| TaskQueue.TakesWhatIsVisible | packages/agent-runtime/src/bus.ts:50-57 | A batch holds only visible, unlocked rows of the agent, and one below the limit holds all of them. |
| TaskQueue.LimitIsNearest | packages/agent-runtime/src/bus.ts:36 | The limit is the number from 1 to 10 that is nearest to the one asked for. |
| TaskQueue.NapIsNearest | packages/agent-runtime/src/bus.ts:70 | Between polls passes the rest of the wait, or what is nearest to it from 0.2 to 1 seconds. |
| AgentRuns.OutcomesAgreeWithTheQueue | packages/agent-runtime/src/agent.ts:173-230 | In every state of every history of any number of workers, with calls that fail before or after taking effect and crashes: succeeded, failed and expired runs have their row deleted or claimed again, a retry has it deleted, claimed again or pending, and the wrong-agent branch is never reached. |
| AgentRuns.RetriesArePutOff | packages/agent-runtime/src/agent.ts:217-221 | When a run ends in a retry, a row it still holds is pending and becomes visible only after the backoff for its receive count. |
| AgentRuns.KeepAliveLasts | packages/agent-runtime/src/bus.ts:91-98 | A keep-alive gives a row that is still held another 300 seconds and touches no other row. |
| AgentRuns.LostLeaseStaysLost | packages/agent-runtime/src/bus.ts:74-107 | A worker whose row was deleted or claimed again never holds it again. |
| AgentRuns.FailureReturnsStayBelowMaxAttempts | packages/agent-runtime/src/agent.ts:217-221 | Over any history, however often it is delivered and whoever crashes, a row is effectively returned after a failure at most maxAttempts - 1 times. |
| Recovery.EveryRowCanBeTakenUpAgain | packages/agent-runtime/src/bus.ts:34-72 | After any history, crashes included, a row that has not been deleted needs only time before its agent can claim it and start a run of it with the next receive count. |
| Attempts.DeliveriesAddUp | packages/agent-runtime/src/agent.ts:173-230 | In every state of every history the receive count of a row is the number of its effective returns after a failure plus the number of its lapsed leases, plus one while it is in flight. |
| Attempts.OnlyLapsesEscapeMaxAttempts | packages/agent-runtime/src/agent.ts:173-230 | The receive count of a worker is at most max(1, maxAttempts) plus the number of lapsed leases of its row; so it keeps to the limit when every redelivery meets a pending row. |
| Attempts.HandlingsAreBounded | packages/agent-runtime/src/agent.ts:182-191 | By clocks that are not behind the table's, a task that is being handled has outlived all its lapsed leases, so that life bounds how often it is handled. |
| Attempts.CrashesEscapeMaxAttempts | packages/agent-runtime/src/agent.ts:173-230 | A task that outlives n - 1 leases has a history of crashes at the end of which it is handled for the n-th time, by a clock that agrees with the table's, whatever its maxAttempts. |
| Attempts.CrashesEscapeExactlyWhen | packages/agent-runtime/src/agent.ts:116-191 | There is such a history, in which nothing is returned after a failure, if and only if the task outlives n - 1 leases, for leases up to the 300 seconds of the code. |
| AgentRuns.HistoryIsQueueRun | packages/agent-runtime/src/agent.ts:155-162 | Seen from the table, every history of workers is a run of the queue, so the lease guarantees hold for it. |
| AgentLoop.DriveEndsRight | packages/agent-runtime/src/agent.ts:173-230 | However the calls of one run end and whatever others do under other tokens in between, the outcome it reports is true of the table at that moment. |
| AgentLoop.Agent.RunTask | packages/agent-runtime/src/agent.ts:173-230 | The outcome by the task, the clock and the calls: succeeded iff the task is this agent's and not expired and handling, acknowledging and reporting return; expired iff it is past its deadline and is acknowledged and reported; retry iff it is another agent's and is returned, or its first error is retryable, attempts are left and it is returned; failed iff its first error is any other and it is acknowledged and reported; else it throws. Outcome and table are the machine's, and under a good lease true of the table. |
| AgentLoop.NeverOverCommitted | packages/agent-runtime/src/agent.ts:108-133 | After every turn of the receive loop the tasks that are running number at most the agent's concurrency. |
| AgentLoop.TurnTells | packages/agent-runtime/src/agent.ts:108-133 | A turn with room takes the whole reply up to the room and to ten, one without room nothing; tasks that ended are gone and the others run on; the agent is idle if and only if none is left, throttled without room, degraded after an error. |
| AgentLoop.Agent.Start | packages/agent-runtime/src/agent.ts:93-135 | The loop goes through the specified turns, and its counter is the number of tasks started and not ended; after no turn was that above the concurrency. |
| AgentLoop.Agent.constructor | packages/agent-runtime/src/agent.ts:73-83 | A configured concurrency lowers the registry ceiling and never raises it. |
| Normalizers.NormalizersAreMonotone | packages/core/src/scoring/normalizers.ts:14-71 | A normalizer never runs against the direction it shows: a line by its ends, an inverse opposite to what it inverts. |
| Normalizers.Normalize | packages/core/src/scoring/normalizers.ts:14-71 | Every normalizer that its maker accepts stays within 0 and 1. |
| Normalizers.MakeLinear | packages/core/src/scoring/normalizers.ts:17-24 | A line is refused if and only if its ends coincide; otherwise it maps the first end to 0 and the second to 1. |
| Normalizers.LineIsStraight | packages/core/src/scoring/normalizers.ts:17-24 | The point at the fraction t of the way between the ends of a line maps to t, and is pinned to 0 and 1 outside. |
| Normalizers.OthersAreWhatTheySay | packages/core/src/scoring/normalizers.ts:31-71 | Ratios and curves are passed on within 0 and 1 and pinned outside, a step is 1 from its mark on, an inverse is one minus what it inverts. |
| Normalizers.KindTellsShape | packages/core/src/scoring/normalizers.ts:17-71 | Kinds are equal if and only if the normalizers have the same shape. |
| Scoring.ScoreObservation | packages/core/src/scoring/engine.ts:101-146 | The components are the evaluations of the latest observations under renormalised weights, the score is the sum of the contributions shown, the band is the score's, and each included signal has its two counterfactuals. |
| Scoring.ScoreIsSumOfContributions | packages/core/src/scoring/engine.ts:116-124 | The final rounding changes nothing: the score equals the sum of the rounded contributions. |
| Scoring.ScoreIsClose | packages/core/src/scoring/engine.ts:108-124 | With n included signals of positive total weight the score is within 0.01 n of the exact weighted mean times 100. |
| Scoring.ScoreHardlyExceeds100 | packages/core/src/scoring/engine.ts:108-124 | With weights that are not negative the score is at most 100 + 0.01 n. |
| ScoreLimits.ScoreStaysWithin100 | packages/core/src/scoring/engine.ts:101-124 | Signals that can reach their maximum score at most 100 for all observations if and only if, whichever of them count, their rounded effective weights add up to at most one. |
| ScoreLimits.PeakScore | packages/core/src/scoring/engine.ts:115-124 | No observation scores more than the rounded weights of the signals that count, and the same observations with every measurement at its peak score exactly that. |
| ScoreLimits.SharesAreThoseOfSets | packages/core/src/scoring/engine.ts:108-117 | With distinct ids the condition on rounded weights has to be looked at only for the sets of signals of the profile. |
| ScoreLimits.ScoreCanExceed100 | packages/core/src/scoring/signals.ts:36-109 | The shipped profile scores 100.01 on three observations, those of velocity_burst, watchlist_match and sentiment_shift at their maxima. |
| Scoring.RaisingASignalNeverLowersTheScore | packages/core/src/scoring/engine.ts:65-125 | Raising the raw value of a signal with a rising normalizer and a weight that is not negative lowers neither the rounded score nor the band, for all cut-points. |
| Scoring.MissingSignalsDoNotCount | packages/core/src/scoring/engine.ts:85-119 | Missing signals are excluded, not zeroed: the score is that of the profile without them. |
| Scoring.BandFor | packages/core/src/scoring/engine.ts:65-70 | A score is critical iff it reaches that cut-point, elevated iff it reaches only that one; with ascending cut-points the band's rank is the number of cut-points reached. |
| Scoring.Evaluate | packages/core/src/scoring/engine.ts:176-230 | A signal counts if and only if it has a finite measurement from enough samples, and has a reason for exclusion otherwise; its value is then within 0.00005 of what the normalizer gives, and 0 otherwise. |
| Scoring.MaximalIsNoLower | packages/core/src/scoring/engine.ts:239-250 | scoreIfMaximal is at least the exact score, rounded. |
| Scoring.MaximalAgainstShown | packages/core/src/scoring/engine.ts:115-146 | scoreIfMaximal falls short of the shown score by at most 0.01 n + 0.005. |
| ScoreLimits.MaximalBelowShown | packages/core/src/scoring/engine.ts:115-146 | On the three observations that score 100.01 every scoreIfMaximal is 100. |
| Scoring.RemovalLowersExactly | packages/core/src/scoring/engine.ts:232-237 | On exact values, removing a signal lowers the score if and only if the signal is at or above the weighted mean of the rest. |
| Scoring.RemovedSignalIsNoHigher | packages/core/src/scoring/engine.ts:232-237 | scoreIfRemoved is at most the exact score, rounded, when the removed signal is at or above the weighted mean of the rest, and when nothing else counts. |
| ScoreMeaning.LastObservationCounts | packages/core/src/scoring/engine.ts:105-106 | Of several observations for a signal the last one counts. |
| ScoreMeaning.WeightIsCountedOrLeftOut | packages/core/src/scoring/engine.ts:110-113 | The weight that counts and the weight left out make up the total that coverage divides by. |
| ScoreMeaning.LoneSignalScores | packages/core/src/scoring/engine.ts:101-124 | Measured alone on enough samples, a signal at the fraction t of what its normalizer shows scores 100 t, to the nearest hundredth. |
| ScoreMeaning.RecomputedWithOne | packages/core/src/scoring/engine.ts:239-250 | Setting one signal to x gives the exact score with its weight times the difference added, rounded once; at x = 1 that is scoreIfMaximal. |
| ScoreMeaning.RecomputedWithoutOne | packages/core/src/scoring/engine.ts:232-237 | scoreIfRemoved is the exact score of the rest, rounded once, and 0 when the rest has no weight. |
| ScoreHash.HashedTextShows | packages/core/src/scoring/engine.ts:148-158 | The hashed texts of profiles and readings in the machine's numbers are equal if and only if profile id, version, bands, signal ids, weights, normalizer names and all readings are equal, observation order aside. |
| ScoreHash.SameHashedTextSameScore | packages/core/src/scoring/engine.ts:148-158 | Equal hashed texts give equal components, scores and bands when needed sample sizes are equal and normalizers agree after rounding. |
| ScoreHash.ScoresAgreeExactlyWhen | packages/core/src/scoring/engine.ts:101-124 | Two lists of signals with the same distinct ids and the same positive weights, each able to show something, score alike on all observations in the machine's numbers if and only if signal by signal they need the same samples and their normalizers agree after rounding on each of those numbers. |
| ScoreHash.HashSettlesScoreExactlyWhen | packages/core/src/scoring/engine.ts:148-158 | For such profiles equal hashed texts always mean equal scores if and only if the hash tells the profiles apart or they need the same samples and normalize alike after rounding. |
| ScoreHash.GridIsFaithful | packages/core/src/scoring/engine.ts:72-81 | There are numbers that print distinctly, as fine as one likes: the multiples of 1 / f; with f = 2^1074 every double is one. |
| ScoreHash.HashLeavesScoreOpen | packages/core/src/scoring/engine.ts:148-158 | With whole numbers, two profiles that meet all these conditions whose scores the hash does not settle. |
| ScoreHash.SoloScore | packages/core/src/scoring/engine.ts:108-124 | A single observation scores exactly what its signal shows of it, or 0 when its samples are too few. |
| ScoreHash.SameHashedTextOtherScore | packages/core/src/scoring/engine.ts:148-158 | Otherwise they need not: lines to 5 and to 10 hash alike and score 100 and 50. |
| Memory.BaselineIsReplayedHistory | packages/agent-runtime/src/memory.ts:94-117 | The stored mean and variance are those of the exponentially weighted distribution over all samples, for any smoothing factors, and the weights add up to one. |
| Memory.BaselineIsBounded | packages/agent-runtime/src/memory.ts:99-117 | With factors from 0 to 1 the mean lies between the least and the greatest sample, and 0 <= variance <= (greatest - mean)(mean - least). |
| Memory.StoredBaselineIsReplayed | packages/agent-runtime/src/memory.ts:99-117 | What is stored after any timed updates summarises exactly the samples since the key last lay untouched for its ninety days. |
| Memory.PrefixSearchIsExact | packages/agent-runtime/src/memory.ts:71-83 | The escaped pattern followed by % is a legal LIKE pattern and matches a key if and only if the key starts with the prefix, special characters and backslashes included. |
| Memory.AgentMemory.List | packages/agent-runtime/src/memory.ts:71-92 | Returns the live rows of this agent and tier under the prefix, in the order of their keys and as many as the limit allows; the rows left out come after all of them. |
| Memory.AgentMemory.UpdateBaseline | packages/agent-runtime/src/memory.ts:99-117 | Undisturbed, the key's row becomes the blend of its live baseline and the sample, for ninety days more; no other row of any agent changes. |
| BaselineRace.StoredSummarisesExactlyWhen | packages/agent-runtime/src/memory.ts:99-117 | However the reads and writes of updates of one key interleave, what is stored summarises the samples of all updates written so far if and only if no write fell between another update's read and its write. |
| BaselineRace.UpdateCanBeLost | packages/agent-runtime/src/memory.ts:99-117 | Of two updates that both read before either writes, one sample is lost. |
| Memory.AgentMemory.Put | packages/agent-runtime/src/memory.ts:51-60 | Inserts or overwrites this agent's row only, keeps the creation time of an existing one, and sets an expiry only for a positive time to live. |
| Memory.PutThenGet | packages/agent-runtime/src/memory.ts:42-60 | What is put can be got, and is listed, at any later clock if and only if its time to live is not positive or has not passed; other keys are as before. |
| Memory.ListedCanBeGot | packages/agent-runtime/src/memory.ts:42-92 | A key is listed if and only if getting it gives a value. |
| Memory.DefaultsInSeconds | packages/agent-runtime/src/memory.ts:31-34 | Scratch state lives six hours by default, episodic memory ninety days. |
| Memory.UpdatesAreStored | packages/agent-runtime/src/memory.ts:99-117 | Updates of a baseline at given times leave in its row what StoredAfter says, and touch no other row. |
| Memory.UpdatedBaselineIsReplayed | packages/agent-runtime/src/memory.ts:99-121 | Getting it at any later time gives the summary of exactly the samples since it last expired, until ninety days after the last of them. |
| Beast.EveryHistoryIsSingleFlight | services/orchestrator/src/beast.ts:143-165 | In every state of every interleaving of handlers at most one run is running, and ended_at is set if and only if a run is not running. |
| Beast.EndedStaysEnded | services/orchestrator/src/beast.ts:222-307 | A run that has left running never returns to it. |
| BeastEndings.StatusTellsItsStep | services/orchestrator/src/beast.ts:222-307 | In every history a run that has ended got its status and its end from one statement of that kind: a cancellation, a halt, or the sweep of an overdue run. |
| BeastEndings.HaltedHadSpent | services/orchestrator/src/beast.ts:249-277 | A run that is halted for its budget had spent it at some time before. |
| BeastEndings.WindowsAreBounded | services/orchestrator/src/beast.ts:73-165 | Every run keeps the window and budget that it started with, and both are within the configured bounds. |
| BeastEndings.HandlersDecide | services/orchestrator/src/beast.ts:73-277 | A handler goes on to insert iff nobody is running and there is something to watch, to cancel iff it read the run as running, to halt iff the run is running and spent. |
| Beast.AccruedIsItsAccruals | services/orchestrator/src/beast.ts:249-257 | The accrued cost is the accumulation of exactly the costs added to the run, in every interleaving. |
| Beast.WholeCostsAddUp | services/orchestrator/src/beast.ts:250-257 | Costs in whole millionths accumulate to their exact sum. |
| Beast.CostsAddUpRounded | services/orchestrator/src/beast.ts:250-257 | Costs that are not negative accumulate to the sum of the rounded costs. |
| Beast.NoRunOutlivesItsBudget | services/orchestrator/src/beast.ts:249-277 | Under a positive ceiling, in every state of every interleaving, a running run with accrued >= maxCostUsd has an accrual that is about to halt it. |
| Beast.SpentAtStart | services/orchestrator/src/beast.ts:73-165 | Under a ceiling of zero or less a single activation leaves a running run that is spent and that nobody halts. |
| Beast.CeilingHoldsExactlyWhen | services/orchestrator/src/beast.ts:73-277 | The cost ceiling holds in every state of every history if and only if the configured ceiling is positive. |
| BeastWarnings.WarnsOnceExactlyWhenNothingRepeats | services/orchestrator/src/beast.ts:249-282 | For any arithmetic and any costs, a history publishes the 80% event at most once per run if and only if no accrual to a run that was warned of passes the guard again. |
| BeastWarnings.EveryRunWarnsAtMostOnce | services/orchestrator/src/beast.ts:249-282 | Where the two comparisons come out so and costs are not negative, at most once if and only if no accrual to a running, unspent run that was warned of has more of its cost dropped by rounding than the run is past 80%. |
| BeastWarnings.NoWarningIsMissed | services/orchestrator/src/beast.ts:249-282 | For any arithmetic and any costs, every running, unspent run past 80% has had its event in every state of a history if and only if no accrual leaves such a run without it: past 80%, not warned of, and failing the guard. |
| BeastWarnings.WarnedExactlyWhenNothingErrs | services/orchestrator/src/beast.ts:249-282 | For any arithmetic and any costs, in every state of a history each running, unspent run past 80% has had its event, no run twice and each run that had it is at 80% or more, if and only if no accrual repeats, misses or publishes it early, or takes back a run that had it. |
| BeastWarnings.EveryRunWarnsExactlyOnce | services/orchestrator/src/beast.ts:249-282 | When costs are not negative, for any arithmetic, that holds if and only if at every accrual to a running run that it does not spend the guard holds exactly when the total crosses 80%. |
| BeastWarnings.AgreeingGuardWarnsExactlyOnce | services/orchestrator/src/beast.ts:249-282 | Where the two comparisons of the guard come out at every accrual as they would without rounding of doubles, that holds if and only if rounding of totals neither drops a cost back below 80% nor lifts one up to it. |
| BeastWarnings.WholeCostsWarnExactlyOnce | services/orchestrator/src/beast.ts:249-282 | Where they come out so, costs in whole millionths that are not negative give each run its event exactly once. |
| BeastWarnings.RepeatsExactlyWhen | services/orchestrator/src/beast.ts:279-282 | Where they come out so, an accrual publishes the event again if and only if the run was warned of and rounding drops more of the cost than the run is past 80%. |
| BeastWarnings.SmallCostsWarnTwice | services/orchestrator/src/beast.ts:249-282 | A history that publishes the event twice: budget 1, costs 0.8 and 0.0000004. |
| BeastWarnings.NegativeCostsWarnTwice | services/orchestrator/src/beast.ts:249-282 | Another, on whole cents: budget 1, costs 0.7, 0.15, -0.1 and 0.1. |
| BeastWarnings.DoublesWarnTwice | services/orchestrator/src/beast.ts:249-282 | Another, as doubles subtract: budget 1, costs 0.75, 0.05 and 0.05. |
| BeastWarnings.RoundingHidesTheMark | services/orchestrator/src/beast.ts:249-282 | A history that misses the event, in exact arithmetic: budget 0.99999925, costs 0.799999 and 0.0000005. |
| BeastWarnings.DoublesMissTheMark | services/orchestrator/src/beast.ts:249-282 | A history that misses it on whole cents, as doubles multiply and subtract: budget 3, costs 2.40 and 0.01. |
| Beast.BeastController.Activate | services/orchestrator/src/beast.ts:113-220 | Refuses, changing nothing, if and only if a run is running or there is no source; otherwise adds one running run with clamped window and budget and dispatches one task per slot of every agent, recording their number. |
| Beast.ConcurrencyIsGreatest | services/orchestrator/src/beast.ts:84-86 | An agent gets the greatest number of slots within its ceiling, a quarter of the fleet and its sources, and one when not even that fits. |
| Beast.TasksByAgent | services/orchestrator/src/beast.ts:170-190 | The tasks are those of one agent after the other, one for each slot, numbered from 0. |
| Beast.ClampIsNearest | services/orchestrator/src/beast.ts:351-353 | Clamping keeps a value within its bounds and otherwise gives the nearer bound. |
| Beast.BudgetIsNearest | services/orchestrator/src/beast.ts:75 | The budget is the amount asked for, or what is nearest to it from half a dollar to the ceiling. |
| Beast.BeastController.Accrue | services/orchestrator/src/beast.ts:249-285 | Adds the cost; if and only if the run was running and is now spent it is left budget_halted with its end and the caller is told; publishes the event when the guard holds, which on whole millionths for which the two comparisons in doubles come out right is if and only if the cost takes a running run from below 80% to 80% or more without spending it. |
| Beast.BeastController.ExpireOverdueRuns | services/orchestrator/src/beast.ts:288-307 | Ends exactly the running runs whose window has passed, and leaves none behind. |
| MinHash.ContentFingerprint | packages/core/src/security/crypto.ts:155-169 | Whatever the order in which the features are walked, the text has 256 characters and is the encoding of the slotwise least values over the tokens and neighbouring pairs, or zeros when there are none. |
| MinHash.FingerprintIsDetermined | packages/core/src/security/crypto.ts:155-169 | The fingerprint is a function of the set of features. |
| MinHash.UnionIsSlotwiseMin | packages/core/src/security/crypto.ts:159-167 | The signature of a union is the slotwise minimum of the signatures. |
| MinHash.SlotsAreValues | packages/core/src/security/crypto.ts:159-167 | Every slot of a text with features is below 2^31 - 1. |
| MinHash.SlotsAreLeastPermuted | packages/core/src/security/crypto.ts:124-167 | There are 32 slots, and each holds the least of what its own permutation makes of the features. |
| MinHash.SlotTextReadsBack | packages/core/src/security/crypto.ts:168 | A padded slot is eight digits that read back as its value. |
| MinHash.SimilarityIsFractionOfEqualMinima | packages/core/src/security/crypto.ts:181-190 | The similarity of two fingerprints is the fraction of slots whose least values coincide. |
| MinHash.FingerprintSimilarity | packages/core/src/security/crypto.ts:181-190 | The result is the number of slots of eight characters in which the texts are the same over the number of slots, and 0 for texts that cannot be compared; it is 1 for comparable ones if and only if they are equal. |
| MinHash.FeatureSet | packages/core/src/security/crypto.ts:138-148 | The features are exactly the tokens and the pairs of neighbouring tokens. |

## Left out

- ValidateWorkflow: input is past the schema, so SCHEMA_INVALID is not modelled, nor are message texts, the order of the issues and how often one is repeated.
- ExecuteWorkflow: step details, labels, timestamps and durations are left out, and the reported cost is not rounded to six decimals; readPath, compare, render and the mapping of one item are parameters, and so is scoring one item.
- VerifyChain: chains start at GENESIS, as in the code; a window that starts later is not verified.
- CanonicalIsPrintedNormal: strings are well-formed Unicode; lone surrogates, negative zero, BigInt and cyclic values are not modelled, and the text of a finite number is opaque.
- ReloadedLogVerifies: the database keeps texts, timestamps and JSON numbers as they were; NUL characters, which jsonb refuses, and range's cap of 2000 rows are not modelled.
- Receive: which of the available rows are taken, and in what order, is any choice; the direction of `priority` is documented both ways.
- RunTask: which errors are retryable is a parameter, because isRetryable reads error names by regular expression; reports, heartbeats of the agent itself and logging change no row.
- Start: the drain deadline after the loop is not modelled; how long calls take is not either. Which tasks end during a turn, and the size of each reply up to the limit, are parameters.
- ScoreObservation: confidence, topDrivers, explanation and texts are left out, and the input hash is modelled beside it; exp and log10 enter as any clamped curve with a direction; arithmetic is exact, not floating point.
- StoredSummarisesExactlyWhen: time is left out of the interleaving of updates, so the key does not expire in it; expiry is in StoredBaselineIsReplayed.
- List: the collation, by which the database orders keys, is a parameter.
- Activate: projected costs and warnings of the preflight, the audit entry and events are left out; a cap over all agents is not claimed, because each agent gets a quarter of it.
- EveryRunWarnsExactlyOnce: totals and limits are exact numbers; only the subtraction and the multiplication of the 80% guard are modelled as doubles, by parameters.
- AccruedIsItsAccruals: which terminal status wins when handlers race is not claimed, because the updates carry no guard.
- ContentFingerprint: splitting text into tokens, SHA-256 and the rounding of products of doubles are parameters.
- anchorDigest, envelope encryption, access control, reply approval, HTTP routes, cloud clients, feed and page parsing and the dashboard are not modelled.
