# Verified model of the map agent's run ledger and its helpers

A Dafny 4.11 model of the decision-making core of the agent service: the durable run queue with its
event log, the quota gates, the tool recovery loop, the argument and result builders of the map
workflow, the schema adapter, the event stream and the document splitter. Check it with
`dafny verify dfyconfig.toml`.

## How it is built

**Run ledger.** `Ledger` holds the tables and one pure function per database transaction; refused
transactions are rolled back as a whole. `Exec(trace)` is any interleaving of API threads, workers,
cancellers and failers, written as one sequence of transactions. `AgentStore.AgentStore` is the store
object itself: its methods change the tables step by step and are proved equal to those functions, so
every theorem about traces is a theorem about the object. On top of the ledger stand the theorems about
whole runs: `LedgerInvariant` (event logs, terminal runs), `LedgerHistory` (what every row and event owes to
the accepted transactions), `CommitHistory` (success, state, memory and
event move together), `Leases` (fencing, progress), `Serialisation` (one run per conversation),
`LostUpdates` (workers that read, compute and commit), `Replay` (listing and streaming), `ToolEvents`
(what a log of tool calls says), `ToolWriters` (executions that look tool events up and write them in
separate transactions, interleaved) and `AgentRuntime` (what the runtime writes through the store).

**Second ring.** `MongoStore` is the same queue over single-document operations that interleave.
`MongoChain` says when the queue of a conversation there is one chain, `MongoSerial` when at most one run of
it is leased, and `MongoHistory` what the documents owe to the operations that took effect.
`QuotaLocal` and `QuotaRedis` are the in-process gate and the three Redis scripts. `Recovery` is the
retry loop around a tool call. `HousingArguments`, `MapResult` and `HousingMapResult` are the
normaliser and the two result builders, and `MapReport` says what a built map result tells its reader.
`ProviderSchema` adapts JSON schemas and `SchemaWidening`
says what schemas accept. `Sse` prints and reads the event stream, and `Acceptance` ties the reader's
validator to the logs the ledger can hold. `Chunking` and `Documents` cut documents, and
`Outline` says what their sections and chunks show. `Common` and
`Text` hold shared values and the string operations of the host language.

**Specification and meaning.** The methods compute functions of their inputs or of the old state. What those
functions mean is said beside them without them: over whole histories of calls (`LedgerHistory`, `Leases`,
`MongoHistory`, the exact verdicts of `QuotaLocal` and `QuotaRedis`), or field by field in terms of the input
(`ConversationState.CommittedSpelledOut`, `HousingArguments.ArgumentsFollowWords`, `MapReport`, `Outline`,
`ProviderSchema.AdaptedLookup`, `Acceptance.VerdictIsFirstFailure`, `Recovery.InvokeWithRecovery`).

**Conventions.** Run ids are insertion positions (they are fresh and never reused). Times are integers
or reals passed as parameters. Where a query orders rows by creation time and times tie, any of the tied
rows may be picked, so the picked row is part of the step. A step that the store refuses leaves the state
as it is. Facts read off free text by pattern matching (is a road preference asked for, which distance is
named, is a line a heading) are fields of the input.

## What does not hold, and exactly when it does

- Tool events are looked up and written in separate transactions, and appends are not fenced by the
  lease. A worker that lost its lease and the one that took over can both start one call
  (`ToolWriters.TakeoverStartsTwice`). A write stays the only event of its call and kind if and only if
  none was written since its lookup (`ToolWriters.WriteStaysSingleIff`); with one executor of a run at a
  time it always does (`ToolWriters.ToolEventsAreOnceAndClosed`).
- For the same reason a takeover can stream an answer a second time, and the reader's validator rejects
  the run (`Acceptance.TakeoverStreamsTwice`). In any interleaving a run whose answer one execution streams,
  and which is completed with that answer by whomever, is accepted if and only if nobody else streamed
  anything for it, before or in between (`Acceptance.AnsweredRunIsAcceptedIff`).
- Cancelling a queued run in the middle of its conversation lets its successor run beside its predecessor
  (`Serialisation.CancelledMiddleRunsTwo`). Ending a run keeps the queue a chain if and only if it is the
  first or the last open run of its conversation (`Serialisation.EndKeepsChainIffAtEdge`); only runs that
  no worker ever started can be anything else.
- Completion is not fenced by the lease generation, so a worker that lost its lease can overwrite a newer
  commit (`LostUpdates.UpdateIsLost`). An accepted commit, of a resumed execution or not, replaces what it
  read exactly when the version it read is the base version of the run row
  (`LostUpdates.CommitReplacesWhatItReadIff`).
- In the document store a retried message can make two runs wait for one predecessor
  (`MongoStore.RetrySharesDependency`), and a request that swaps the tail behind a duplicate waits for a
  run that will never be stored (`MongoStore.OvertakenDuplicateRunsTwo`). Whatever happens to a queue that
  is one chain, it is one chain again if and only if what stays of it is a first part of it and, whenever
  a later request that stays took the tail, and at the end, the last operation on the tail had left it at
  the end of the chain so far (`MongoChain.QueueIsOneChainIff`). For a duplicate on which nothing
  intervened that says: the stored run asks for the same and is the last that stays of the chain before it
  (`MongoChain.DuplicateLeavesChainIff`, which also covers commits, swaps and rollbacks in between).
- In the document store any ending but that of the first live run of a conversation breaks the chain of its
  live runs, even the ending of the last one, because the tail keeps naming it; ending a run keeps the
  chain if and only if it is the first (`MongoSerial.EndKeepsLiveChainIff`).
- A run can be claimed beside its own predecessor (`MongoStore.MissingDependencyIsClaimed`). The check of a
  claim lets a run pass its live predecessor if and only if that one has swapped the tail and is yet to be
  inserted (`MongoStore.CheckPassesIff`); both end up open, and the run leased, if and only if in addition
  the run can still be taken and the message of the predecessor is still free
  (`MongoStore.ClaimOvertakesDependencyIff`).
- A commit clears the tail of a conversation in the document store even when a newer run owns it, and even
  when that run is only about to be inserted (`MongoStore.CommitForgetsPendingRun`). The conversation stays
  guarded if and only if no other run of it is open and no request of it stands between its tail swap and
  its insert (`MongoStore.CommitKeepsTailIff`).
- In the document store the queue limit is checked before a request is inserted, so more runs than the limit can
  be open (`MongoHistory.TwoPassTheLimit`), but never more than the number of requests that stand between their
  lookup and their insert at once, less one (`MongoHistory.OverflowIsBounded`). The SQL store checks and inserts
  in one transaction and never exceeds it (`LedgerHistory.QueueNeverOverflows`).
- The local quota takes one off both counters on release; the counters stay exact if and only if the other
  counter was zero (`QuotaLocal.ReleaseIsExactIff`).
- In Redis a worker can activate a run before it is reserved. The conservation law survives that step if
  and only if nothing is queued (`QuotaRedis.GhostActivationConservesIff`); otherwise a queue slot leaks and
  the queue exceeds its limit (`QuotaRedis.LeakedSlotExceedsQueueLimit`). The late reservation reserves
  nothing, and the law holds after the end of the run if and only if nothing was queued and its tokens
  happen to be free (`QuotaRedis.LateReservationIsLost`, `QuotaRedis.LostReservationExceedsBudget`).
- The path of a line in a document is its outline, the last heading of each depth up to the present one, if and
  only if no heading skips a level (`Outline.PathsAreOutlineIff`).
- The stream reader splits a block at every character that breaks lines, while the printer leaves
  U+0085, U+2028 and U+2029 in the data. The stream is read back if and only if no data holds one of these
  three (`Sse.StreamIsReadBackIff`, `Sse.LineSeparatorCutsData`).
- The schema adapter narrows schemas in three ways. It drops a property named like an unsupported keyword,
  which a closed schema then refuses (`SchemaWidening.PropertyNamedLikeKeywordIsLost`). It takes a property
  named `const` with a flat schema for a constant and adds a property `type` that nothing satisfies
  (`SchemaWidening.PropertyNamedConstIsMisread`). It rewrites constants and enumerations that look like
  schemas (`SchemaWidening.ConstantStaysAcceptedIff`). A value that a schema accepts stays accepted if and
  only if it meets none of the three (`SchemaWidening.AcceptedStaysAcceptedIff`).

## Model

| member | source | states |
|---|---|---|
| ConversationState.BuildCommittedState | app/agent/conversation_state.py:157-223 | per tool, on the result itself: a map query makes its call the reusable query (entity type, districts, layers, arguments, filters, preferences, the last upper price by position); any other intent or tool keeps it; every turn leaves its clipped answer, selection and digest entry |
| ConversationState.CommittedSpelledOut | app/agent/conversation_state.py:157-223 | the fold step that the commit theorems use says the same, field by field |
| ConversationState.DigestIsLastTwelve | app/agent/conversation_state.py:173-176 | after any history the digest is the last twelve committed turns, clipped |
| ConversationState.QueryComesFromLastMapTurn | app/agent/conversation_state.py:178-222 | the reusable query and entity context are those of the last recognised map turn, whatever followed; only the selected objects follow the very last turn |
| ConversationState.QueryUntouchedWithoutMapTurn | app/agent/conversation_state.py:178-180 | turns that are no recognised map query never touch the query context |
| LedgerInvariant.EveryTraceKeepsInv | app/agent/store.py:1125-1198 | after every interleaving: sequences are 1..last, at most one terminal event and it is last, status, answer and error agree with it, terminal runs hold no lease, dependencies point back, messages are unique |
| LedgerInvariant.ApplyKeepsInv | app/agent/store.py:868-1284 | one transaction, accepted or refused, keeps that invariant |
| LedgerInvariant.TerminalRunsAreFrozen | app/agent/store.py:1137-1139 | no later transactions change the row or the log of a terminal run |
| LedgerHistory.LogIsHistory | app/agent/store.py:1125-1198 | after any interleaving the log of a run is the list of its accepted writes, each with its body, its number and its own time |
| LedgerHistory.RunsAreCreates | app/agent/store.py:923-958 | the r-th row is what the r-th accepted create asked for, and stays so |
| LedgerHistory.RepeatedMessageMeetsFirst | app/agent/store.py:881-892 | a repeated message meets exactly the run of its first request, with that hash |
| LedgerHistory.CreateIsAcceptedIff | app/agent/store.py:881-906 | a create succeeds exactly for a new message while fewer runs than the limit are open |
| LedgerHistory.QueueNeverOverflows | app/agent/store.py:894-906 | in any interleaving under one limit never more runs are open than it allows |
| LedgerHistory.StatusIsLastGiven | app/agent/store.py:1000-1198 | the status of a run is the one an accepted claim, release or ending gave it last |
| LedgerHistory.RouteIsLastGiven | app/agent/store.py:1176-1182 | the route is the one given last |
| LedgerHistory.BaseIsVersionRead | app/agent/store.py:1014-1028 | the base version is the version of the conversation when the run was created or last claimed |
| LedgerHistory.ActiveIsLastCreated | app/agent/store.py:948-956 | the active run is the one created last, until a completion with a state clears it |
| LedgerHistory.StateIsLastCommitted | app/agent/store.py:1250-1271 | the stored state is the one committed last |
| LedgerHistory.MemoryIsWritten | app/agent/store.py:388-443 | each memory row comes from an accepted completion, with its run, conversation, route and stripped, clipped texts |
| CommitHistory.RowsOfRemembered | app/agent/store.py:404-443 | insert-then-trim leaves the newest rows of the own conversation and touches no other |
| CommitHistory.CommitsMoveTogether | app/agent/store.py:1213-1282 | a run has succeeded exactly when its completion is among the commits of its conversation; the version counts them; memory is exactly the last twelve, in order, with their texts |
| CommitHistory.EveryRuntimeTraceKeepsCommitInv | app/agent/store.py:1213-1282 | versions, last committed run and memory rows follow the commits of every conversation in every runtime interleaving |
| Leases.GenerationCountsClaims | app/agent/store.py:1012-1032 | generations of a run are 1, 2, 3, ... in claim order |
| Leases.StaleHolderIsPowerless | app/agent/store.py:1034-1095 | once a run was claimed again, renewals and releases with the earlier generation change nothing |
| Leases.NobodyClaimsWithinLease | app/agent/store.py:1000-1058 | after a claim or renewal at t for n seconds, until the lease is renewed, released or the run ended, no claim before t+n is accepted |
| Leases.LeaseRunsOutExactly | app/agent/store.py:1000-1058 | undisturbed, the run can be claimed exactly from t+n on, once its dependency has ended |
| Leases.ExactlyHolderControls | app/agent/store.py:1034-1097 | until its lease is taken away the claimer, and nobody else, can renew and release; a named generation must be the number of claims |
| Leases.ReleaseFrees | app/agent/store.py:1065-1097 | a release frees the run at once, and nobody can renew or release it again |
| Leases.ClaimsAreSeparated | app/agent/store.py:1000-1032 | between two claims of a run the first lease was released or had run out |
| Leases.ClaimFindsWork | app/agent/store.py:1000-1032 | no deadlock: with an open run and no live lease something can be claimed, after any cancellations |
| Leases.QueueDrains | app/agent/store.py:1000-1032 | workers alone can end every run by claiming and ending |
| Serialisation.OneRunPerConversation | app/agent/store.py:1000-1011 | when unstarted runs end only at an edge of the queue, at most one open run of a conversation is leased, and only its first open run can be claimed |
| Serialisation.OrderlyTraceIsSerial | app/agent/store.py:914-921 | the open runs of every conversation form one chain in creation order |
| Serialisation.EndKeepsChainIffAtEdge | app/agent/runtime.py:844-863 | ending a run keeps the chain if and only if it is the first or last open run |
| Serialisation.EndInMiddleBreaksChain | app/agent/runtime.py:856-862 | ending a middle run frees its successor while an elder is open |
| Serialisation.CancelledMiddleRunsTwo | app/agent/runtime.py:856-862 | an interleaving in which two runs of a conversation are leased at once |
| Serialisation.WaitingTraceIsOrderly | app/agent/store.py:914-921 | if every run ends only after its one direct dependency, the edge discipline follows for the whole conversation |
| Serialisation.RunsEndInOrder | app/agent/store.py:1000-1011 | then runs of a conversation end in creation order: whenever one has ended, no older one is open |
| Serialisation.WaitingRunsAreSerial | app/agent/store.py:1000-1011 | and at most one run of a conversation is leased at any time |
| LostUpdates.StateIsFoldOfCommits | app/agent/runtime.py:752-773 | with fenced, unresumed committers the stored state is the left fold of the committed turns and the version their number |
| LostUpdates.FencedCommitLosesNothing | app/agent/store.py:1234-1271 | a commit under the current generation replaces the state it read and adds one version |
| LostUpdates.CommittedHistoryIsVisible | app/agent/runtime.py:539-543 | the stored digest and query context are those of the committed turns |
| LostUpdates.CommitReplacesWhatItReadIff | app/agent/store.py:1234-1249 | an accepted commit, resumed or not, extends the stored state exactly when the version read is the base version of its run; otherwise it overwrites a newer one |
| LostUpdates.UpdateIsLost | app/agent/store.py:1213-1249 | an interleaving in which an accepted commit erases another |
| Replay.ListingIsExact | app/agent/store.py:1286-1319 | listing fails exactly when a needed event expired and otherwise returns exactly the events after the given sequence |
| Replay.OrderedTraceOrderedEvents | app/agent/store.py:1141-1158 | transactions stamped in order leave an event table stamped in order |
| Replay.EveryInterleavingKeepsStreamInv | app/agent/runtime.py:880-891 | sent and listed events are always the next ones of the log, whatever is written meanwhile |
| Replay.StreamIsExact | app/agent/runtime.py:865-898 | a stream has always sent a gap-free, duplicate-free prefix; when it stops as completed it has sent everything, the terminal event last |
| Replay.PollFailsIff | app/agent/runtime.py:880-884 | a poll fails exactly when an event the reader still needs has expired, and otherwise lists all newer events |
| Replay.EndedStreamCompletes | app/agent/runtime.py:880-891 | one undisturbed round sends the rest of an ended run and stops as completed |
| ToolWriters.ToolEventsAreOnceAndClosed | app/agent/runtime.py:576-583 | with one executor of a run at a time, across any takeovers, replays, crashes between lookup and write and failures, each call has at most one start and one completion, and failed runs leave none open |
| ToolWriters.WriteStaysSingleIff | app/agent/store.py:1321-1332 | whatever happens in between, a write adds no second event of its call and kind exactly when none was written since its lookup |
| ToolWriters.TakeoverStartsTwice | app/agent/runtime.py:576-583 | an interleaving in which an expired holder and its successor both write a start of one call |
| ToolWriters.UninterruptedEmission | app/agent/runtime.py:576-583 | a lookup and a write that nothing separates are the emission of the store object |
| ToolWriters.UninterruptedFailure | app/agent/runtime.py:806-835 | the steps of a failure that nothing separates are the failure of the store object, and leave no started call open |
| ToolEvents.PreludeClosesEveryCall | app/agent/runtime.py:806-835 | failing a run completes each started call exactly once before the terminal event |
| ToolEvents.ClosingsAreNamedInOrder | app/agent/runtime.py:806-827 | the closings report failure after no time, under the name of the last start of each call, in the order of first starts |
| AgentRuntime.EndingsBeginWithStartIff | app/agent/runtime.py:806-863 | failing or cancelling writes a start exactly when nothing was written, and the ending last |
| AgentStore.SaveMemory | app/agent/store.py:388-443 | the loops over the memory table compute the insert-then-trim of the ledger |
| AgentStore.AgentStore.CreateOrAttach | app/agent/store.py:868-958 | creates exactly when the message is new and the queue has room, otherwise attaches, reports the conflict or refuses, changing nothing |
| AgentStore.AgentStore.ClaimNextRun | app/agent/store.py:993-1032 | claims the oldest claimable run, or nothing when there is none |
| AgentStore.AgentStore.RenewLease | app/agent/store.py:1034-1061 | renews exactly when owner, generation and status allow, as the ledger transaction whose lease `Leases.LeaseRunsOutExactly` measures |
| AgentStore.AgentStore.ReleaseLease | app/agent/store.py:1065-1097 | releases exactly when owner, generation and status allow |
| AgentStore.AgentStore.AppendEvent | app/agent/store.py:1125-1198 | appends the next event and its effect on the run, or refuses |
| AgentStore.AgentStore.CompleteRunWithMemory | app/agent/store.py:1213-1284 | writes memory, state and terminal event together, or nothing |
| AgentStore.AgentStore.ListEvents | app/agent/store.py:1286-1319 | the listing over the event table |
| AgentStore.AgentStore.HasToolEvent | app/agent/store.py:1321-1332 | the lookup before a tool event is emitted |
| AgentStore.AgentStore.PendingToolCalls | app/agent/store.py:1334-1355 | the started calls that have no completion, in order of first start |
| AgentRuntime.AgentRuntime.EmitAnswer | app/agent/runtime.py:607-614 | the loop appends the answer in pieces of eighty characters, each at its own time |
| AgentRuntime.PiecesRebuildAnswer | app/agent/runtime.py:607-614 | the pieces are short, not empty, and join to the answer |
| AgentRuntime.PiecesAreFull | app/agent/runtime.py:607-614 | every piece but the last has exactly eighty characters |
| AgentRuntime.StreamedAnswerIsCompletedAnswerIff | app/agent/runtime.py:607-619 | the pieces of a log join to the completed answer exactly when nothing was streamed before |
| AgentRuntime.AgentRuntime.EmitToolEvent | app/agent/runtime.py:576-583 | a tool event is appended unless its call has one of that kind |
| AgentRuntime.AgentRuntime.FailRun | app/agent/runtime.py:806-835 | an open run gets its start if silent, one completion per pending call and the failure; an ended run is left alone |
| AgentRuntime.AgentRuntime.CancelIdleRun | app/agent/runtime.py:844-863 | an open run gets its start if silent and the cancellation; an ended run is left alone |
| MongoStore.CreatesFormOneChain | app/agent/mongo_store.py:112-146 | however creates of distinct messages interleave, with no commit between, runs form one chain in swap order and share no dependency |
| MongoStore.LeaseWaitsForDependency | app/agent/mongo_store.py:169-193 | the separate check and update never lease a run whose dependency was present and is open |
| MongoStore.RollbackRejoinsChainIff | app/agent/mongo_store.py:135-146 | after the last operation of any duplicate, conflict or not, the chain it joined holds without it exactly when it gave its tail back to the run it waited for, or the tail stood at the end of the chain already |
| MongoChain.QueueIsOneChainIff | app/agent/mongo_store.py:112-262 | from any queue that is one chain, over every history of any steps: some order of its stored and pending runs is one chain exactly when a first part of the old chain stays and each later request that stays, and the end, found the tail at the end of the chain so far |
| MongoChain.DuplicateLeavesChainIff | app/agent/mongo_store.py:118-146 | over every history from swap to rollback the queue is one chain exactly when a first part of the old chain stays and, with no operation on the tail in between, the hashes agree and the stored run is the last that stays, otherwise each later request that stays, and the end, found the tail at the end of the chain |
| MongoSerial.OneRunPerConversation | app/agent/mongo_store.py:169-193 | in every interleaving in which no claim checks a dependency that is still to be stored: while the live runs of a conversation are one chain, at most one of them is leased, the first |
| MongoSerial.EndKeepsLiveChainIff | app/agent/mongo_store.py:209-231 | ending an open run keeps the live runs of its conversation one chain exactly when it is the first |
| MongoSerial.OrderlyPlayIsSerial | app/agent/mongo_store.py:112-262 | when no insert is rejected, unstarted runs end only first in line, a run commits only as the last live one and no claim checks a pending dependency, at most one run of a conversation is leased |
| MongoStore.OvertakenDuplicateRunsTwo | app/agent/mongo_store.py:135-146 | an interleaving in which a run waits for a duplicate that is never stored and is leased beside the run of that message |
| MongoStore.RetrySharesDependency | app/agent/mongo_store.py:135-146 | an interleaving in which a retry makes two runs share a dependency |
| MongoStore.MissingDependencyIsClaimed | app/agent/mongo_store.py:126-136 | an interleaving in which a run and its unstored predecessor are both leased |
| MongoStore.CheckPassesIff | app/agent/mongo_store.py:176-180 | in every reachable state the check lets a run pass a live dependency exactly when that one is between swap and insert |
| MongoStore.ClaimOvertakesDependencyIff | app/agent/mongo_store.py:169-193 | check, version read, update and the insert of the dependency leave the run leased beside its open dependency exactly when the dependency was pending, the run free and the message not taken |
| MongoStore.CommitKeepsTailIff | app/agent/mongo_store.py:233-262 | in every reachable state a commit leaves a tail naming an open or pending run exactly when no other run is open and no request stands between swap and insert |
| MongoStore.CreateAfterCommitWaitsIff | app/agent/mongo_store.py:112-136 | exactly then the next create waits for a live run or there is none to wait for |
| MongoStore.CommitForgetsPendingRun | app/agent/mongo_store.py:233-262 | an interleaving in which a commit forgets a pending run and two runs of the conversation are leased |
| MongoStore.MongoAgentStore.InsertOrAttach | app/agent/mongo_store.py:135-146 | the insert, or on a duplicate the conditional rollback of the tail or the conflict |
| MongoStore.MongoAgentStore.CreateOrAttach | app/agent/mongo_store.py:112-146 | uninterrupted, a new message within the queue limit swaps the tail and inserts the run that waits for the old tail; otherwise it attaches, conflicts or is refused and changes nothing |
| MongoStore.MongoAgentStore.TakeLease | app/agent/mongo_store.py:169-193 | the conditional update takes a lease exactly when the run is open and free |
| MongoHistory.StoredAsAsked | app/agent/mongo_store.py:112-146 | in every interleaving a stored run carries conversation, message and content of its own request |
| MongoHistory.CommitSucceedsIff | app/agent/mongo_store.py:244-262 | a completion with a state succeeds exactly when no commit of the conversation took effect since the version was read by the last claim, or by the swap |
| MongoHistory.LeaseIsLastGiven | app/agent/mongo_store.py:169-207 | status, holder, end of the lease and generation are those given last by what took effect |
| MongoHistory.TakeSucceedsIff | app/agent/mongo_store.py:186-192 | a lease can be taken exactly when the run has not ended and the lease given last has run out |
| MongoHistory.OverflowIsBounded | app/agent/mongo_store.py:121-142 | open runs exceed the limit by less than the number of requests between lookup and insert |
| MongoHistory.TwoPassTheLimit | app/agent/mongo_store.py:121-142 | an interleaving of two requests under a limit of one that stores both |
| QuotaLocal.QuotaService.RateCheck | app/agent/quota.py:51-63 | the pruning loop and the admission compute the sliding-window check, its refusal and its failure on an empty bucket with limit zero |
| QuotaLocal.QuotaService.Reserve | app/agent/quota.py:65-87 | rates, queue and tokens are checked in order; a refusal reserves nothing |
| QuotaLocal.QuotaService.MarkActive | app/agent/quota.py:136-144 | a queued reservation moves from one counter to the other |
| QuotaLocal.QuotaService.Settle | app/agent/quota.py:164-181 | settling removes the reservation and gives everything back even when tokens or cost are refused, and charges the tokens that `QuotaLocal.TokensAreCharged` adds up |
| QuotaLocal.QuotaService.Release | app/agent/quota.py:183-195 | releasing removes the reservation and lowers all three counters |
| QuotaLocal.EveryWindowIsBounded | app/agent/quota.py:51-63 | over any history with a monotone clock every sixty-second window admits at most the limit per key |
| QuotaLocal.SettlingWithinLimitSucceeds | app/agent/quota.py:164-179 | reserved tokens equal the outstanding limits; settling within the own limit is never refused |
| QuotaLocal.CountersNeverExceedReality | app/agent/quota.py:136-195 | with one activation per reservation before settling, both counters never over-count |
| QuotaLocal.ReleaseIsExactIff | app/agent/quota.py:183-195 | exact counters stay exact on release exactly when the other counter is zero |
| QuotaLocal.TokensAreCharged | app/agent/quota.py:164-181 | over every history the daily counter is the sum of the tokens of accepted settlements; settling and reserving are refused exactly when that sum says so |
| QuotaLocal.RateVerdictIsExact | app/agent/quota.py:51-63 | a request is refused exactly when the limit was admitted within the last sixty seconds |
| QuotaLocal.CountersAreExact | app/agent/quota.py:136-195 | with one activation per reservation and clean releases both counters are exact |
| QuotaLocal.ReserveVerdictIsExact | app/agent/quota.py:65-87 | every verdict on a reservation, read off admissions, waiting runs and charged tokens |
| QuotaRedis.TenantQuota.ReserveScript | app/agent/quota.py:94-112 | the script's checks and increments, in order |
| QuotaRedis.TenantQuota.ActivateScript | app/agent/quota.py:151-159 | the script's check and counter move |
| QuotaRedis.TenantQuota.FinishScript | app/agent/quota.py:203-217 | the script's decrements by activity and the token settlement |
| QuotaRedis.EveryHistoryConserves | app/agent/quota.py:94-217 | queued and active equal the inactive and active reservations, reserved equals the outstanding limits, limits hold |
| QuotaRedis.KeysAreHistory | app/agent/quota.py:94-217 | over every history, disciplined or not, reservations, activity, rates and used tokens are what the replies make them |
| QuotaRedis.RepliesAreExact | app/agent/quota.py:94-159 | over disciplined histories each of the six replies, and the refusal of an activation, is read off the history |
| QuotaRedis.FinishConservesIff | app/agent/quota.py:203-217 | finishing keeps the law exactly when what the run used fits beside all that is used or reserved |
| QuotaRedis.GhostActivationConservesIff | app/agent/quota.py:151-159 | activating a missing reservation keeps counters and law exactly when nothing is queued |
| QuotaRedis.LateReservationIsLost | app/agent/runtime.py:301-313 | the reservation that comes after the activation reserves nothing, and after the end of the run the law holds exactly when nothing was queued and its tokens were free |
| QuotaRedis.LostReservationExceedsBudget | app/agent/quota.py:94-112 | a history of runs within their token limit that exceeds the budget of the day |
| QuotaRedis.LeakedSlotExceedsQueueLimit | app/agent/quota.py:94-112 | after the leak a tenant with a full queue queues one run more than its limit |
| QuotaRedis.GhostActivationLeaksQueueSlot | app/agent/quota.py:151-217 | otherwise finishing it leaves the queue counter one too low |
| Recovery.InvokeWithRecovery | app/tools/spring_client.py:174-228 | the loop ends within its time budget after at most max_retries+1 POSTs, in the proved order, with pauses of a quarter second that double and status requests of at most five seconds; it raises the error of the action that ended it, or else of the last POST |
| Recovery.AfterRefusal | app/tools/spring_client.py:195-225 | after a refused POST: a bounded status request unless no time is left, then the end it dictates, or the exact pause and room for one more POST |
| Recovery.OrderlyMeans | app/tools/spring_client.py:183-228 | all POSTs carry the same id and arguments, a status request lies between any two, nothing follows a response, an error or code that is not retried, or an execution that has ended |
| HousingArguments.NormalizeArguments | app/agent/workflow.py:617-782 | refuses with the first rule that fails; otherwise prices, districts, criteria, distance, limit, roads and wishes are those of the words, idle levels those of the plan, and weights are the named proportions or equal shares |
| HousingArguments.ArgumentsFollowWords | app/agent/workflow.py:617-782 | the specification used by the other theorems follows the words in the same sense |
| HousingArguments.RefusalIsFirstFailure | app/agent/workflow.py:617-782 | the refusal is the first failing rule, in the order of the source |
| HousingArguments.PlansDoNotInterfere | app/agent/workflow.py:617-782 | without named weights any two passing plans give the same arguments but for levels of disabled preferences |
| HousingArguments.NamedWeightsMatterAsRatios | app/agent/workflow.py:757-772 | named weights influence the result exactly through their proportions |
| HousingArguments.RefusedForPlanOnlyIf | app/agent/workflow.py:617-782 | without named weights a plan is accepted if and only if the words are acceptable and it neither contradicts its prices, invents a distance nor filters without roads |
| HousingArguments.NormalizingTwiceIsOnce | app/agent/workflow.py:617-782 | normalising is idempotent for the same words |
| HousingArguments.WeightsAddUp | app/agent/workflow.py:729-772 | enabled weights add up to one or are omitted for exactly convenience and road; disabled ones are zero |
| MapResult.BuildMapResult | app/agent/workflow.py:1034-1120 | the nested loop with its early exit builds the sets, count and warnings that `MapReport.ResultReports` reads off the calls, and fails exactly on an examined bad geometry |
| MapResult.MapFeatures | app/agent/workflow.py:1054-1086 | scanning one call with the room left by the earlier ones |
| MapResult.KeptSnoc | app/agent/workflow.py:1067-1078 | fixing the id field on the way is filtering by the first identified record's field |
| MapResult.ExaminedFillsRoom | app/agent/workflow.py:1054-1057 | stopping at a full result keeps exactly the first records that fit |
| MapResult.ShowsFirstFeaturesInPlanOrder | app/agent/workflow.py:1034-1103 | the flattened features are the first two hundred showable ones in plan order and the counts add up |
| MapResult.BudgetPreventsTruncation | app/agent/workflow.py:1613-1623 | tools that honour their share of the limit never cause truncation |
| MapResult.DedupedIsExact | app/agent/workflow.py:1119-1120 | deduplication loses no warning and leaves none twice |
| MapReport.DedupedKeepsOrder | app/agent/workflow.py:1119 | the warnings stay in the order in which each was given first |
| MapReport.ResultReports | app/agent/workflow.py:1034-1120 | each set carries id, layer and total of its call in plan order and is incomplete exactly when the call said so or fewer are shown; a warning stands once, exactly when its cause exists |
| MapReport.WarningsIff | app/agent/workflow.py:1054-1088 | the cause of each warning in terms of the records looked at |
| MapReport.SoundIff | app/agent/workflow.py:1057-1064 | the build fails exactly when a record that is looked at has a bad geometry |
| MapReport.ShownIff | app/agent/workflow.py:1065-1083 | which record of a call is shown, by its own and the first identified attribute |
| HousingMapResult.BuildHousingMapResult | app/agent/workflow.py:1226-1346 | succeeds exactly for valid geometries within the limit; each layer is listed once, in order, with all its records |
| HousingMapResult.LayersHoldEveryRecord | app/agent/workflow.py:1231-1305 | grouping neither drops nor repeats a record |
| HousingMapResult.LayerKeepsOrder | app/agent/workflow.py:1231-1305 | within its layer a record stands behind exactly those that came before it |
| ProviderSchema.NothingUnsupportedRemains | app/agent/llm.py:163-199 | for every JSON value nothing at any depth carries an unsupported keyword |
| ProviderSchema.AdaptingTwiceIsOnce | app/agent/llm.py:163-199 | adapting is idempotent for every JSON value, requiring everything or not |
| ProviderSchema.RequiringAllIsStrict | app/agent/llm.py:194-195 | requiring everything, each object schema at any depth requires exactly the properties it lists |
| ProviderSchema.AdaptedLookup | app/agent/llm.py:163-199 | every key of an adapted object read off the original: nine keywords go, a constant brings its type, required lists the properties, nothing else changes |
| ProviderSchema.AdaptedElements | app/agent/llm.py:197-198 | arrays are adapted element by element |
| SchemaWidening.AcceptedStaysAcceptedIff | app/agent/llm.py:163-199 | a value that a schema accepts stays accepted exactly when it reaches no lost property of a closed node, no misread list of properties and no rewritten constant |
| SchemaWidening.AdaptedMeaning | app/agent/llm.py:163-199 | what the adapted schema accepts, for every value, in terms of the original schema |
| SchemaWidening.AdaptingOnlyWidens | app/agent/llm.py:163-199 | a schema with none of these causes accepts, adapted, all it accepted before |
| SchemaWidening.DataSurvivesIff | app/agent/llm.py:163-193 | a JSON value is sent unchanged exactly when no object in it has an unsupported key or a flat constant without a type |
| SchemaWidening.ConstantStaysAcceptedIff | app/agent/llm.py:163-193 | a constant satisfies its own adapted schema exactly when it is sent unchanged |
| SchemaWidening.ConstHasType | app/agent/llm.py:182-193 | the type added beside a constant accepts whatever equals the constant |
| SchemaWidening.MemberNamedLikeKeywordIsRefused | app/agent/llm.py:177-181 | a closed schema refuses, once adapted, members named like an unsupported keyword |
| SchemaWidening.PropertyNamedLikeKeywordIsLost | app/agent/llm.py:177-181 | for each unsupported keyword a schema and a value accepted before and refused after |
| SchemaWidening.MisreadMemberIsRefused | app/agent/llm.py:182-193 | a schema whose properties were taken for a constant refuses every object with a member called type |
| SchemaWidening.PropertyNamedConstIsMisread | app/agent/llm.py:182-193 | an open schema and a value accepted before and refused after |
| Sse.ParseSse | scripts/agent_v1_1_acceptance.py:73-94 | the reader's loops over blocks and lines |
| Sse.StreamIsReadBackIff | scripts/agent_v1_1_acceptance.py:73-94 | ids, names and data come back in order, heartbeats between or not, if and only if no data holds U+0085, U+2028 or U+2029 |
| Sse.EventIsReadBackIff | app/agent/store.py:84-85 | the same for one printed event |
| Sse.LineSeparatorCutsData | app/agent/store.py:41-42 | a printed event with U+2028 in its data is not read back |
| Sse.EventStructure | scripts/agent_v1_1_acceptance.py:97-106 | the loop that collapses answer pieces |
| Sse.StructureIgnoresPieces | scripts/agent_v1_1_acceptance.py:97-106 | how an answer is cut into pieces does not show in the structure |
| Sse.StructureIsFaithful | scripts/agent_v1_1_acceptance.py:97-106 | the structure keeps all other events in order and has one entry per stretch of pieces |
| Sse.BlocksAreTheCutIff | scripts/agent_v1_1_acceptance.py:75-76 | the blocks are the one way to cut any text at its blank lines from the left |
| Sse.BlockIsReadIff | scripts/agent_v1_1_acceptance.py:77-94 | a block is read exactly when it is no comment and names an event and its data; the identifier may be missing |
| Sse.ReadValuesAreLastNamed | scripts/agent_v1_1_acceptance.py:80-93 | each value is that of the last line naming its field, without leading white space |
| Sse.SkippedIff | scripts/agent_v1_1_acceptance.py:77-78 | blocks of white space and blocks that open with a colon are passed over |
| Sse.ReturnsDoNotMatter | scripts/agent_v1_1_acceptance.py:75 | a stream with carriage returns before its newlines is read in the same way |
| Acceptance.ValidateSse | scripts/agent_v1_1_acceptance.py:109-150 | the validator's checks, in order, with their loops |
| Acceptance.VerdictIsFirstFailure | scripts/agent_v1_1_acceptance.py:109-150 | a stream is accepted exactly when it ends once and as expected, matches, numbers its envelopes, carries its error and tells its answer; otherwise the verdict names the first check that fails |
| Acceptance.UnsuccessfulRunIsAccepted | scripts/agent_v1_1_acceptance.py:109-150 | after any interleaving whatsoever the stream of a failed or cancelled run passes every check for its status and error |
| Acceptance.AnsweredRunIsAcceptedIff | app/agent/runtime.py:607-619 | in any interleaving in which one execution streams its answer piece by piece and the run is completed with it, the run is accepted exactly when no other accepted piece of it is not empty |
| Acceptance.UninterruptedAnswerIsAcceptedIff | app/agent/runtime.py:607-619 | with nothing between the pieces and the completion: exactly when nothing was streamed before |
| Acceptance.TakeoverStreamsTwice | app/agent/runtime.py:607-619 | for every answer that is not empty, an interleaving with a takeover whose successful run is rejected |
| Chunking.SplitContent | app/rag/chunking.py:52-72 | the splitting loop with its running size |
| Chunking.SplitLosesNothing | app/rag/chunking.py:52-72 | for every text, dropping the repeated ends, the parts give back every line that says something, in order |
| Chunking.LongSplitLosesNothing | app/rag/chunking.py:59-72 | for a text over the limit they give back exactly the joined lines, each part being the carried end and its own lines |
| Chunking.GroupsPartitionLines | app/rag/chunking.py:60-70 | the new lines of the parts partition the lines |
| Chunking.PartsAreShort | app/rag/chunking.py:52-72 | no part exceeds the larger of the limit and overlap plus one plus the longest line |
| Chunking.SplitsOnlyWhenFull | app/rag/chunking.py:52-72 | a text within the limit stays whole; a part ends only where its next line, with what the part repeats, would exceed the limit |
| Documents.ChunkDocument | app/rag/chunking.py:113-192 | refuses exactly the bad limits; otherwise numbers the text parts of all sections, then all tables, with prefix, kind and warning, and its chunks give back the lines of the document |
| Documents.WalkPages | app/rag/chunking.py:119-139 | the nested walk over pages and lines builds the sections and page paths |
| Documents.EveryLineInOneSection | app/rag/chunking.py:119-139 | every line that is not a heading lies in exactly one section, in order, under the headings above it |
| Documents.DocumentLosesNothing | app/rag/chunking.py:113-164 | from the text of the numbered chunks, taken by the part counts of the sections, every body line of the document comes back, once and in order |
| Documents.SectionsSpanForward | app/rag/chunking.py:119-139 | for ascending pages, sections are not empty, span pages forward and follow each other |
| Documents.ChunksAreOrderly | app/rag/chunking.py:141-192 | ordinals are 0..n-1 and no chunk's pages run backwards |
| Outline.PathsAreOutlineIff | app/rag/chunking.py:119-139 | paths are the outline of the document exactly when no heading skips a level |
| Outline.SectionsAreStretches | app/rag/chunking.py:119-139 | sections are the stretches between headings that hold a line, from the page of the heading to that of the last line |
| Outline.PagePathIsLast | app/rag/chunking.py:137 | the path of a page is that after the last page with its number |
| Outline.ChunksCarryParts | app/rag/chunking.py:141-164 | chunks come section by section and part by part with headings and pages; their wording decides kind and warning |
| Outline.TablesComeInOrder | app/rag/chunking.py:166-192 | each table has its chunk, page by page in order, under its own path or that of its page |
| Outline.EveryLineIsMet | app/rag/chunking.py:124-125 | the walk meets every line of every page once, in order, with the number of its page |
| Outline.TablesStandLast | app/rag/chunking.py:141-190 | the numbered chunks are those of the sections, then those of the tables |

## Left out

- Citations, warnings and trace ids of runs, `updated_at`, metrics tables, diagnostics, routes, headers,
  configuration, migrations and backups: they carry no rule of the queue.
- SQLite, MongoDB, Redis, HTTP and asyncio mechanics: a transaction or script is one step, a document
  operation is one step, and a busy retry happens once or not at all.
- LangGraph execution, checkpoint contents and legacy resume formats: `LostUpdates` lets a resumed
  execution hold what any earlier execution of its conversation read.
- The MongoDB event log and memory: they repeat the ledger's rules, inside one transaction when
  transactions are required (app/agent/mongo_store.py:86-94). With `require_transactions` off their
  operations run without a session and may interleave; that mode is not modelled. The model keeps the
  steps on which chain and claim depend, and lets anyone renew or release a lease.
- Message hashing, UUIDs and chunk ids: requests have equal hashes exactly when given equal, ids are fresh.
- Pattern matching on queries, headings, tables and distances: its results are inputs.
- The shape tests for geometries: their verdict is a field of each record.
- QuotaRedis.EveryHistoryConserves: one day and no expiry but that of the rate keys, because conservation
  is not claimed across a day or an expired reservation.
- Replay.StreamIsExact: heartbeats, disconnects and byte counts are left out.
- SchemaWidening.AcceptedStaysAcceptedIff: schemas with `oneOf`, `not` or other keywords outside the
  fragment, where a wider part can make the whole narrower. Objects are compared with their members in order.
- SchemaWidening.AdaptingOnlyWidens: the same fragment.
- HousingMapResult.BuildHousingMapResult: copied attributes, layer names and the applied filters are left
  out; they are filled in field by field.
- MapResult.BuildMapResult: display settings and the query summary are left out; plan and outputs are one
  list of pairs.
- Sse.ParseSse: decoding the JSON text is left out; the data is compared as printed.
- Documents.ChunkDocument: chunk ids, which hash document id, ordinal and content, and the copied document
  id, source and title are left out.
- The answer wording, prompts, retrieval scores and embeddings.
