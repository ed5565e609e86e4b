# Verified model of the inference boundary and the execution store

This project models, in Dafny, five parts of the repository and proves what they promise together:

1. **The admission journal** (`experiments/inference-boundary/policy.ts`, `router-policy.ts`, `boundary.ts`). `PolicyGate`
   is a class with an in-memory journal and a disk that holds a second copy. Every write ends in one of three ways: not
   written, written, or written but reported failed. Request handlers are program counters that interleave with each other,
   with the operator's calls, with crashes and with reopening. An invariant over all of that gives the safety theorems, and
   `BoundaryServer` is the serving process as objects whose states are the states of those runs.
2. **The grant and dispatch store** (`internal/store`, `internal/authority`, `internal/scheduler`). `Store` is a class whose
   methods are transactions over rows; every reading of the clock is an argument and may jump, and every opening has its own
   daemon boot. An invariant over every sequence of operations
   gives containment of authority, conservation of charges, and the accounting of attempts and grants.
3. **JSON and the chat stream** (`json.ts`, `protocol.ts`). `JsonReader` moves a cursor and fills arrays and objects in
   loops; `ChatStream` consumes chunks. Both are proved equal to functions about which the round trips, the independence of
   chunk boundaries and the fixed point of the printed output are proved. What is read is also stated without the readers:
   JSON by its grammar, a stream by the blocks, lines, payloads and messages of its input.
4. **The planner** (`planner.ts`, `transport.ts`, `native-transport.ts`). A session against an arbitrary transport, the chat
   transport that collects a completion from what its stream parser shows, and a conversation object whose client may call
   anything in any order.
5. **Exact decimals and the operator-interval pass** (`experiments/baseline`).

Each operation also has a statement of its own, in fields of its arguments and tables rather than through the function that
models it (`GateExact`, `BoundarySteps`, `AuthorityExact`, `StoreExact`, `StoreChanges`, `JsonGrammar`, `ChatTranscript`, `ConversationStory`):
when exactly it succeeds, and everything that it then changes.

Where the source changes state, a class or a loop does the same, and its contract ties it to a function on values; the
invariants and the theorems are about those functions. `hide` statements only make proofs cheaper.

Text in the JSON and stream parts is a sequence of UTF-16 code units, so lone surrogates are included. Three things come
from outside and are parameters: which number literals overflow or denote which integer, the checks of a tool call's
arguments, and the answers of authorities, transports, clocks and file systems.

## What the proofs found

- `drainAndReplace` (`policy.ts:322-341`) accepts a router policy while the journal is of schema 1 and does not change the
  schema. The file it writes is then refused by `validateJournal` (`policy.ts:46`) at the next open.
  `BoundaryTheorems.ReplacementExact` says a replacement is safe exactly when the new policy is a fixture policy;
  `RouterReplacementBreaks` is a run. It is the only way: after every run a journal is refused exactly if it holds a router
  policy under schema 1 (`BoundaryTheorems.EveryJournalIsAccepted`), and the safety theorems hold for all runs, those with
  such a step included.
- The stream normalises CRLF on the kept text again at every push (`protocol.ts:101`). That is harmless exactly when no
  carriage return comes right before a CRLF (`ChatChunks.NormalisationExact`), which is weaker than having no two carriage
  returns in a row; `ChatTheorems.SplittingShows` is an input of the remaining kind on which the cut decides the error.
- The second counting loop of `validateJournal` can never refuse what the first accepted
  (`JournalSteps.SecondCountIsRedundant`), and the refusal of a 65th decision never fires (`JournalSteps.NeverFull`).
- For validated facts the position comparison of targets in `CheckDispatch` never refuses on its own
  (`Scheduling.EvidenceInPosition`).
- The one-pass interval check differs from the pairwise test where intervals are empty. It accepts exactly the inputs in
  which no two intervals of one operator overlap and no empty one starts strictly inside another, or together with a longer
  one that comes earlier in the input (`Intervals.SweepIsExact`, for every input in any order); `Intervals.EmptyIntervals`
  shows both kinds.
- A receipt-gated stream may end without an end mark when only white space was kept (`protocol.ts:191`); but the end mark it
  then gives itself is put behind that text, and a space or tab in front of `data` makes the line an unknown field. It ends
  exactly when nothing but line ends was kept (`ChatContents.EndExact`).
- An expiry seen by the store does not always stick. A dispatch that the authority allows and that is refused afterwards
  returns without a commit (`dispatch.go:244-264`), and with it go the expiries of all other tasks' heads that it made: when
  the clock goes back, such a grant passes again (`StoreExpiry.RolledBackExpiry` is a run). `StoreExpiry.ExpiryIsSticky` says
  for every operation that expires heads exactly when the expiry stays.

## Model

| member | source | states |
|---|---|---|
| `Receipts.Reclassifies` | experiments/inference-boundary/router-policy.ts:98-133 | operations stored with a decision classify again to the disposition they were stored with, whatever the rest of the receipt said |
| `Receipts.SuccessMeansLastOriginalCompleted` | experiments/inference-boundary/router-policy.ts:112-133 | a consistent receipt proves success if and only if the handler is done, no operation is left unknown, and its last operation other than a refresh completed; it is pending exactly when one of the first two fails, and otherwise its operations and digest are kept |
| `Journals.ValidateJournal` | experiments/inference-boundary/policy.ts:41-92 | the loops over reservations, decisions, the joined requests and the counts accept exactly the journals of the declarative predicate: bounds, distinct ids, matching router records, re-classification, covered charges |
| `Journals.CheckReservations` | experiments/inference-boundary/policy.ts:46-52 | the reservation loop accepts exactly lists of fitting reservations with distinct ids |
| `Journals.CheckDecisions` | experiments/inference-boundary/policy.ts:53-72 | the decision loop accepts exactly decisions that fit, are distinct and agree with a live reservation of the same id |
| `Journals.CheckCounts` | experiments/inference-boundary/policy.ts:83-91 | joining reservations and decisions by request and counting the joined entries of an attempt decides exactly whether every attempt's count covers its distinct requests |
| `JournalSteps.SecondCountIsRedundant` | experiments/inference-boundary/policy.ts:85-91 | whenever every distinct charged request is covered by its attempt's count, the second counting loop passes too |
| `JournalSteps.NeverFull` | experiments/inference-boundary/policy.ts:208-214 | in a sound schema 2 journal a request that still holds a reservation and has no decision yet always finds room for one |
| `PolicyGates.PolicyGate.Persist` | experiments/inference-boundary/policy.ts:172-185 | memory, disk, failure flag and durable decisions after each of the three ends of a write |
| `PolicyGates.PolicyGate.Admit` | experiments/inference-boundary/policy.ts:264-300 | admission succeeds if and only if the gate lets it in, the binding speaks of the policy in force, the attempt is below its concurrency and its request count, the journal has room, every answer is good and the write is confirmed; then exactly one charge and one reservation are added, in memory and on disk; a refusal gives a reason that is true and leaves the tables |
| `PolicyGates.PolicyGate.MarkSend` | experiments/inference-boundary/policy.ts:215-223 | success if and only if the request holds an unsent routed reservation of an active gate, the authority is current, nothing interrupted and the write is confirmed; then its mark alone has changed, and it is on disk |
| `PolicyGates.PolicyGate.Finalize` | experiments/inference-boundary/policy.ts:224-240 | success if and only if a receipt proves success for a marked request and every check holds before and after the confirmed write; then the decision is on disk, with the classified operations and the digest of the completion |
| `PolicyGates.PolicyGate.RecordDecision` | experiments/inference-boundary/policy.ts:208-214 | a decision is appended once with the reservation's own fields, or only its delivery changes |
| `PolicyGates.PolicyGate.AssertRelease` | experiments/inference-boundary/policy.ts:200-207 | under schema 2, in a gate in step with its file, the answer is yes exactly if the gate is usable and in service, the request holds a routed reservation, the authority is current and the success is on disk |
| `PolicyGates.PolicyGate.Finish` | experiments/inference-boundary/policy.ts:301-321 | the ending of a request: settled by receipt, ruled never sent, dropped on quiescence, or left pending, then persisted; a good gate stays good and in step with its file |
| `PolicyGates.PolicyGate.Activate` | experiments/inference-boundary/policy.ts:241-263 | success if and only if every old reservation can be ruled on and written, the authority gives a valid policy of a fitting schema, says quiescent and the write is confirmed; then the journal holds that policy, the rulings in order and no reservation |
| `PolicyGates.PolicyGate.DrainAndReplace` | experiments/inference-boundary/policy.ts:322-341 | replaced exactly for the next epoch of the same route, nobody running, the authority quiescent and answering with that very policy, and three confirmed writes; told to wait exactly when drained but not quiet; memory and file stay good or in the one refused form |
| `PolicyGates.PolicyGate.Close` | experiments/inference-boundary/policy.ts:342-356 | success if and only if it was not shut, the write is confirmed, no mutation is uncertain and the owner is kept; the journal is closed either way, and nothing is taken back |
| `PolicyGates.OpenGate` | experiments/inference-boundary/policy.ts:113-130 | opening validates the file, closes its phase, and refuses what the journal check refuses; over a file that a gate left, a written open fails exactly on the one refused form |
| `GateExact.AdmitExact` | experiments/inference-boundary/policy.ts:264-300 | when exactly an admission succeeds, what it then changes, what a refusal leaves, and that every reason is true, in fields of journal, policy, binding and answers |
| `GateExact.ReservedForCounts` | experiments/inference-boundary/policy.ts:289-289 | the number compared with the concurrency limit is the number of places the attempt holds |
| `GateExact.MarkSendExact` | experiments/inference-boundary/policy.ts:215-223 | when exactly a mark is set; it changes the mark of that request and nothing else |
| `GateExact.FinalizeExact` | experiments/inference-boundary/policy.ts:224-240 | when exactly a success is recorded, and the decision that is recorded |
| `GateExact.FinishExact` | experiments/inference-boundary/policy.ts:301-321 | with a router record the reservation leaves exactly when it was never marked or its receipt is conclusive, and the decision is ruled and delivered; without one exactly when the request was never forwarded or the authority says quiescent; otherwise it stays, with its outcome |
| `GateExact.RecoverExact` | experiments/inference-boundary/policy.ts:241-263 | the recovery loop goes through if and only if each reservation in turn can be ruled on and written, and then it rules on all of them in order |
| `GateExact.ActivateExact` | experiments/inference-boundary/policy.ts:241-263 | when exactly an activation succeeds, and the journal it leaves |
| `GateExact.DrainAndReplaceExact` | experiments/inference-boundary/policy.ts:322-341 | when exactly a policy is replaced or the caller told to wait, and the journal after each |
| `GateExact.CloseExact` | experiments/inference-boundary/policy.ts:342-356 | when exactly closing succeeds, and the file it leaves |
| `GateExact.OpenExact` | experiments/inference-boundary/policy.ts:113-130 | an open succeeds if and only if there is no file or a valid one and the write is confirmed; it keeps everything but phase and generation |
| `BoundaryServers.BoundaryServer.Serve` | experiments/inference-boundary/boundary.ts:134-225 | each event of a run is one step of the objects, `finish` told exactly whether the request went upstream, so what holds after every run holds of the gate, the handlers and the file |
| `BoundaryServers.ServeAll` | experiments/inference-boundary/boundary.ts:134-225 | after serving any events the objects are in the state of that run: what was sent under a router policy is marked on disk, what was released has its success on disk, and the file is refused exactly in the one form |
| `BoundarySteps.MovesExactly` | experiments/inference-boundary/boundary.ts:134-203 | a handler is admitted, marked, forwarded or finalized by an event if and only if the conditions of that position hold for it |
| `BoundarySteps.SendsExactly` | experiments/inference-boundary/boundary.ts:153-203 | an event sends upstream, or releases to the worker, exactly the request of its handler, and exactly when the handler is there and the release is allowed |
| `BoundaryRuns.RunsAreLimited` | experiments/inference-boundary/policy.ts:284-300 | after every run, in memory and on disk, no attempt holds more reservations than the policy in force allows at once |
| `BoundaryRuns.AttemptsWithinConcurrency` | experiments/inference-boundary/policy.ts:289-289 | the same as the number of places an attempt holds against the concurrency limit |
| `BoundaryRuns.SentOnce` | experiments/inference-boundary/boundary.ts:153-163 | a request goes upstream at most once, only by the handler admitted under its id, and what was released was sent |
| `BoundaryRuns.PlaceFreedByAuthority` | experiments/inference-boundary/policy.ts:284-341 | in every run the place of a sent request without a router record is freed only by an event in which the authority says the work is quiescent |
| `BoundaryRuns.FinishFreesExactly` | experiments/inference-boundary/boundary.ts:210-218 | at its end a sent request without a router record stays reserved if and only if the authority did not call it quiescent; one never sent is gone; a confirmed write puts that on disk |
| `GateInvariant.AdmitSafe` | experiments/inference-boundary/policy.ts:264-300 | admission keeps memory and disk acceptable and adds at most the new request, whatever fails |
| `GateInvariant.MarkSendSafe` | experiments/inference-boundary/policy.ts:215-223 | marking keeps the invariant, and success means the mark is on disk |
| `GateInvariant.FinalizeSafe` | experiments/inference-boundary/policy.ts:224-240 | finalizing keeps the invariant, and success means the decision is on disk |
| `GateInvariant.FinishSafe` | experiments/inference-boundary/policy.ts:301-321 | finishing keeps the invariant, whatever the receipt says and whichever write fails |
| `GateInvariant.ActivateSafe` | experiments/inference-boundary/policy.ts:241-263 | activation, with every recovery step, keeps the invariant |
| `GateInvariant.DrainAndReplaceSafe` | experiments/inference-boundary/policy.ts:322-341 | replacement by any policy keeps memory and file good or in the one refused form, and takes nothing back |
| `GateInvariant.OpenedSafe` | experiments/inference-boundary/policy.ts:113-130 | opening over a good file never refuses it and takes nothing back; the one refused form is refused and left alone |
| `Boundary.NextKeeps` | experiments/inference-boundary/boundary.ts:134-225 | every step of handlers, operator, crash and reopening keeps the invariant that ties positions and history to the file |
| `BoundaryTheorems.EveryJournalIsAccepted` | experiments/inference-boundary/policy.ts:41-98 | after any run, with failed writes and crashes, the journal on disk or in memory is accepted by the check if and only if it does not hold a router policy under schema 1, and exactly then an open that can write succeeds |
| `BoundaryTheorems.NeverSentIsTrue` | experiments/inference-boundary/boundary.ts:144-163 | after any run, a request ruled never sent, in memory or on disk, was never transmitted |
| `BoundaryTheorems.TransmittedIsMarked` | experiments/inference-boundary/boundary.ts:153-163 | under a router policy whatever was transmitted is marked on disk as possibly sent |
| `BoundaryTheorems.ReleasedIsDurable` | experiments/inference-boundary/boundary.ts:189-203 | under a router policy completion frames left only with a validated success on disk |
| `BoundaryTheorems.AssertedIsDurable` | experiments/inference-boundary/policy.ts:200-207 | in every reachable state of schema 2 `assertRelease` says yes if and only if the gate is usable and in service, the request holds a routed reservation, the authority is current and the success is on disk |
| `BoundaryTheorems.DiskIsMonotone` | experiments/inference-boundary/policy.ts:172-185 | no continuation of a run takes back a decision, a send mark or a charge that is on disk |
| `BoundaryTheorems.SuccessIsForever` | experiments/inference-boundary/policy.ts:224-240 | a success once on disk stays there through every later run and crash |
| `BoundaryTheorems.ChargesAreExact` | experiments/inference-boundary/policy.ts:264-300 | under schema 2 each count is the number of distinct requests of its attempt and the journal never knows more than 64 |
| `BoundaryTheorems.SnapshotIsDurable` | experiments/inference-boundary/policy.ts:172-185 | decisions shown in a snapshot are on disk even while memory is ahead of the file |
| `BoundaryTheorems.ReplacementExact` | experiments/inference-boundary/policy.ts:322-341 | a replacement that can go through over an acceptable file leaves an acceptable file in every world if and only if the new policy is a fixture policy |
| `BoundaryTheorems.RouterReplacementBreaks` | experiments/inference-boundary/policy.ts:322-341 | a concrete run, with policies that pass validation, after which the next open refuses the file |
| `Authority.WithinReflexive` | internal/authority/grant.go:306-352 | a valid envelope lies within itself |
| `Authority.WithinTransitive` | internal/authority/grant.go:306-352 | containment composes |
| `Authority.WithinAntisymmetric` | internal/authority/grant.go:125-148 | mutual containment is equality, because every list is strictly sorted |
| `Authority.RouteKeyInjective` | internal/authority/grant.go:136-137 | the separator keeps the two parts of a route key apart |
| `Authority.ReplacementForward` | internal/authority/grant.go:272-302 | what a passed replacement means for brief, plan, decision and every pair of routes of one key |
| `Authority.RoutesNeverRollBack` | internal/authority/grant.go:261-302 | in a history checked pairwise, a route key never comes back older, even if the grants between dropped it |
| `Authority.HeadSufficesForRevisions` | internal/authority/grant.go:261-271 | for brief, plan and route decision, checking only the head gives the same |
| `Authority.HeadDoesNotSufficeForRoutes` | internal/authority/grant.go:272-302 | three valid envelopes that pass head by head while the third rolls a route back |
| `AuthorityExact.ValidateExact` | internal/authority/grant.go:168-241 | which envelopes are valid, in plain fields |
| `AuthorityExact.WithinExact` | internal/authority/grant.go:306-352 | containment is validity of both, the same subject, and nothing wider in any list, window or budget |
| `AuthorityExact.CheckGrantExact` | internal/authority/grant.go:356-386 | a request passes a grant if and only if it is one to execute under its id, task and revision, now, inside it, on one route, runner and kind of task |
| `AuthorityExact.ReplacementExact` | internal/authority/grant.go:272-302 | an envelope may succeed another if and only if every revision moves forward or is the very same and no route goes back, with a new decision for a new route |
| `Scheduling.SublistOfEqualLength` | internal/scheduler/eligibility.go:299-310 | a strictly sorted list of members of another is no longer, and equally long only if equal |
| `Scheduling.EvidenceInPosition` | internal/scheduler/eligibility.go:141-148 | in validated facts, as many evidence entries as targets already means entry by entry equality |
| `Scheduling.EveryFallbackCovered` | internal/scheduler/eligibility.go:266-281 | every target an admitted dispatch may fall back to has compatible evidence with the required capabilities and bounds |
| `Scheduling.DispatchWithinLocal` | internal/scheduler/eligibility.go:229-238 | an admitted request lies inside the local policy scope |
| `AuthorityExact.ValidateFactsExact` | internal/scheduler/eligibility.go:131-156 | which facts are valid, in plain fields |
| `AuthorityExact.ValidateDecisionExact` | internal/scheduler/eligibility.go:157-185 | which decisions are valid, in plain fields |
| `AuthorityExact.CheckDispatchExact` | internal/scheduler/eligibility.go:192-295 | facts serve a request if and only if they are current, enabled, authenticated, of this repository, runner and route, inside the local scope, well isolated, and every fallback target has the evidence and the bounds |
| `Stores.Store.ChangeExecution` | internal/store/grants.go:105-224 | approval and restriction: replay, compare-and-set of the head, continuity, narrowing, supersession, insertion |
| `Stores.Store.ReplaceAll` | internal/store/grants.go:164-181 | the row loop refuses exactly when the newest offending retained grant does |
| `Stores.Store.InvalidateExecution` | internal/store/grants.go:229-265 | one invalidation per head; an exact repetition is accepted, a competing one refused |
| `Stores.Store.ExpireRows` | internal/store/grants.go:319-324 | exactly the due heads get an expiry row, in the order of their ids |
| `Stores.Store.CheckExecution` | internal/store/grants.go:271-317 | the decision after expiry; the expiry is kept even when the request is refused |
| `Stores.Store.ExecutionInvalidations` | internal/store/grants.go:338-372 | one page of the signal after a cursor, with expiry made durable first |
| `Stores.Store.Reserve` | internal/store/dispatch.go:357-441 | the row loop adds up what the task was ever charged and applies every ceiling |
| `Stores.Store.ChargeRow` | internal/store/dispatch.go:388-414 | one row: released, known, and added dimension by dimension without passing 2^53-1 |
| `Stores.Store.Dispatch` | internal/store/dispatch.go:208-319 | replay is a read; a refusal of authority keeps the expiry, any other rolls back; admission inserts attempt, event and dispatch together |
| `Stores.Store.Deliver` | internal/store/dispatch.go:517-581 | delivery expires grants at one reading of the clock, then repeats authority, eligibility and placement checks at another, and needs an assigned, unreleased attempt |
| `Stores.Store.AcknowledgeAssignment` | internal/store/dispatch.go:587-654 | an exact replay succeeds before any check; anything else must be deliverable now, under the boot of the running daemon, and use a new message id |
| `Stores.Store.StopDispatch` | internal/store/dispatch.go:658-695 | the stop is recorded and an assigned attempt moves to stopping with its event |
| `Stores.Store.ReconcileDispatch` | internal/store/dispatch.go:714-773 | terminal transition, event and release in one transaction, on complete evidence only |
| `Stores.Store.Restart` | internal/store/recovery.go:12-51 | the new boot and the recovery are one transaction, and checking every uncertain attempt first and moving them afterwards equals moving them one by one |
| `Stores.Store.PublishEligibility` | internal/store/dispatch.go:97-156 | revisions in sequence, pairing fixed, no second pairing of one repository and root |
| `Stores.Perform` | internal/store/dispatch.go:208-773 | each operation of a run is one call on the object, so what holds after every run holds of the object's tables |
| `StoreExact.ExpiryExact` | internal/store/grants.go:319-324 | an expiry adds exactly one row for each standing head whose time is up, in the order of ids, and changes nothing else |
| `StoreExact.AuthorizedExact` | internal/store/grants.go:295-317 | after the expiry of the same moment a request is authorized if and only if its grant is the standing head of its task and lets it execute |
| `StoreExact.CheckExecutionExact` | internal/store/grants.go:271-293 | when exactly the check passes, and that the expiry stays either way |
| `StoreExact.PageExact` | internal/store/grants.go:338-372 | a page holds the rows right after the cursor, as many as asked for or left |
| `StoreExact.PagesCover` | internal/store/grants.go:338-372 | a consumer that reads on after what it has reads every row exactly once and in order, whatever the page size |
| `StoreExact.TallyExact` | internal/store/dispatch.go:374-415 | the charging loop goes through if and only if every retained dispatch of the task is released, known under these ceilings and the sums stay safe; then it holds the sums, the number and the earliest time |
| `StoreExact.ReserveExact` | internal/store/dispatch.go:357-441 | a reservation is possible if and only if the runner has what is wanted, nothing is unresolved, and number, time and every sum stay within the ceilings |
| `StoreExact.DispatchExact` | internal/store/dispatch.go:208-319 | a new dispatch is admitted if and only if it is well formed, its task is not stopped, its grant authorizes it, the newest facts serve it, the profile is found and selects them, the runner is enabled and equipped, nothing is unresolved, and it is affordable; then exactly one attempt, event and dispatch of the next epoch are written; a known one is only read |
| `StoreChanges.ChangeExact` | internal/store/grants.go:105-224 | a grant enters if and only if it is valid, new, unexpired, after the expected head in revision, following every earlier one, and approved or inside a live head of the same actor; then exactly it, its head and the row that ends the one before are written |
| `StoreChanges.InvalidateExact` | internal/store/grants.go:229-265 | when exactly an invalidation is accepted, and the one row it writes |
| `StoreChanges.DeliveryExact` | internal/store/dispatch.go:517-581 | a dispatch is delivered if and only if its runner asks and is enabled, the attempt is assigned, unreleased and unstopped, and authority, facts and placement hold again |
| `StoreChanges.AcknowledgeExact` | internal/store/dispatch.go:587-654 | when exactly an acknowledgement is taken, and that it writes exactly its receipt |
| `StoreChanges.StopExact` | internal/store/dispatch.go:658-695 | when exactly a stop goes through, and what it writes |
| `StoreChanges.ReconcileExact` | internal/store/dispatch.go:714-773 | a reconciliation goes through if and only if the owner brings complete evidence under the right identity and revision for an attempt that may end so; then exactly the move, its event and the release are written |
| `StoreChanges.RestartExact` | internal/store/recovery.go:12-51 | reopening fails exactly when some uncertain attempt has no next revision; otherwise each uncertain attempt, and no other, becomes unknown with one event, in order |
| `StoreChanges.PublishExact` | internal/store/dispatch.go:97-156 | facts are published if and only if the owner offers valid ones, next in revision, of the same pairing that nobody else has; an exact repetition changes nothing |
| `StoreChanges.AdmissionsAreExact` | internal/store/dispatch.go:208-319 | in every run a dispatch comes in only by an admission all of whose conditions hold |
| `GrantInvariant.ChangeKeeps` | internal/store/grants.go:105-224 | a grant change keeps ranks, heads, continuity, containment in the approval and single invalidation |
| `GrantInvariant.ExpireKeeps` | internal/store/grants.go:319-324 | expiry keeps them, touches nothing else, and reaches every due head |
| `DispatchInvariant.TallyIsSum` | internal/store/dispatch.go:374-415 | what the charging loop computes is the true sum, the true count and the earliest time |
| `DispatchInvariant.AdmittedKeeps` | internal/store/dispatch.go:275-314 | an admission keeps charges, epochs, the single active attempt, releases and event replay |
| `DispatchInvariant.ReconciledKeeps` | internal/store/dispatch.go:714-773 | so does a reconciliation |
| `DispatchInvariant.RecoveredKeeps` | internal/store/recovery.go:12-51 | so does a restart |
| `StoreTheorems.RunsAreGood` | internal/store/dispatch.go:208-319 | both invariants hold after every sequence of operations |
| `StoreTheorems.HistoryOnlyGrows` | internal/store/dispatch.go:697-773 | grants, invalidations, events, charges, releases, acknowledgements and stops stay, and a terminal attempt never changes |
| `StoreResults.ChargesConserved` | internal/store/dispatch.go:357-441 | all charges of a task, released or not, lie within the ceilings of its latest request in five dimensions and in number; under a cost cap every cost is known; no partial sum passes 2^53-1 |
| `StoreResults.AttemptsAreAccounted` | internal/store/dispatch.go:268-307 | at most one attempt is unresolved, epochs are 1 to n, terminal means released and back, and each row is the replay of its own events, as many as its revision |
| `StoreResults.UnresolvedBlocksAll` | internal/store/dispatch.go:367-373 | while any attempt is unresolved nothing is dispatched |
| `StoreResults.GrantsAreAccounted` | internal/store/grants.go:105-224 | a task's grants have exactly the revisions 1 to n in order, the head is the n-th, at most it is live, all others were invalidated, each once |
| `StoreResults.RoutesMoveForward` | internal/store/grants.go:164-181 | over a task's whole history no route key, brief or plan goes back |
| `StoreResults.AdmissionContained` | internal/store/dispatch.go:208-264 | every admitted allowance lies inside the last approved envelope and inside the local scope of the newest facts that the decision names, which are the facts kept with the dispatch, under the live head, unstopped |
| `StoreResults.InvalidatedForever` | internal/store/grants.go:295-317 | an invalidated grant never passes a check again, whatever the clock says |
| `StoreExpiry.ExpiryCommits` | internal/store/dispatch.go:244-264 | every operation that expires heads leaves exactly the invalidations of that expiry, or rolls back and leaves every table as it was |
| `StoreExpiry.ExpiryIsSticky` | internal/store/grants.go:282-293 | whatever operation saw that a head's time is up, the head is invalidated by it if and only if its transaction commits; then the grant is refused for good, even if the clock goes back, and otherwise nothing has changed |
| `StoreExpiry.RolledBackExpiry` | internal/store/dispatch.go:244-258 | a run in which a head seen expired by a refused admission of another task passes again at an earlier clock, and does not when a read of the signal saw it |
| `StoreResults.StopIsSticky` | internal/store/dispatch.go:321-330 | after a stop nothing of the task is dispatched, delivered or newly acknowledged |
| `StoreReceipts.ReceiptsAreTrue` | internal/store/dispatch.go:614-654 | in every run each receipt names the dispatch it is kept under, the attempt's identity and the boot of its runner |
| `StoreReceipts.OnlyTheRunningBoot` | internal/store/dispatch.go:626-654 | a receipt comes in only by an acknowledgement under the boot of the running daemon, of an assigned attempt neither released nor stopped, with an unused message id |
| `StoreReceipts.ReceiptsReplay` | internal/store/dispatch.go:583-625 | a retained receipt may be repeated exactly at any later time, also after restarts under other boots, a stop, an expiry or the release; any other message under its id is refused; neither changes a table |
| `StoreResults.ReplayIsRead` | internal/store/dispatch.go:233-243 | repeating an admitted dispatch at any later time returns it and changes nothing |
| `StoreResults.SignalReplays` | internal/store/grants.go:326-372 | a page of invalidations once read is a prefix of the same page read later |
| `JsonReaders.ParseJSON` | experiments/inference-boundary/json.ts:2-55 | the cursor reader returns exactly what the reading function defines, or nothing |
| `JsonReaders.JsonReader.Value` | experiments/inference-boundary/json.ts:16-51 | one value from the cursor, with the cursor left right after it |
| `JsonReaders.JsonReader.Members` | experiments/inference-boundary/json.ts:20-34 | the object loop, with repeated and reserved names refused |
| `JsonReaders.JsonReader.String` | experiments/inference-boundary/json.ts:6-15 | the scan for the closing quote finds the token that the escapes define |
| `JsonRoundTrip.QuotedReads` | experiments/inference-boundary/json.ts:6-15 | every string, control characters and lone surrogates included, is read back from its token |
| `JsonRoundTrip.PrintedReads` | experiments/inference-boundary/json.ts:16-51 | what is printed for a value is read back as that value at any depth that leaves room for its height, whatever follows |
| `JsonGrammar.NumberExact` | experiments/inference-boundary/json.ts:45-46 | the number pattern is the grammar of sign, digits without leading zero, fraction and exponent |
| `JsonGrammar.InsideExact` | experiments/inference-boundary/json.ts:6-15 | the inside of a token is read exactly unit by unit: itself, a letter escape or four hexadecimal digits |
| `JsonGrammar.ParseExact` | experiments/inference-boundary/json.ts:2-55 | a text is read as a value if and only if it spells that value by the grammar, in any spacing and with any escapes, and the value is at most 32 deep with finite numbers and admissible names |
| `JsonCanonical.BeforeExact` | experiments/inference-boundary/json.ts:61-61 | names are ordered by their first different code unit, beginnings first |
| `JsonCanonical.CanonicalInOrder` | experiments/inference-boundary/json.ts:57-64 | the canonical text has the names of every object in that order at every depth |
| `JsonCanonical.PrintIsShortest` | experiments/inference-boundary/json.ts:57-64 | no text that reads as a value without lone surrogates is shorter than its print |
| `JsonCanonical.QuoteExact` | experiments/inference-boundary/json.ts:61-63 | what is printed for a string spells it and never holds half of a surrogate pair |
| `JsonTheorems.RoundTrip` | experiments/inference-boundary/json.ts:2-64 | reading what is printed gives the value back |
| `JsonTheorems.Readable` | experiments/inference-boundary/json.ts:2-55 | a value is the reading of some text if and only if its height is at most the limit, its numbers are finite and its names admissible at every depth |
| `JsonTheorems.StrictIsLenientAndNamed` | experiments/inference-boundary/json.ts:27-27 | the strict reader is the lenient one restricted to values with distinct, unreserved names at every depth |
| `JsonTheorems.CanonicalReads` | experiments/inference-boundary/json.ts:57-64 | reading the canonical text gives the value with sorted members, which means the same |
| `JsonTheorems.CanonicalSeparates` | experiments/inference-boundary/json.ts:57-64 | two values have the same canonical text if and only if they are the same up to the order of members |
| `ChatStreams.ChatStream.Push` | experiments/inference-boundary/protocol.ts:90-186 | one chunk: the frames shown, whether it meant something, the new state or the refusal |
| `ChatStreams.ChatStream.Block` | experiments/inference-boundary/protocol.ts:103-116 | the field lines of one block, comments skipped, unknown fields and other events refused |
| `ChatStreams.ChatStream.Payload` | experiments/inference-boundary/protocol.ts:117-154 | end mark, duplicate end mark, error, usage and choice frames in the source's order |
| `ChatStreams.ChatStream.Finish` | experiments/inference-boundary/protocol.ts:121-136 | the completion frames, prepared only for consecutive calls with acceptable arguments |
| `ChatStreams.ChatStream.Choice` | experiments/inference-boundary/protocol.ts:153-182 | content, tool-call parts and finish reason of one frame, as the function whose meaning `ChatParts.PartsExact` and `ChatTranscript.TranscriptIsAccepted` state, with what is already shown when a later part is refused |
| `ChatStreams.ChatStream.End` | experiments/inference-boundary/protocol.ts:187-194 | completion only after the end mark, or for a receipt-gated stream that may do without it |
| `ChatParts.PartsExact` | experiments/inference-boundary/protocol.ts:163-178 | for any calls held before, a list of parts is accepted if and only if each is well formed and names its call exactly when it is the first; then the arguments at each index are those before followed by the texts of its parts from left to right, and id and name are those of the part that introduced the call |
| `ChatLines.NormalizeExact` | experiments/inference-boundary/protocol.ts:100-101 | normalising replaces exactly the line ends CRLF |
| `ChatLines.CutExact` | experiments/inference-boundary/protocol.ts:102-103 | there is one way to cut a text into blocks that end at the first empty line, and the loop takes it |
| `ChatLines.BlockExact` | experiments/inference-boundary/protocol.ts:104-113 | a block is read if and only if every line is empty, a comment, data or an event; its data are those lines in order and its event the last one named |
| `ChatTranscript.AcceptedHasTranscript` | experiments/inference-boundary/protocol.ts:117-183 | whatever list of payloads is accepted is that of a transcript: messages of which only the last has a finish reason, a usage frame where the profile has one, the end mark, its one repetition |
| `ChatTranscript.TranscriptIsAccepted` | experiments/inference-boundary/protocol.ts:117-183 | every list of payloads of a transcript is accepted, and leads to the shown contents, calls, finish reason, usage and completion frames that the transcript says |
| `ChatTranscript.RefusalExact` | experiments/inference-boundary/protocol.ts:117-183 | a refused payload is a failure of the upstream if and only if it says an error before the end; its content has been shown if and only if everything before the content was in order |
| `ChatContents.StreamExact` | experiments/inference-boundary/protocol.ts:90-186 | in whatever chunks it comes, an input is accepted if and only if its complete blocks are lines whose payloads are those of a transcript |
| `ChatContents.StreamHolds` | experiments/inference-boundary/protocol.ts:90-186 | then it has shown the contents of its messages in order, holds exactly the calls their parts add up to, and keeps the text after the last block |
| `ChatContents.StreamRefusal` | experiments/inference-boundary/protocol.ts:90-186 | a refused input: the blocks before the refused one are those of a transcript, their contents have been shown, and why the block is refused |
| `ChatContents.EndExact` | experiments/inference-boundary/protocol.ts:187-194 | a stream completes if and only if the end mark came with only blanks after it, or it may end itself, may finish and has kept nothing but line ends; it completes with the calls in position, the finish reason, usage and the end mark |
| `ChatContents.FrameExact` | experiments/inference-boundary/protocol.ts:87-89 | every printed frame reads back with the id of the request, the model of the policy, and exactly its delta and finish reason |
| `ChatContents.UsageExact` | experiments/inference-boundary/protocol.ts:134-134 | the usage frame shows the three counts under their own names |
| `ChatChunks.NormalisationExact` | experiments/inference-boundary/protocol.ts:99-101 | normalising the kept text again at any cut is harmless if and only if no carriage return comes right before a CRLF |
| `ChatChunks.PushTwice` | experiments/inference-boundary/protocol.ts:95-186 | two pushes equal one push of both chunks, in frames, state and first refusal |
| `ChatChunks.SplittingInvisible` | experiments/inference-boundary/protocol.ts:90-186 | however the same input is cut, frames, meaning, state and first error are the same |
| `ChatTheorems.SplittingShows` | experiments/inference-boundary/protocol.ts:99-116 | an input with a carriage return before a CRLF whose error depends on the cut |
| `ChatFrames.FrameReads` | experiments/inference-boundary/protocol.ts:102-116 | a printed frame is exactly one block with exactly its payload |
| `ChatFixpoint.ContentAgain` | experiments/inference-boundary/protocol.ts:159-162 | a shown content frame makes a second parser show the same frame |
| `ChatFixpoint.CallsAgain` | experiments/inference-boundary/protocol.ts:163-178 | the shown tool-call frame gives a second parser the same calls under the local ids |
| `ChatTheorems.OutputIsFixpoint` | experiments/planner-probe/transport.ts:72-105 | on everything an accepted stream showed, cut in any way, a second parser shows and completes with exactly the same frames |
| `History.ValidateHistory` | experiments/inference-boundary/protocol.ts:22-53 | the loop over messages accepts exactly the histories in which calls are new, answers belong to open calls and a turn changes only when all are answered |
| `History.EachCallAnsweredOnce` | experiments/inference-boundary/protocol.ts:36-53 | in an accepted history each call is answered exactly once, later, and before the turn changes |
| `Conversation.ProjectOutput` | experiments/planner-probe/native-transport.ts:73-106 | the projection loop accepts exactly outputs with distinct ids, at most one permitted call and no call beside text, and keeps the order |
| `ConversationTheorems.NativeConversation.Request` | experiments/planner-probe/native-transport.ts:119-126 | a request is handed out only when ready, with tools only in the assessment |
| `ConversationTheorems.NativeConversation.Finish` | experiments/planner-probe/native-transport.ts:182-204 | only the expected request is completed, once, and any failure ends the transport |
| `ConversationTheorems.NativeConversation.TakeCalls` | experiments/planner-probe/native-transport.ts:131-135 | the released continuation enters the history and its one call becomes pending |
| `ConversationTheorems.NativeConversation.Answer` | experiments/planner-probe/native-transport.ts:136-140 | only the pending call is answered, under its own id, as the step whose output `ConversationStory.OutputsAreReads` follows into every later request |
| `ConversationTheorems.NativeConversation.AskRepair` | experiments/planner-probe/native-transport.ts:141-147 | a repair only of the released completion, without calls, and only once |
| `ConversationTheorems.HistoriesExtend` | experiments/planner-probe/native-transport.ts:108-148 | for every order of client calls: at most three requests, only the first with tools, each history extends the one before, at most one call, answered under its id, and at most one repair |
| `ConversationStory.ProjectionExact` | experiments/planner-probe/native-transport.ts:73-106 | an output is accepted if and only if it says a completion: items replayed one by one in order, the text of its messages, its only call |
| `ConversationStory.ActTold` | experiments/planner-probe/native-transport.ts:119-204 | each call does what the story of the conversation says and is refused exactly when the story has no place for it |
| `ConversationStory.EveryRunIsTold` | experiments/planner-probe/native-transport.ts:108-148 | for every order of calls the state shows a story of whole turns, each of which comes from the accepted call and the completion before it |
| `ConversationStory.HistoriesAreTold` | experiments/planner-probe/native-transport.ts:119-147 | each request carries the two first messages and then, in order, the released continuations, each followed by the very output that was read or by the repair instruction |
| `ConversationStory.OutputsAreReads` | experiments/planner-probe/native-transport.ts:136-140 | whatever answer to a call a request carries, it is the text of an accepted read of that very call |
| `PlannerSessions.PlannerSession.Complete` | experiments/planner-probe/planner.ts:80-90 | every request is charged once, small enough and with at most six messages, carries the first messages and the turns of all completions before it, and passes the history check if the chat transport gives call ids; if nothing is sent or answered, why |
| `PlannerSessions.PlannerSession.Send` | experiments/planner-probe/planner.ts:85-89 | what is sent stays charged; a completion is the transport's own answer to it, and without one the request failed or was cancelled |
| `PlannerSessions.PlannerSession.ReadAll` | experiments/planner-probe/planner.ts:97-107 | a round that succeeds used up a file, leaves no call open, and the call is answered with the file's evidence; one that does not says why |
| `PlannerSessions.PlannerSession.Propose` | experiments/planner-probe/planner.ts:110-120 | the plan of a completion without calls, or of its one repair, is proposed if and only if it is valid |
| `PlannerSessions.PlannerSession.Attempt` | experiments/planner-probe/planner.ts:91-120 | the loop ends within every allowance against any transport; a plan is proposed if and only if the last request was answered with a valid one, and it is that plan; every other end says truly why; the first request offers the file exactly where it may be read |
| `PlannerSessions.PlannerSession.Run` | experiments/planner-probe/planner.ts:64-124 | the first call executes and reports that; later calls return the same result and spend nothing |
| `Transport.CollectsExactly` | experiments/planner-probe/transport.ts:67-105 | from an accepted stream, however cut, the transport collects the text of every content frame in order and exactly the calls that the parser held at the end, in their positions, under distinct local ids of the form of call ids, with acceptable arguments |
| `Transport.CollectsTheInput` | experiments/planner-probe/transport.ts:67-105 | what the transport collects is what its input sent: the contents of the messages in order, and the calls their parts add up to under ids of its own |
| `Transport.StreamsGiveCallIds` | experiments/planner-probe/transport.ts:72-79 | over the stream parser every id that reaches the session has the form the history check asks |
| `Transport.SentPasses` | experiments/planner-probe/transport.ts:67-68 | so every chat request that a session sends in any run passes the history check |
| `Planner.PlanExact` | experiments/planner-probe/planner.ts:23-34 | a plan is valid if and only if it is for this revision, repeats no criterion and no step, refers only to listed criteria, and cites the file only if it was read |
| `Planner.CallTurnGood` | experiments/planner-probe/transport.ts:56-57 | a call with a valid id and its answer turn an acceptable chat history without calls into an acceptable one |
| `Planner.RepairTurnGood` | experiments/planner-probe/transport.ts:58-62 | the repair turn keeps a chat history acceptable, with the refused text left out when it is blank |
| `Decimals.SumIsExact` | experiments/baseline/decimal.ts:12-15 | at every scale that can hold the values the sum counts what they count together |
| `Decimals.SumIsAdditive` | experiments/baseline/decimal.ts:12-15 | the sum of two lists together is the sum of their sums, that of one value is that value, and that of none is zero |
| `Decimals.SumIgnoresOrder` | experiments/baseline/decimal.ts:12-15 | any permutation of the values gives the identical sum |
| `Decimals.TextReadsBack` | experiments/baseline/decimal.ts:19-23 | the text of a non-negative value reads back to the same number |
| `Decimals.TextIsCanonical` | experiments/baseline/decimal.ts:19-23 | two non-negative values have the same text if and only if they are the same number |
| `Decimals.ExcessIsExact` | experiments/baseline/decimal.ts:29-32 | the excess is the larger of zero and value minus cap, exactly |
| `Decimals.NumeralIsExact` | experiments/baseline/decimal.ts:5-10 | what is read from a number's text stands for its sign, digits and power of ten |
| `Intervals.CheckOperators` | experiments/baseline/collect.ts:41-45 | for intervals in any order the sorted pass accepts exactly when no two of one operator overlap and no empty one is hidden in another |
| `Intervals.SweepIsExact` | experiments/baseline/collect.ts:41-45 | sorting and passing once is the pairwise condition on the input list: no overlap within one operator, and no empty interval strictly inside another or together with an earlier listed longer one |
| `Intervals.Sweep` | experiments/baseline/collect.ts:42-45 | keeping only the last interval of each operator is enough for that |
| `Intervals.SweepIsPairwise` | experiments/baseline/collect.ts:41-53 | whatever is accepted has no pairwise overlap of one operator; for positive lengths exactly that is accepted |
| `Intervals.EmptyIntervals` | experiments/baseline/collect.ts:41-45 | where an empty interval makes the pass differ from the pairwise test |

## Left out

- The order in which several failing conditions of a store operation are reported: the model follows it, and the theorems say
  which requests pass, what is written and what a refusal leaves, not which code comes first.
- Policy schema 3 (native inference policies), its history validation and its stream.
- PolicyGates.PolicyGate.Admit: the checks of policy schema 3 (native binding, request and planner packet) are not modelled.
- Byte-size limits of files, bodies and texts, and UTF-8 decoding; sizes appear as arbitrary functions where they refuse.
- Long field-by-field validators and regular expressions beyond the fields that a proof needs (of `validateRouterPolicy`
  the envelope, the nodes, the fixed settings and the graph's digest; most of the repository and runtime selectors,
  `validateRun`, `validateRegistration`, the plan schema).
- HTTP, sockets, timers and abort signals: a deadline, revocation or broken connection is a step that may happen any time.
- `RouterAuthority` of the bridge: only the answers it may give, as outcomes of the gate's calls.
- The gate's authority calls and writes inside one serialised action are outcomes chosen by the world, not steps of their own.
- SQL, the JSON encoding of columns, corrupt rows, and the difference between an absent and an empty list in Go.
- The `tasks` table, the status snapshots, `PendingAssignments`, and `assign` and `transition` of `store.go`.
- The generation of a store never changes here, so a stale generation cannot be met.
- Hashes and derived identifiers are taken as injective, random identifiers as never repeating; `hashDocument` compares by value.
- Floating point: a number in JSON is its literal, so `1.0` and `1` are different values here, and which literals overflow or
  are integers is given from outside.
- The usage frame is in the stream's steps but not in the fixed point.
- ChatTheorems.OutputIsFixpoint: stated for profiles without a usage frame, a request id that fits into a call id, and the
  same model name and argument check on both sides, as the boundary and the planner's transport have them.
- Intervals.CheckOperators: assumes that no interval ends before it starts, which the validators of a run check.
- The pairwise case-overlap and quiescence violations, the usage totals and the rows of `collectDataset`.
- JsonTheorems.CanonicalSeparates: the printer is modelled on sorted members and their printing, not on string sorting in place.
