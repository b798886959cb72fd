# The onlyne messaging core, modelled and proved in Dafny

The library in `packages/lib` lets nodes exchange signed messages over a transactional key-value
store. This project models the parts of it whose guarantees span many functions and whole runs,
and proves those guarantees for every input, every run and every reachable state:

- **Trust and key rotation** (`Trust*.dfy`, `NonceCache.dfy`): any number of nodes and a network
  that loses, repeats and reorders signed statements. A signature is the fact that a key signed a
  payload; anybody may sign anything with a key of their own.
- **Message admission** (`Admission*.dfy`): the owner's log of numbered entries, its identities,
  idempotency bindings, reply permits, attention and tombstones.
- **Client delivery** (`Outbound*.dfy`, `Consumption*.dfy`, `Waiter*.dfy`): the outbound record
  machine, inbox rows and confirmed consumption, live awaits.
- **The substrate** (`JsonText.dfy`, `Canonical*.dfy`, `RecordKeys.dfy`, `MemoryStorage.dfy`,
  `Mutations.dfy`, `Paging.dfy`, `History*.dfy`): canonical text, record keys, buffered
  transactions, idempotent mutation, paging, and the history projection.
- **Two queues** (`Render*.dfy`, `Pull*.dfy`): rendering a thread to a platform and the leased
  pull inbox.

Each part has the same shape. A `...Model` module gives the records as datatypes and every
transaction as a function on them. A `...Runs` module (or `TrustWorld`) turns the transactions
into labelled steps, defines a run as any sequence of enabled steps, and carries the invariants
and the theorems about all runs. A `...Service` module is the code's own form: a class whose
methods update fields, loop over rows and compress paths, each proved against the model's
function. `Messages.dfy`, `Chains.dfy` and `Prelude.dfy` hold what several parts share.

## Where the code falls short of what one would expect

Each of these is stated as a condition that decides it, with an input that shows the failure.

- *Rotation continuity.* Four things break it, each with a run from the initial world.
  (1) `rotate` reads its peer list in one transaction, commits in another and swaps the key after
  both; a relation that begins in between gets no rotation statement
  (`TrustScenarios.RotateRaceLosesPeer`). At the swap a pinning peer is kept exactly when its
  statement is stored (`TrustLimits.SwapExact`), before the commit exactly when the list holds it
  (`CommitExact`). (2) The list leaves a peer out exactly when its row is revoked or neither side's
  approval stands, and a whole rotation keeps a pinning peer exactly when the list has it
  (`RotationExact`). A late statement with `approved` false takes back the last approval and so
  loses the peer at the next rotation (`WithdrawalLosesPeer`); one that is followed by no rotation,
  or by a new approval first, loses nobody. (3) The re-drive pass reads the own key before the
  window; when the swap completes in between, it takes the window for a crash leftover and abandons
  the rotation after the swap (`LateAbandonLosesPeer`). An abandonment can lose a peer that waits
  for its statement exactly when the window's key is already in use (`AbandonExact`), and only a
  key read before the swap abandons late (`LateMeansStale`). (4) A row may hold the key of a
  stranger, who then answers the rotation statement in the peer's name (`ImpostorLosesPeer`). While
  the row, or a seed configured for it, holds a key of any node of the world, even of the wrong
  one, every reply accepted in the peer's name is the peer's own
  (`TrustImpostor.HonestRowHearsItsPeer`). Otherwise some quiet run loses the peer from every state
  in which the statement is owed after the swap (`ImpostorTakesPeer`), and from an established
  relation all quiet runs keep the peer exactly when one of the two keys is a node's
  (`HonestRowExact`).
  `TrustContinuity.RotationContinuity` holds for every run without a revocation between the two
  nodes and without (2), (3) or a reply of (4), from any rotation stage outside (1).
- *Nonce cache.* The cache that deletes old nonces judges like an unbounded one exactly when no
  accepted nonce comes back under a newer timestamp after its first one was deleted
  (`NonceCache.CacheAgreement`, `ReusedNonceAcceptedTwice`).
- *Local inbox paging.* `inbox()` pages by list index. It shows no row twice exactly when no row
  arrives in front of the cursor (`Paging.IndexPagingExact`, `InboxWalkRepeats`).
- *History paging.* The history list is sorted by locale and its cursor compared by code unit. A
  walk over an unchanging list shows exactly its rows, at every page size, if and only if the list
  ascends by code unit too (`Paging.ListOrderExact`, `HistoryWalkDropsRow`).
- *Presenting an entry once.* The client never asks for an entry where it was confirmed, but a
  host may answer that it used another context. Before the call the records tell whether that can
  show it again: exactly when the entry is confirmed in a context other than the one asked for
  (`ConsumptionRuns.RepeatsExactlyWhereConfirmed`, `RedirectionRepeats`).
- *Chained waiters.* A chain of waiters for one message is safe exactly when they all expect one
  author (`Waiters.SafeExactlyWithOneAuthor`). They do: waiters take their author from a slot that
  never changes it, whatever commits race (`WaiterRuns.WaitersExpectTheSlotsAuthor`).

## Model

| member | source | states |
|---|---|---|
| NonceCache.CacheAgreement | packages/lib/src/keys.ts:603-608 | for every ordered sequence of arrivals, the purging cache and an unbounded one judge all of them alike if and only if no arrival reuses an accepted nonce under a fresh timestamp after the first was purged |
| NonceCache.AgreementAt | packages/lib/src/keys.ts:603-608 | the same for one arrival after an agreeing prefix |
| NonceCache.NonceAcceptedOnce | packages/lib/src/keys.ts:390-401 | when a nonce always carries one timestamp, no nonce of one actor is accepted twice and every verdict is the unbounded cache's |
| NonceCache.ReusedNonceAcceptedTwice | packages/lib/src/keys.ts:603-608 | a concrete sequence in which a nonce reused under a new timestamp is accepted twice |
| TrustInvariant.RunInv | packages/lib/src/keys.ts:248-602 | every run keeps the invariant of every node: rows, window, owed statements, nonces, attempts in flight and everything its keys signed |
| TrustInvariant.LocalInv | packages/lib/src/keys.ts:266-602 | one operation of one node keeps that invariant, for every operation |
| TrustContinuity.RotationContinuity | packages/lib/src/keys.ts:470-602 | from any state satisfying the invariant in which the peer pins the current key, at any stage of a rotation that counts with it, every run without a revocation between the two nodes, a new rotation whose list leaves the peer out, an abandonment after the swap while the peer still waits, or a reply accepted in the peer's name under somebody else's key leaves the peer on the current key or on exactly the old key whose private half the owed statement carries |
| TrustContinuity.TrackStep | packages/lib/src/keys.ts:470-602 | every single such step of any node, or of a forger, keeps the pin, the coverage by a rotation in progress, and that an answer to an owed statement proves the new key is pinned |
| TrustContinuity.PinAfterReceive | packages/lib/src/keys.ts:388-435 | whatever statement of the rotating node a pinning peer accepts, it ends on its pin or on the current key |
| TrustContinuity.FateOf | packages/lib/src/keys.ts:470-538 | what any operation can do to an owed rotation statement: keep it, renew it under a fresh nonce, open it, settle it on an answer, or abandon it, before the swap or after it |
| TrustLimits.SwapExact | packages/lib/src/keys.ts:576-602 | the key swap keeps a pinning peer if and only if its rotation statement is stored |
| TrustLimits.CommitExact | packages/lib/src/keys.ts:560-602 | of a rotation that has read its list, commit and swap keep a pinning peer if and only if the list holds it |
| TrustLimits.RotationExact | packages/lib/src/keys.ts:549-602 | a whole rotation, from reading its list to the swap, keeps a pinning peer if and only if the peer is among the unrevoked rows that either side approved |
| TrustLimits.AbandonExact | packages/lib/src/keys.ts:485-500 | an abandoning check keeps every peer state that waited for its statement if and only if the window's key is not yet the key in use |
| TrustLimits.LateMeansStale | packages/lib/src/keys.ts:485-500 | only a check under a key read before the swap abandons late |
| TrustScenarios.RotateRaceLosesPeer | packages/lib/src/keys.ts:539-602 | a run from the initial world in which a relation begins during a rotation and its peer is lost |
| TrustScenarios.LateAbandonLosesPeer | packages/lib/src/keys.ts:485-500 | a run from the initial world, quiet up to its last step, in which the re-drive pass abandons a swapped rotation and an established peer is lost |
| TrustScenarios.WithdrawalLosesPeer | packages/lib/src/keys.ts:404-432 | a run from the initial world in which an old statement takes back the approval of an established peer, so that the next list leaves it out and the rotation loses it |
| TrustScenarios.ImpostorLosesPeer | packages/lib/src/keys.ts:388-443 | a run from the initial world to a row that holds a stranger's key, and a quiet run from there that loses the peer |
| TrustImpostor.HonestRowHearsItsPeer | packages/lib/src/keys.ts:388-435 | while the row, or a seed configured for it, holds a key of any node of the world, a statement is accepted in the peer's name only under a key of that peer |
| TrustImpostor.HonestContinuity | packages/lib/src/keys.ts:388-602 | rotation continuity for every quiet run from such a row, with nothing assumed about replies |
| TrustImpostor.AcceptsForged | packages/lib/src/keys.ts:266-287 | whoever holds the keys of the row and of its seed can always answer an attempt that addresses it, and the answer is accepted |
| TrustImpostor.ImpostorTakesPeer | packages/lib/src/keys.ts:470-538 | from every state satisfying the invariant in which a swapped rotation still owes the peer its statement while neither the row nor a seed for it holds a key of a node, some quiet run loses the peer |
| TrustImpostor.HonestRowExact | packages/lib/src/keys.ts:388-602 | from an established relation that a rotation would count with, every quiet run keeps the peer if and only if its row, or a seed configured for it, holds a key of a node of the world |
| TrustApproval.ApprovalAgreement | packages/lib/src/keys.ts:388-443 | in every run, for a row that holds the peer's own key and records its approval: the last statement accepted from the peer is signed by that key, in a step of the peer after a point where the peer had approved this node, and is written for the key this node held when the accepting call read it |
| TrustApproval.RunSincere | packages/lib/src/keys.ts:248-286 | every approval any node is about to sign, reply, resend or rotate with was its own approval at some earlier point of the run |
| TrustApproval.RowOrigin | packages/lib/src/keys.ts:404-432 | a row with the peer's approval says what the last statement accepted from the peer said, key and approval |
| TrustApproval.FactOrigin | packages/lib/src/keys.ts:248-260 | a signature of an honest node's key was made by a step of that node |
| TrustApproval.ApprovedAt | packages/lib/src/keys.ts:248-286 | the history used there names only approvals that stood in some world of the run |
| TrustApproval.ApprovalOrigin | packages/lib/src/keys.ts:337-372 | a node's own approval begins only with its own request or with a statement of a pinned seed |
| TrustRows.RowsAndWindow | packages/lib/src/keys.ts:288-336 | in every reachable world the window exists exactly while a rotation statement is owed, unrevoked rows are trusted exactly when both approvals hold, and revoked rows hold nothing |
| TrustRows.NoEarlySecondRotation | packages/lib/src/keys.ts:549-574 | a rotation that commits while a statement of the first is owed changes nothing |
| TrustRows.TrustIsRestoredByRequestAndStatement | packages/lib/src/keys.ts:343-372 | a row revoked at one point and trusted later saw a local request and, after it, an accepted statement of the peer |
| TrustService.TrustRecords.ConsumeNonce | packages/lib/src/keys.ts:603-608 | the row-by-row purge and insert is the cache function |
| TrustService.TrustRecords.Receive | packages/lib/src/keys.ts:388-435 | stores exactly what the model's receive accepts, and on each refusal nothing |
| TrustService.TrustRecords.Request | packages/lib/src/keys.ts:337-381 | the transaction of a local request, including the conflict |
| TrustService.TrustRecords.CloseWindow | packages/lib/src/keys.ts:298-301 | deletes the window exactly when the scan finds no owed rotation |
| TrustService.TrustRecords.Drop | packages/lib/src/keys.ts:480-481 | an obligation goes, and the window with the last rotation |
| TrustService.TrustRecords.Settle | packages/lib/src/keys.ts:288-296 | only the obligation that still carries the nonce is settled |
| TrustService.TrustRecords.Revoke | packages/lib/src/keys.ts:445-462 | row, obligation and window after a revocation |
| TrustService.TrustRecords.AbandonRotation | packages/lib/src/keys.ts:329-336 | all rotation statements and the window go, approvals stay |
| TrustService.TrustRecords.Park | packages/lib/src/keys.ts:321-327 | a terminal refusal postpones the obligation that still carries the nonce |
| TrustService.TrustRecords.CompareObligation | packages/lib/src/keys.ts:307-316 | compare-and-swap on one obligation |
| TrustService.TrustRecords.Look | packages/lib/src/keys.ts:476-484 | the pass reads the row of an obligation and drops the obligation of a dead row |
| TrustService.TrustRecords.Check | packages/lib/src/keys.ts:485-515 | what the pass decides for a looked-at obligation, under the key it has read before |
| TrustService.TrustRecords.OpenWindow | packages/lib/src/keys.ts:549-574 | the loop that stores a rotation statement for every listed peer, and the window beside them |
| AdmissionLog.CommitInv | packages/lib/src/messages.ts:184-230 | an accepted message keeps the log invariant: dense numbers, receipts, entries and references in bijection, bindings, permit balances |
| AdmissionLog.BuryInv | packages/lib/src/messages.ts:407-434 | an expiry keeps it too |
| AdmissionLog.RefusalInv | packages/lib/src/messages.ts:271-277 | so does a refusal |
| AdmissionRuns.RunInv | packages/lib/src/messages.ts:41-434 | the log invariant in every reachable state of any interleaving of admissions, acks, attention reads, expiries and the owner's changes |
| AdmissionRuns.RulingFits | packages/lib/src/messages.ts:60-96 | a message is decided afresh only if it was never admitted, otherwise its first receipt is repeated; a permit that pays is in store and not used up |
| AdmissionRuns.DecisionIsSound | packages/lib/src/messages.ts:112-182 | an admitting decision names an open thread of this node or a new one, and spends a permit only for that thread and a sender without ordinary access |
| AdmissionTheorems.ExactlyOnce | packages/lib/src/messages.ts:41-101 | any two accepting answers of a run: one receipt for one message, different thread and number for different messages |
| AdmissionTheorems.NumbersAreDense | packages/lib/src/messages.ts:196-198 | every number below a thread's next one was given to an accepted message |
| AdmissionTheorems.RefusalIsAtomic | packages/lib/src/messages.ts:112-182 | an admission that does not accept leaves every record but its own identity as it was |
| AdmissionTheorems.RefusalIsFinal | packages/lib/src/messages.ts:14-29 | a recorded refusal is the answer to the same content at every later step of the run, and no other content under that identity is ever accepted |
| AdmissionTheorems.TombstoneIsFinal | packages/lib/src/messages.ts:407-434 | once an expiry removed an entry, no later admission of that message is accepted |
| AdmissionTheorems.ClosedStays | packages/lib/src/messages.ts:60-96 | no step reopens a recorded refusal or a tombstone |
| AdmissionAttention.PositionsAreDistinct | packages/lib/src/messages.ts:221-228 | two obligations of one recipient never stand at one position of one thread, in any reachable state |
| AdmissionAttention.ObligationsAdvance | packages/lib/src/messages.ts:325-358 | over any further run an obligation keeps number, author and plan, stays acked once acked, and loses its body only for good |
| AdmissionChain.LandingIsTheEnd | packages/lib/src/messages.ts:239-264 | the walk lands where the last record of the reply chain says, and refuses as a cycle exactly when the chain has no last record |
| AdmissionService.MessageRecords.LandingOfChain | packages/lib/src/messages.ts:239-264 | the while loop with its visited set computes that walk and ends |
| AdmissionService.MessageRecords.Recipients | packages/lib/src/messages.ts:157-182 | the mention loop finds everyone mentioned and the answerer, or refuses exactly when a mention names nobody |
| AdmissionService.MessageRecords.Decision | packages/lib/src/messages.ts:112-155 | every rejecting check, in order, before the first write |
| AdmissionService.MessageRecords.WriteAttention | packages/lib/src/messages.ts:279-297 | one obligation per recipient, and an inbox row for this node's own unless there is one |
| AdmissionService.MessageRecords.Append | packages/lib/src/messages.ts:184-230 | the writes of an accepted message |
| AdmissionService.MessageRecords.Admission | packages/lib/src/messages.ts:41-101 | answer and records of one admission, on every path |
| AdmissionService.MessageRecords.Acknowledge | packages/lib/src/messages.ts:346-358 | acks the caller's own obligation and mirrors it in the inbox |
| AdmissionService.MessageRecords.AttentionList | packages/lib/src/messages.ts:325-344 | the listed rows; no listed row shows a body its reader may not read |
| AdmissionService.MessageRecords.Expiry | packages/lib/src/messages.ts:407-434 | all entries below the number become tombstones, or nothing changes when one replay window is open |
| HistoryForest.CompressionKeepsRoots | packages/lib/src/history.ts:92-98 | path compression changes nobody's root |
| HistoryForest.LinkMovesOneTree | packages/lib/src/history.ts:99-109 | linking one root under another moves exactly its own tree |
| HistoryForest.Forest.Find | packages/lib/src/history.ts:92-98 | the recursive root with compression ends, returns the root and keeps all roots |
| HistoryForest.Forest.Merge | packages/lib/src/history.ts:99-109 | after merging a reference, roots are equal exactly for what the references connect |
| HistoryModel.MergeSeparates | packages/lib/src/history.ts:99-109 | roots and paths of references stay in step when an edge is added |
| HistoryService.Arrangement.Visit | packages/lib/src/history.ts:122-132 | the recursive visit ends on every store, cycles included, and orders each message once, after its held parent if its chain of parents ends |
| HistoryService.Arrange | packages/lib/src/history.ts:117-134 | a whole group, from any starting order |
| HistoryService.Collect | packages/lib/src/history.ts:90-137 | every held message in exactly one conversation, two in the same exactly when a path of reply references connects them, each conversation parent-first |
| OutboundRuns.RecordIsStable | packages/lib/src/client.ts:1068-1085 | under arbitrary stale commits a slot keeps its request and expected author for ever, and an accepted slot its state and receipt; settled records carry no schedule |
| OutboundRuns.RunSerialInv | packages/lib/src/client.ts:834-889 | with one transmission at a time, a series counts at most ten failures and gives up exactly at the tenth, and its schedule is the last failure plus its backoff |
| OutboundRuns.RecoveryIsBounded | packages/lib/src/client.ts:288-317 | recovery transmits only before `retry_until`, only open records, and on schedule when it keeps it |
| OutboundRuns.DeadLetterStays | packages/lib/src/client.ts:235-262 | until an explicit send, a dead letter is neither changed nor transmitted |
| OutboundRuns.ClosedWindowSettles | packages/lib/src/client.ts:302-312 | a closed window settles a pending record as unknown and transmits nothing |
| OutboundRuns.BackoffDoubles | packages/lib/src/delivery.ts:89-98 | delays double from the base to the cap, which the seventh attempt reaches |
| OutboundService.OutboundRecords.Deliver | packages/lib/src/client.ts:213-262 | records a send, or reports the conflict and keeps the slot |
| OutboundService.OutboundRecords.Commit | packages/lib/src/client.ts:1068-1085 | the field-by-field merge of a result into its snapshot |
| OutboundService.OutboundRecords.Transmit | packages/lib/src/client.ts:834-889 | what each outcome of a transmission writes |
| OutboundService.OutboundRecords.Recover | packages/lib/src/client.ts:288-317 | a pass treats every scanned slot as the serial step does, and everything it sent was inside its window |
| OutboundService.PassIsSerial | packages/lib/src/client.ts:288-317 | what a pass does to a slot is what the serial machine does in one recovery step |
| ConsumptionRuns.RowsOnlyClose | packages/lib/src/client.ts:1182-1229 | over any further run, with the owner's own acks and expiries, an injected row stays injected and keeps its way of being closed: settled or consumed, never both; only an expired row has no body |
| ConsumptionRuns.BodiesStay | packages/lib/src/client.ts:1377-1410 | a held body goes only with this node's own expiry |
| ConsumptionRuns.ClosingIsRecorded | packages/lib/src/client.ts:929-969 | the step that closes a row settles it, or confirms its entry in the same commit |
| ConsumptionRuns.OriginalIsFirst | packages/lib/src/client.ts:936-948 | the landing context of a confirmation is that of the first scanned unsettled row that names one |
| ConsumptionRuns.ConfirmedForEver | packages/lib/src/client.ts:1235-1259 | a confirmed slot stays confirmed, with a todo hook it has its one todo, and a filed todo stays filed |
| ConsumptionRuns.RunTodos | packages/lib/src/client.ts:1235-1241 | in every run the todos are exactly the confirmed slots, or none without a hook |
| ConsumptionRuns.NotPresentedAgain | packages/lib/src/client.ts:1152-1180 | after a confirmation in a context, no later attempt asks to present the entry there, whatever copy of its row the attempt holds |
| ConsumptionRuns.RepeatsExactlyWhereConfirmed | packages/lib/src/client.ts:1176-1179 | some answer of the host to an attempt shows the entry where it was confirmed if and only if the records confirm it, before the call, in a context other than the one asked for |
| ConsumptionRuns.RedirectionRepeats | packages/lib/src/client.ts:1176-1179 | a run that does so |
| ConsumptionService.ConsumptionRecords.CloseRows | packages/lib/src/client.ts:929-952 | the scan loop closes every unsettled row of the entry, keeps the first named context and tells whether all rows were settled |
| ConsumptionService.ConsumptionRecords.Confirm | packages/lib/src/client.ts:929-969 | rows, slot and todo of one confirmation |
| ConsumptionService.ConsumptionRecords.Consume | packages/lib/src/client.ts:1152-1180 | one attempt on every path, for any entry and any copy of its row the caller read before, expired or stale, and where it asked the host to present the entry |
| ConsumptionService.ConsumptionRecords.Reconcile | packages/lib/src/client.ts:1377-1410 | an owner's row is merged only when attested, and a held body is never taken back |
| ConsumptionService.ConsumptionRecords.OwnerWrite | packages/lib/src/messages.ts:420-429 | the owner side's ack and expiry of an obligation, mirrored in the local row |
| ConsumptionService.ConsumptionRecords.SettleRow | packages/lib/src/client.ts:1214-1222 | settles a row exactly when it is still open |
| ConsumptionService.ConsumptionRecords.FileTodo | packages/lib/src/client.ts:1248-1259 | files a todo exactly when it is owed |
| Waiters.SafeExactlyWithOneAuthor | packages/lib/src/awaited.ts:24-58 | a chain resolves only legitimately, against every entry, if and only if its open waiters expect the newest one's author (or that author can never answer) |
| WaiterRuns.WaiterSafety | packages/lib/src/client.ts:235-276 | in every run of sends, stale commits, registrations, releases and settlements, whatever a waiter resolved with is a reply to its own original by the author its slot names |
| WaiterRuns.WaitersExpectTheSlotsAuthor | packages/lib/src/client.ts:235-276 | all waiters ever registered for a message expect the author its slot names |
| WaiterRuns.LiveChainHasOneAuthor | packages/lib/src/awaited.ts:24-41 | the chain the registry reaches meets the exact condition for safety |
| Waiters.Waiter.Settle | packages/lib/src/awaited.ts:34-37 | every waiter on the chain has an outcome: the one it had, or this entry |
| Waiters.AwaitedReplies.Register | packages/lib/src/awaited.ts:24-41 | the new waiter stands in front of the one that waited; the chain keeps one author when the new record names the same one |
| Waiters.AwaitedReplies.Release | packages/lib/src/awaited.ts:44-46 | frees the slot only for its current waiter |
| Waiters.AwaitedReplies.Settle | packages/lib/src/awaited.ts:49-58 | exactly the waiters on the chain of an answered slot resolve, with this entry unless they had resolved; answers stay legitimate where each chain has one author; the answered slots are counted |
| JsonText.InsideSeparates | packages/lib/src/core.ts:42 | a string literal with the escapes of section 7 of RFC 8259 is read back up to its closing quote |
| JsonText.JoinSeparates | packages/lib/src/core.ts:43-45 | a comma-separated list of readable texts determines its members |
| CanonicalProof.CanonSeparates | packages/lib/src/core.ts:40-46 | where a printed value ends is decided by what follows it |
| CanonicalProof.CanonicalMeansSame | packages/lib/src/core.ts:40-47 | for all values, canonical texts are equal if and only if the values are the same up to field order, dropped undefined fields, and undefined as null |
| RecordKeys.KeyIsInjective | packages/lib/src/core.ts:26 | non-empty part lists with one key are equal |
| RecordKeys.ScanFindsExtensions | packages/lib/src/core.ts:26 | a scan under `key(p)` and a slash finds exactly the keys whose parts properly extend `p` |
| RecordKeys.EmptyListCollides | packages/lib/src/core.ts:26 | the empty list has the key of one empty part |
| MemoryStorage.Storage.Get | packages/lib/src/memory.ts:17 | reads the plain map the transaction shows |
| MemoryStorage.Storage.Put | packages/lib/src/memory.ts:18 | changes that map in one place |
| MemoryStorage.Storage.Delete | packages/lib/src/memory.ts:19 | removes one key from that map |
| MemoryStorage.Storage.Scan | packages/lib/src/memory.ts:20-24 | the overlay loops return exactly that map's records under the prefix |
| MemoryStorage.Storage.Transaction | packages/lib/src/memory.ts:9-33 | any sequence of operations sees a plain map changed in order; success installs exactly it, a throw nothing |
| Mutations.AtMostOnce | packages/lib/src/core.ts:95-111 | in a store that anything else writes outside the idempotency prefix: after a request ran once, every later call of it changes nothing and gets its result, or a conflict |
| Mutations.AnsweredOnlyByItself | packages/lib/src/core.ts:95-111 | an admissible call is kept from running only by an earlier run of the same actor, operation and key |
| Mutations.Perform | packages/lib/src/core.ts:95-111 | the work and its record are one transaction |
| Paging.WalkUnderChange | packages/lib/src/core.ts:62-75 | a completed walk over lists that change between pages ascends, returns no position twice, and every position that was there throughout exactly once |
| Paging.PageIsSound | packages/lib/src/core.ts:62-75 | one page leaves nothing out between its cursor and the next |
| Paging.IndexPagingExact | packages/lib/src/messages.ts:360-369 | index paging of the local inbox shows no row again if and only if the rows before the cursor are unchanged |
| Paging.InboxWalkRepeats | packages/lib/src/messages.ts:360-369 | a walk that shows one row twice |
| Paging.ListOrderExact | packages/lib/src/history.ts:22-23 | walks over an unchanging list show exactly its rows at every page size if and only if the list ascends in the order the cursor is compared in |
| Paging.SteadyIsWalk | packages/lib/src/core.ts:62-75 | enough pages of an unchanging list, ordered or not, complete the walk and show the rows that statement speaks of |
| Paging.HistoryWalkDropsRow | packages/lib/src/history.ts:22-23 | a completed walk over a list of two that never shows the second |
| RenderRuns.RunInv | packages/im-gateway/src/render.ts:56-130 | the invariant of cursor, records, page at hand and sends, at every point a crash may hit |
| RenderRuns.NeverSentTwice | packages/im-gateway/src/render.ts:77-130 | over all passes and crashes, a send of an entry follows an earlier one only if the platform refused that one |
| RenderRuns.SentInOrder | packages/im-gateway/src/render.ts:56-74 | sends that were not refused occur in strictly increasing order |
| RenderRuns.CursorIsSettled | packages/im-gateway/src/render.ts:56-74 | every foreign entry at or below the stored cursor has a record |
| RenderService.ThreadRenderer.RenderEntry | packages/im-gateway/src/render.ts:77-130 | record, send and outcome of one entry |
| RenderService.ThreadRenderer.RenderPage | packages/im-gateway/src/render.ts:56-74 | the loop over a page is a sequence of the machine's steps and keeps its invariant |
| PullRuns.OffersKeepFaith | packages/grok-bot/src/pull.ts:149-167 | in every run an offer comes after the end of every earlier lease on its id, never after an ack, and carries the payload of the first enqueue |
| PullRuns.AttemptsCountOffers | packages/grok-bot/src/pull.ts:149-167 | a row's attempts are the number of its offers |
| PullRuns.SmallestAre | packages/grok-bot/src/pull.ts:152-156 | the selection is the smallest eligible ids, each once, in order, as many as the limit allows |
| PullModel.ClampLeaseMs | packages/grok-bot/src/pull.ts:61-66 | a lease is between one and 300000 milliseconds for every input |
| PullModel.ClampLimit | packages/grok-bot/src/pull.ts:54-59 | a limit is between one and fifty for every input |
| PullService.PullInbox.Enqueue | packages/grok-bot/src/pull.ts:85-97 | the first enqueue of an id creates its row, later ones change nothing |
| PullService.PullInbox.Take | packages/grok-bot/src/pull.ts:149-167 | offers the selection under one lease |
| PullService.PullInbox.Ack | packages/grok-bot/src/pull.ts:114-133 | acks what is known and names what is missing |
| PullService.PullInbox.Snapshot | packages/grok-bot/src/pull.ts:135-147 | owed, leased and acked rows are counted exactly and add up to all rows |

## Left out

- Real cryptography and SHA-256: a signature is a fact, a digest or fingerprint is the content it covers.
- HTTP, timers, abort signals, traces and notifications: a remote call is any answer, a clock reading a parameter.
- `base_url`, row timestamps and row history of the trust records, and `discovery` reads: they decide nothing modelled here.
- Trust steps that are one here and two in the code: dropping an obligation and closing the window (keys.ts:480-481); the clock check and the nonce; the commit of a rotation and the flag raised right after it, before any later transaction can answer; the window read, the flag and the abandonment of a re-drive check, which a storage that serves transactions in order of arrival leaves no room between for a whole rotation; reading the own key and signing with it, since a swap in between yields a statement whose signature is not by the key it names, which every receiver refuses. One process per node.
- The thread, membership, resource and resolver services: threads, members, permits and the default landing change by any step of their owner; whether a reader may read a body is a parameter.
- Timestamps are integers and sequence numbers natural numbers; their text forms (`decimal`, `utc`) are not modelled.
- Scan order of `MemoryStorage`: a scan is a map here; a key deleted and put again in one transaction keeps its place in the code's order, and nothing modelled depends on it.
- `FileStorage`: its rollback is not the one proved for `MemoryStorage`.
- RenderRuns.RunInv: one pass at a time; the gateway arms its timer again only after a pass has ended (packages/im-gateway/src/main.ts:70-74).
- Waiters.AwaitedReplies.Settle: says nothing about when an older chained waiter resolves after the newest one has left; the code then drops the slot.
- Tool-result holds of `AwaitedReplies` (hold, releaseContext, forget): a running or held await is an input of a consumption attempt.
- OutboundRuns.RunSerialInv: attempt counts and dead letters are claimed for one transmission at a time; the code reads the count and commits in two transactions.
- OutboundService.OutboundRecords.Recover: records stored by older revisions without a digest are not modelled.
- NodeClient beyond delivery: its pages and resource reads forward one request, grant resync asks for grants again, reconciliation backs off per owner and thread, and `hasPendingWork` reads whether any record still needs a pass.
- The inbox replay skips expired rows and rows already injected before it attempts them; an attempt here takes any row.
- One consumption attempt is one step from the read of the confirmed slot to the call of the host; the confirmation after the call may also be a step of its own.
- `KeyService.generate` (packages/lib/src/keys.ts:72-80): no step of the trust model. It looks for trust rows and replaces the key in two steps and sends no statement, so a peer that pins the key in between is left on a key that is neither used nor proved; continuity is claimed for runs that change the key by `rotate` only.
- HistoryService.Collect: the display order of a group (`localeCompare` on time and identity) is any permutation; titles, directions and delivery states of the projection are not modelled.
- Canonical numbers are the tokens they print as, so `-0` and `0` are one number, and numbers outside JSON are not modelled.
- RecordKeys.KeyIsInjective: parts with lone surrogates are not modelled; the encoder throws on them.
- PullModel ids are ordered numbers; the code compares their text. Long polling is not modelled.
- Owner migration, the platform connectors, configuration and status views.
