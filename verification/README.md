# Fluxform server probe: upload ledger, delivery protocol, job events

A Dafny model of the stateful parts of the Fluxform server probe and of three smaller algorithms of
the same repository, with proofs of what they promise.

**Upload ledger.** `LedgerTables` holds the tables (sessions, reservation budget, daily usage,
identities and their address hashes, settlement and cleanup outboxes, session capabilities).
`LedgerTransactions` and `LedgerAdmission` give each transaction as a function from one database
state to its answer and the next state; the class `UploadLedger` is the imperative ledger, whose
methods update the tables step by step, loop where the program loops, roll back where it rolls back,
and state when they succeed, what they then change, that a refusal changes nothing, and that the ledger
stays valid. `LedgerOutcomes`, `LedgerReservation`, `LedgerSelection` and `LedgerStartup` have the proofs:
they tell the result of a transaction on one session, of a reservation with its merges, of a bounded
recovery and of an opening from the tables before the call, in terms of their own; `LedgerRefusals` says
that every error is true. `LedgerInvariant`, `LedgerAdmissionInvariant`, `LedgerRecovery`,
`LedgerReconciliation` and `LedgerOpening` prove one invariant for all of them (`LedgerAccess` adds what
the end of a session takes away: its lease and its capability). `LedgerSteps` puts all transactions into one
type and says what sequences of them keep, and what those made for others leave of a session;
`LedgerLeases` and `LedgerStarvation` follow leases and held-back settlements through such sequences, and
`CleanupScan` the removal of an upload file through its attempts. The invariant:

- the budget is the sum of what active sessions hold, and within its limit;
- the usage of every identity and day is the sum of the bytes charged to its sessions that day;
- what an identity has used today and still holds is within its daily quota, and its active sessions
  are within their limit;
- a settlement row belongs to an uploaded or expired session and carries its bytes and its day, a
  marked one to an uploaded session; a cleanup row belongs to an expired or rejected session, and
  every such session with a path has one or has had its file removed.

Two columns of the model are history no operation reads: the day a session was charged on, which the
tables forget once the settlement is acknowledged, and the set of sessions whose file was removed.

**Delivery protocol.** `Delivery` is a state machine over the ledger: the upload worker with its
receipt, the HTTP exchange that begins, marks or aborts a delivery attempt, storage jobs that may
commit after their caller has given up or be lost, every other ledger transaction at any time, crash,
restart with other limits, and acknowledgement. `DeliverySafety` proves its invariant step by step and
`DeliveryOutcome` what it means for whole runs: a 204 is never refunded, a 503 always is. `DeliveryProgress`
says that deliveries end, and by which events; `SessionOrder` in which order a session goes through its
states. `DeliveryWitnesses` and `MergeWitnesses` exhibit runs in which the program falls short.

**Upload worker.** `UploadWorker` is the actor that owns one session and drives the ledger through its
commands. Before each of its ledger calls others may use the ledger: other uploads, deliveries, merges of
identities, periodic reconciliation, and the heartbeat that renews the session's own lease.

**Job events.** `EventLog` relates the truncated event table to the full history of a job;
`EventTables` holds the tables; `EventStore` is the imperative store, whose job rows all stand for a ghost
history; `EventReconciliation` says what a batch of lapsed jobs does to the tables, and `EventWitnesses`
runs one past the bound on active records; `EventClient` is a
client that reconnects over whole runs.

**Identity scan.** `IdentityScan` is the paged search for a file by identity in a directory that
changes between pages, and the intent row it updates.

**Codec, paths, evidence.** `Base64Url` is the canonical token codec (sections 3.5 and 5 of RFC 4648),
`TrackedPaths` the collision validator and the copy loop of the desktop source snapshot,
`EvidenceInputs` the dependency worklist and the length-prefixed framing of the evidence digest.

`dafny verify dfyconfig.toml` covers all modules.

## Where the code falls short

Five promises do not hold of the code as it is; the model keeps the code. For each there is an input
that shows it and the condition under which the promise holds.

- Recovery of unacknowledged settlements is not total. The usage row is deleted when it reaches zero,
  while a refund demands one changed row, so of two pending zero-byte settlements of one identity and
  day the second fails and takes the whole pass with it. Two empty uploads of one client and a crash are
  enough to keep the server from ever opening again (`DeliveryWitnesses.EmptyUploadsBlockEveryRestart`,
  `LedgerRecovery.EmptyPair`). A pass completes if and only if every zero-byte refund finds its usage row
  (`LedgerRecovery.RecoverRowsOutcome`, `LedgerSelection.ReconciliationOutcome`; for the databases a crash
  leaves, `LedgerOpening.StartupRecovery`).
- Periodic recovery need not reach a pending settlement: marked rows take places in the batch. A
  pending row is refunded if and only if fewer than 64 due rows come before it
  (`LedgerSelection.MarkedRowsHoldBackRecovery`, `LedgerSelection.ReconcileReaches`). A reachable state has 64 marked rows and a pending one
  behind them, and no number of passes refunds it until a marked row is acknowledged or aborted
  (`DeliveryWitnesses.MarkedRowsStarveThePending`, `LedgerStarvation.StarvesThroughout`). The periodic
  acknowledgement does not make room: it takes marked rows without an attempt, and in no run is there one
  (`DeliveryProgress.PeriodicAcknowledgesNothing`). A restart does (`DeliveryProgress.RestartSettlesAll`).
- A lease need not end with the session's capability: an expansion renews it against the largest
  possible expiry (`DeliveryWitnesses.LeaseOutlivesCapability`). A transaction breaks the bound if and only
  if it is an expansion that has to grow, finds room, and asks for a lease longer than the capability lasts
  (`LedgerLeases.OnlyOverlongBreaks`), and in no sequence does anything else
  (`LedgerLeases.LeasesFitUnlessOverlong`).
- The worker cannot always take back a settlement nobody received: if a merge has given the session
  another identity in the meantime the inline refund fails. Two rotations of the secrets and one more
  reservation by the same client bring it about (`MergeWitnesses.MergeDefeatsCompensation`,
  `LedgerOutcomes.MergeStopsCompensation`). It succeeds if and only if the identity is still the receipt's
  and the usage row exists (`LedgerOutcomes.CompensationOutcome`); otherwise the intent stays for recovery.
- The limit of 128 active event records can be passed. Registration keeps it
  (`EventStores.EventStore.RegisterState`), but a reconciliation keeps the record of a failed worker from
  then on, whatever the number (`EventWitnesses.ReconciliationPassesTheBound`). A batch raises the number by
  exactly the active jobs in it whose lease and retention have both lapsed
  (`EventReconciliation.BatchRaisesRecords`), so it keeps the limit if and only if there is room for those.

## Model

| member | source | states |
|---|---|---|
| DeliveryOutcome.Charge204IsKept | apps/server-probe/src/routes.rs:1124-1290 | In every run, with jobs that commit after their caller gave up, lost results, periodic recovery, manual expiry, crashes and restarts: once the client was answered 204 the session carries its bytes and its settlement day for ever after, and until its settlement row is acknowledged it stays Uploaded and an expiry is refused; that runs do answer 204 is `DeliveryProgress.DeliveryEndsIn204` |
| DeliveryProgress.DeliveryEndsIn204 | apps/server-probe/src/routes.rs:1124-1214 | From every system that satisfies the invariant and serves, an exchange that holds the receipt of an unclaimed pending settlement is told 204 by the six faultless events of a delivery, with the bytes of the receipt charged on its day |
| DeliveryProgress.DeliveredIsAcknowledged | apps/server-probe/src/routes.rs:1256-1290 | The connection that sent a 204 then acknowledges the settlement: its row goes, nothing else changes, and the charge has become final |
| DeliveryProgress.AbortedDeliveryEndsIn503 | apps/server-probe/src/routes.rs:1215-1246 | A marker that is not seen, committed or not, and an abort that commits end in a 503 with the charge given back; the abort commits whenever the usage row is there |
| DeliveryProgress.AnsweredBy | apps/server-probe/src/routes.rs:1194-1246 | A 204 is sent by one event only, the exchange seeing its marker committed, and a 503 by one only, the exchange seeing its abort committed |
| DeliveryProgress.StartedBy | apps/server-probe/src/routes.rs:1124-1160 | The events that start a delivery or take its settlement back, and no others |
| DeliveryProgress.ContinuedBy | apps/server-probe/src/routes.rs:1160-1250 | The events that move an exchange to its marker, to its abort and to its acknowledgement, and no others |
| DeliveryProgress.SilencedBy | apps/server-probe/src/routes.rs:1124-1290 | An exchange ends without an answer exactly when its receipt is dropped, it stops waiting for a claim or an abort, its client is gone, or the process dies |
| DeliveryProgress.SubmittedBy | apps/server-probe/src/routes.rs:474-520 | Each storage job is submitted by one event only, an abort by giving up on the marker |
| DeliveryProgress.EndedBy | apps/server-probe/src/routes.rs:474-520 | A storage job ends exactly by being run, by being lost or with the process, and has succeeded exactly if its transaction commits |
| DeliveryProgress.AbortsAreGivenUp | apps/server-probe/src/routes.rs:1215-1246 | In every run an abort has been submitted only after its exchange gave up on the marker |
| DeliveryProgress.RefusedAfterGivingUp | apps/server-probe/src/routes.rs:1215-1246 | In every run a client told 503 has been refused only after its exchange gave up on the marker |
| DeliveryProgress.PeriodicAcknowledgesNothing | apps/server-probe/src/ledger.rs:1402-1428 | In every run the periodic acknowledgement changes nothing: it looks for marked rows without an attempt, and there is never one |
| DeliveryProgress.StartAcknowledges | apps/server-probe/src/ledger.rs:1402-1428 | The acknowledgements at start-up drop exactly the marked rows they are made for, whatever attempt these belong to |
| DeliveryProgress.RestartSettlesAll | apps/server-probe/src/ledger.rs:572-586 | After a restart that opens the database and acknowledges its marked rows no settlement row is left: every session whose delivery was marked keeps its row as it was, every other is expired without charge |
| DeliveryWitnesses.OneUploadIsAnswered | apps/server-probe/src/routes.rs:1124-1214 | A run from the empty database, of one upload, that ends with its client told 204 and the settlement acknowledged |
| SessionOrder.RunsInOrder | apps/server-probe/src/ledger.rs:2378-2385 | In every run each event moves each session, if at all, from reserved to receiving, uploaded, probing and queued in this order, or from one of these to expired or rejected; a new session is reserved |
| SessionOrder.NeverBack | apps/server-probe/src/ledger.rs:2378-2385 | Over any further events a session never goes back in this order and stays where it ended |
| DeliveryOutcome.Refund503Stands | apps/server-probe/src/routes.rs:1215-1246 | In every run: once the delivery path answered 503 the session is Expired for ever after, without actual bytes and without settlement row, and no delivery marker, late or not, can commit |
| DeliveryOutcome.AnswersAreTrue | apps/server-probe/src/routes.rs:1124-1290 | In any system that satisfies the invariant: told 204 means charged with the receipt's bytes on the receipt's day, told 503 means compensated |
| DeliveryOutcome.AnswersAreConsistent | apps/server-probe/src/routes.rs:927-942 | A session is settled by at most one exchange in every run, so it is never told both answers |
| DeliveryOutcome.RunAnswersStand | apps/server-probe/src/routes.rs:1124-1290 | Answers are final: over any events no 204 and no 503 is taken back and no receipt changes |
| DeliveryOutcome.TerminalIsAbsorbing | apps/server-probe/src/ledger.rs:2378-2385 | Expired and Rejected are absorbing: over any events a session in one of them keeps its state |
| DeliveryOutcome.AccessEndsWithTheSession | apps/server-probe/src/ledger.rs:4007-4019 | In every run: only a receiving or rejected session has a lease, and the capability of an expired session has been revoked |
| DeliveryOutcome.ReachableTablesAgree | apps/server-probe/src/ledger.rs:2021-2141 | In every reachable system usage equals the charges, the outboxes agree with the session states, and while the process is up the budget equals the reservations and no identity is over its limits |
| DeliveryOutcome.ReachableSettlementSucceeds | apps/server-probe/src/ledger.rs:1142-1152 | In every reachable serving system a receiving session settles whenever the bytes fit its own reservation and the file limit, on whatever later day |
| DeliveryOutcome.ReachableRecovery | apps/server-probe/src/ledger.rs:2720-2837 | Start-up recovery in every reachable system, a crashed one included: refused exactly with more than 128 rows, completed exactly when every zero-byte refund finds its usage row, and without pending zero-byte charges it refunds every pending row, keeps every marked one, and done again changes nothing |
| DeliveryWitnesses.EmptyUploadsBlockEveryRestart | apps/server-probe/src/ledger.rs:2778-2789 | A run from the empty database after which no restart succeeds, whatever events follow: two empty uploads of one client settled on one day, both unacknowledged, and a crash |
| DeliveryWitnesses.MarkedRowsStarveThePending | apps/server-probe/src/ledger.rs:2728-2771 | A run from the empty database that leaves 64 marked settlements and a pending one behind them; whatever transactions follow, the pending one stays charged while nobody acknowledges or aborts a marked one or ends that very settlement |
| DeliveryWitnesses.LeaseOutlivesCapability | apps/server-probe/src/ledger.rs:920-931 | A run from the empty database in which an expansion stores a lease of thirty seconds under a capability of ten |
| DeliverySafety.RunKeeps | apps/server-probe/src/routes.rs:1124-1290 | Every event keeps the protocol invariant: each settlement row belongs to one exchange, and the phase of an exchange determines what its row, its charge and its storage jobs may be |
| DeliverySafety.FreshInv | apps/server-probe/src/ledger.rs:387-588 | A fresh database satisfies the protocol invariant for any valid limits |
| DeliverySafety.SettleStepKeeps | apps/server-probe/src/routes.rs:900-942 | A settlement opens the one exchange of its session and keeps the protocol invariant |
| DeliverySafety.CompensateKeeps | apps/server-probe/src/routes.rs:934-942 | Late compensation with the receipt of the settlement, retried any number of times, keeps the protocol invariant |
| DeliverySafety.RunBeginKeeps | apps/server-probe/src/ledger.rs:1221-1246 | Claiming a delivery attempt, even after the exchange stopped waiting, keeps the protocol invariant |
| DeliverySafety.RunMarkKeeps | apps/server-probe/src/ledger.rs:1273-1307 | A marker that commits late keeps the protocol invariant |
| DeliverySafety.RunAbortKeeps | apps/server-probe/src/ledger.rs:1314-1365 | An abort that races with a late marker keeps the protocol invariant |
| DeliverySafety.LoseJobKeeps | apps/server-probe/src/routes.rs:474-520 | A storage job whose effect or result is lost keeps the protocol invariant |
| DeliverySafety.AckStepKeeps | apps/server-probe/src/ledger.rs:1402-1428 | Acknowledging a row whose delivery was possible, in any order, at start-up also one whose attempt a crash cut short, keeps the protocol invariant |
| DeliverySafety.CrashKeeps | apps/server-probe/src/routes.rs:1124-1290 | A crash at any point keeps what the stored tables promise the clients answered so far |
| DeliverySafety.ReopenKeeps | apps/server-probe/src/ledger.rs:572-582 | A restart with any limits and secrets fails, or re-establishes the protocol invariant |
| LedgerInvariant.EmptyLedgerInv | apps/server-probe/src/ledger.rs:387-588 | The empty database satisfies the ledger invariant |
| LedgerInvariant.DayRollover | apps/server-probe/src/ledger.rs:725-734 | The invariant survives the passing of days: used plus reserved stays within the quota of the new day |
| LedgerInvariant.OneSessionKeepsInv | apps/server-probe/src/ledger.rs:3943-3968 | A transaction on one session keeps budget, charges, quotas and outboxes when its own row and the totals move together |
| LedgerInvariant.HeldIsCovered | apps/server-probe/src/ledger.rs:3990-3996 | What a session holds is covered by the stored budget and by its identity's commitments, so no release underflows |
| LedgerInvariant.ReservationGuaranteesSettlement | apps/server-probe/src/ledger.rs:1142-1152 | Within its reservation a settlement meets neither the quota nor the accounting test, whatever the day |
| LedgerInvariant.SettleKeepsInv | apps/server-probe/src/ledger.rs:1099-1219 | Settlement keeps the invariant |
| LedgerInvariant.SettleOutcome | apps/server-probe/src/ledger.rs:1099-1219 | Without file trouble a settlement succeeds if and only if the session is known, presented with its token, receiving, and the bytes fit the file limit and the reservation |
| LedgerInvariant.ClaimLeaseKeepsInv | apps/server-probe/src/ledger.rs:1847-1872 | Claiming a lease keeps the invariant |
| LedgerInvariant.RenewLeaseKeepsInv | apps/server-probe/src/ledger.rs:1874-1909 | Renewing a lease keeps the invariant |
| LedgerInvariant.LeaseWithinCapability | apps/server-probe/src/ledger.rs:2693-2711 | A lease granted by a claim or a renewal ends later than now and not after the session's capability |
| LedgerInvariant.ExpansionLease | apps/server-probe/src/ledger.rs:920-931 | The lease a growing expansion stores ends within the capability if and only if the lease duration does: the expiry of the capability is not consulted |
| LedgerLeases.StoredLease | apps/server-probe/src/ledger.rs:920-931 | What a growing expansion with a lease stores, exactly: the lease ends the whole duration from now |
| LedgerLeases.OnlyOverlongBreaks | apps/server-probe/src/ledger.rs:852-945 | From valid tables in which every receiver's lease ends with its capability at the latest, a transaction of any kind leads to such tables if and only if it is not an expansion by a known receiver with a live lease, within size, quota, budget and disk, that grows and asks for a lease longer than the capability lasts |
| LedgerLeases.LeasesFitUnlessOverlong | apps/server-probe/src/ledger.rs:852-945 | In every sequence of transactions, each new session with a token of its own, a lease outlives its capability only after such an expansion; in particular no receiver ever loses its capability to another session |
| LedgerInvariant.ExpandKeepsInv | apps/server-probe/src/ledger.rs:852-945 | Expansion keeps the invariant, quota and budget included, and meets the accounting error only when the disk or the file reports it |
| LedgerInvariant.TransitionKeepsInv | apps/server-probe/src/ledger.rs:947-995 | A state transition keeps the invariant and its release never underflows |
| LedgerInvariant.ExpireKeepsInv | apps/server-probe/src/ledger.rs:1583-1617 | Expiry keeps the invariant and its release never underflows |
| LedgerReconciliation.ExpireRowsOutcome | apps/server-probe/src/ledger.rs:2873-2890 | The batch expiry completes without underflow and expires exactly the given sessions that are not active, usage and settlements untouched |
| LedgerReconciliation.ExpireAbandonedOutcome | apps/server-probe/src/ledger.rs:2839-2892 | The abandoned sessions are exactly the reserved ones without a live capability and the receiving ones without a live lease; those not active are expired |
| LedgerSelection.ReconciliationOutcome | apps/server-probe/src/ledger.rs:1918-1936 | The periodic transaction, with its rows told by the settlement table alone: it completes if and only if every zero-byte refund among the rows it reaches finds its usage row; then exactly these are given back and exactly the sessions abandoned after that and not active are expired; otherwise it changes nothing |
| LedgerSelection.ReconcileReaches | apps/server-probe/src/ledger.rs:1918-1936 | After a completed periodic transaction a pending settlement has been refunded if and only if it was stored at least thirty seconds ago and fewer than 64 such rows are older; every other settlement row is as it was |
| LedgerReconciliation.BeginDeliveryKeepsInv | apps/server-probe/src/ledger.rs:1221-1246 | Beginning a delivery attempt keeps the invariant |
| LedgerReconciliation.MarkDeliveryKeepsInv | apps/server-probe/src/ledger.rs:1273-1307 | Marking a delivery as possible keeps the invariant |
| LedgerReconciliation.AcknowledgeKeepsInv | apps/server-probe/src/ledger.rs:1370-1400 | Acknowledgement keeps the invariant |
| LedgerReconciliation.AbortOutcome | apps/server-probe/src/ledger.rs:1314-1365 | A committed abort leaves the session compensated and keeps the invariant; it fails on accounting only for a zero-byte charge whose usage row is gone |
| LedgerReconciliation.AbortSucceeds | apps/server-probe/src/ledger.rs:1314-1365 | An abort commits if and only if it is in time and its attempt still has the row and the usage row is there, or the session has been compensated before; each error names its reason |
| LedgerReconciliation.CompensateLateKeepsInv | apps/server-probe/src/ledger.rs:1456-1581 | Late compensation with the session's own receipt keeps the invariant, whether the session is uploaded, expired by hand or still reserved |
| LedgerOutcomes.CompensationOutcome | apps/server-probe/src/ledger.rs:1456-1581 | Late compensation with its own receipt of a session whose settlement pends, uploaded or expired by hand, succeeds if and only if the session still has the identity of the receipt and the usage row exists; then the session is compensated |
| LedgerOutcomes.MergeStopsCompensation | apps/server-probe/src/ledger.rs:4021-4062 | A merge between settlement and compensation that moves the session to another identity makes a compensation fail that would have succeeded; recovery can still refund the session |
| LedgerOutcomes.LateOutcome | apps/server-probe/src/ledger.rs:1456-1581 | Late compensation of any session with any receipt: it succeeds if and only if session, token, identity, mark and bytes allow, and then leaves the session expired without charge, reservation, settlement row or capability, the bytes off the usage row, the budget free, the file enqueued, and nothing else changed |
| MergeWitnesses.MergeDefeatsCompensation | apps/server-probe/src/ledger.rs:4021-4062 | A run from the empty database, with two restarts under rotated secrets, after which the compensation of a settled byte succeeds; one more reservation by the same client in between merges its two identities, and then the compensation fails and the byte stays charged, pending |
| LedgerOutcomes.TokenGuards | apps/server-probe/src/ledger.rs:2387-2421 | Claim, renewal, expansion, transition, expiry, settlement and late compensation fail and change nothing when the session does not exist or its token is not presented |
| LedgerOutcomes.ClaimOutcome | apps/server-probe/src/ledger.rs:1847-1872 | A claim succeeds if and only if session, token, state, capability and duration allow; the lease ends with the duration rounded up to seconds, or with the capability if that is earlier, and nothing else of the tables changes |
| LedgerOutcomes.RenewOutcome | apps/server-probe/src/ledger.rs:1874-1909 | The same for a renewal, of a receiver whose lease is live |
| LedgerOutcomes.RoundedUpIsLeast | apps/server-probe/src/ledger.rs:2693-2711 | A duration counts as the least whole number of seconds that is not shorter |
| LedgerOutcomes.TransitionOutcome | apps/server-probe/src/ledger.rs:947-995 | A transition succeeds if and only if the move is legal and, out of Uploaded, there is no settlement row and the stored file; it moves the state alone, and a rejection also frees the reservation and enqueues the file |
| LedgerOutcomes.ExpireOutcome | apps/server-probe/src/ledger.rs:1583-1617 | An expiry succeeds if and only if the session is known, not rejected and not marked; it then holds nothing, its capability is dead, its file enqueued and its charge stands |
| LedgerOutcomes.CleanupOutcome | apps/server-probe/src/ledger.rs:1670-1764 | After an attempt that did not remove the file the row counts one more and is due a second later at the cursor of the page, or later by a delay that doubles from two seconds to 256 |
| CleanupScan.UploadFileIsRemoved | apps/server-probe/src/ledger.rs:1670-1764 | The removal of an upload file over its attempts: with a stable file, whatever errors delay it, it is removed once as many pages have been looked at as all names fill |
| CleanupScan.RowGoesWithFile | apps/server-probe/src/ledger.rs:1670-1764 | One attempt drops the cleanup row exactly when it removes the file, under its only name |
| LedgerRefusals.ReserveRefusal | apps/server-probe/src/ledger.rs:679-823 | Every refusal of a reservation is true: its error names a fact about size, address, deadline, disk, capability, or the sessions, usage and bytes of all owners of the address, or is the one the environment reported |
| LedgerRefusals.ExpandRefusal | apps/server-probe/src/ledger.rs:852-945 | Every refusal of an expansion is true, and on a valid ledger none is for accounting |
| LedgerRefusals.SettleRefusal | apps/server-probe/src/ledger.rs:1099-1219 | Every refusal of a settlement is true, and on a valid ledger none is for quota or accounting |
| LedgerRefusals.TransitionRefusal | apps/server-probe/src/ledger.rs:947-995 | Every refusal of a transition is true |
| LedgerRefusals.ExpireRefusal | apps/server-probe/src/ledger.rs:1583-1617 | Every refusal of an expiry is true |
| LedgerRefusals.ClaimRefusal | apps/server-probe/src/ledger.rs:1847-1872 | Every refusal of a claim is true |
| LedgerRefusals.RenewRefusal | apps/server-probe/src/ledger.rs:1874-1909 | Every refusal of a renewal is true |
| LedgerRefusals.DeliveryRefusal | apps/server-probe/src/ledger.rs:1221-1400 | Every refusal to claim, mark or acknowledge a delivery is true |
| LedgerOutcomes.ExpandOutcome | apps/server-probe/src/ledger.rs:852-945 | An expansion succeeds if and only if the size is legal, the session is known, open and allowed to grow, and quota, budget, disk and capability leave room; then the session holds the bytes and the budget has moved by the difference |
| LedgerOutcomes.SettleEffect | apps/server-probe/src/ledger.rs:1099-1219 | After a settlement the usage of the session's identity and day, and of nothing else, has grown by the bytes, the reservation is free and the settlement pends |
| LedgerOutcomes.BeginOutcome | apps/server-probe/src/ledger.rs:1221-1246 | An attempt is claimed exactly for an unclaimed pending settlement of an uploaded session, and after that no other attempt can be |
| LedgerOutcomes.MarkOutcome | apps/server-probe/src/ledger.rs:1273-1307 | A mark is set exactly by the attempt that claimed the row; afterwards neither an expiry nor a late compensation of the session can succeed |
| LedgerOutcomes.AcknowledgeOutcome | apps/server-probe/src/ledger.rs:1370-1400 | An acknowledgement drops the row exactly for an uploaded session whose file is the stored one, and repeating it changes nothing |
| LedgerSteps.EffectKeepsInv | apps/server-probe/src/ledger.rs:679-1936 | Every transaction of the ledger, with any arguments, keeps the whole invariant; a late compensation with the session's own receipt |
| LedgerSteps.EffectSpares | apps/server-probe/src/routes.rs:744-965 | What any transaction made for others leaves of a session: its row but for identity and lease and its settlement row, or its pending charge given back and the session expired |
| LedgerSteps.AfterKeepsInv | apps/server-probe/src/ledger.rs:679-1936 | Every sequence of transactions over any days keeps the whole invariant |
| LedgerReconciliation.RecordCleanupKeepsInv | apps/server-probe/src/ledger.rs:1670-1764 | Recording a removal attempt keeps the invariant: a cleanup row goes only when the file was removed |
| LedgerRecovery.PendingIsCovered | apps/server-probe/src/ledger.rs:1142-1181 | Every pending settlement is covered by the usage row it was charged to |
| LedgerRecovery.RecoverRowsOutcome | apps/server-probe/src/ledger.rs:2750-2837 | A pass over distinct settlement rows completes if and only if every zero-byte refund finds its usage row; then each pending charge among them is given back once, to the byte, its session expired, its capability revoked and its file enqueued, and no other session, row, capability or cleanup changes |
| LedgerRecovery.DueRowsOrdered | apps/server-probe/src/ledger.rs:2728-2745 | The selection yields each due row once, oldest first with ties broken by session |
| LedgerSelection.RecoveryOutcome | apps/server-probe/src/ledger.rs:2720-2837 | The whole recovery, with the rows told by the settlement table alone: refused exactly when it fails closed and more rows than the bound are due, otherwise the outcome of a pass over the due rows that fewer than the bound come before, oldest first |
| LedgerSelection.RecoveryReaches | apps/server-probe/src/ledger.rs:2720-2837 | After a completed recovery with bound n a pending settlement has been refunded if and only if it is due and fewer than n due rows come before it; every other settlement row is as it was |
| LedgerSelection.FullBatchIsRefunded | apps/server-probe/src/ledger.rs:2750-2771 | With at least n rows due and none marked, a completed recovery with bound n refunds exactly n |
| LedgerRecovery.RecoveryIsTotalAndIdempotent | apps/server-probe/src/ledger.rs:2720-2837 | With room for all due rows and no pending zero-byte charge, recovery completes, refunds every pending due row exactly once, leaves marked rows alone, and a second recovery changes nothing |
| LedgerSelection.MarkedRowsHoldBackRecovery | apps/server-probe/src/ledger.rs:2750-2771 | A completed periodic pass refunds a pending row if and only if it is due and fewer than the bound of due rows, marked ones counted, come before it; if all it reaches are marked it does nothing at all |
| LedgerStarvation.ReconcileStarves | apps/server-probe/src/ledger.rs:1918-1936 | While 64 marked rows are older than every other row, a reconciliation refunds nothing, at any time |
| LedgerStarvation.StarvesThroughout | apps/server-probe/src/ledger.rs:1918-1936 | Over any sequence of transactions, reconciliations included, a settlement behind such a batch stays charged and waiting as long as nobody acknowledges or aborts a row of the batch or ends that settlement by a request of its own |
| LedgerRecovery.EmptyPair | apps/server-probe/src/ledger.rs:2778-2789 | Any two pending zero-byte settlements on one usage row that holds nothing else make start-up recovery fail, however many sessions there are |
| LedgerAccess.RecoverRowsAccess | apps/server-probe/src/ledger.rs:2750-2837 | A recovery pass revokes the capability of every session it expires |
| LedgerAccess.ExpireRowsAccess | apps/server-probe/src/ledger.rs:2873-2890 | The batch expiry takes lease and capability from every session it expires |
| LedgerAccess.CompensateAccess | apps/server-probe/src/ledger.rs:1456-1581 | Late compensation revokes the capability whatever the session's state, and takes the lease of one it expires |
| LedgerAccess.ReserveAccess | apps/server-probe/src/ledger.rs:679-823 | A new capability never revives an expired session |
| LedgerAdmissionInvariant.FoundIdentitiesAre | apps/server-probe/src/ledger.rs:2194-2208 | The identities found for an address are exactly those some secret's hash names, each once, in increasing order |
| LedgerAdmissionInvariant.ResolvedAliases | apps/server-probe/src/ledger.rs:2189-2230 | After a lookup every secret's hash of the address names the one resolved identity |
| LedgerAdmissionInvariant.MergedCharges | apps/server-probe/src/ledger.rs:4021-4062 | After a merge the usage of every identity and day still equals the charges of its sessions |
| LedgerAdmissionInvariant.MergeKeepsInv | apps/server-probe/src/ledger.rs:4021-4062 | A merge keeps the invariant except that the surviving identity may be over its limits |
| LedgerAdmissionInvariant.ResolveKeepsInv | apps/server-probe/src/ledger.rs:2189-2230 | A lookup with any number of merges keeps the invariant except for the limits of the resolved identity |
| LedgerAdmissionInvariant.ReserveKeepsInv | apps/server-probe/src/ledger.rs:679-823 | Reservation with merge-then-test keeps the invariant: a merged identity over its limits is refused and the merges roll back |
| LedgerReservation.ReserveOutcome | apps/server-probe/src/ledger.rs:679-823 | A reservation succeeds if and only if size, address and environment are acceptable and, on the tables before the call, the sessions, the usage of the day and the held bytes of all identities the address has leave room together, with the budget and the merged usage fitting; then the tables are those with the owners made one and the complete row, and its capability, appended |
| LedgerReservation.LooksUp | apps/server-probe/src/ledger.rs:2189-2230 | A lookup succeeds if and only if on every day the usage of all owners together fits the column, and then gives their sessions, usage and hashes to the oldest of them |
| LedgerAdmissionInvariant.ValidateEstablishesInv | apps/server-probe/src/ledger.rs:2021-2141 | Start-up validation fails, or establishes budget, quota and session limits for the configured limits whatever budget was stored |
| LedgerOpening.OpenOutcome | apps/server-probe/src/ledger.rs:572-582 | Opening a stored database fails and changes nothing, or establishes the whole invariant for new limits and leaves no pending settlement |
| LedgerStartup.OpenAnswers | apps/server-probe/src/ledger.rs:2021-2141 | The answer of an opening, decided on the stored tables alone: configuration, at most 128 settlement rows, refunds covered, the stored budget covering the lapsed sessions, then for the sessions that live on the total, the files, the limits of each identity with what is left of its usage, the secrets and the margin |
| LedgerStartup.OpenLeaves | apps/server-probe/src/ledger.rs:572-582 | What a successful opening leaves: pending charges taken back, lapsed sessions expired, all other sessions and marked rows as they were, and the budget of the living |
| LedgerStartup.LostSecretRefuses | apps/server-probe/src/ledger.rs:3907-3941 | A database with a living session, or with usage of today, of an identity that no remaining secret names is refused and stays as it is |
| LedgerStartup.RecoveryTakesBack | apps/server-probe/src/ledger.rs:2720-2837 | Start-up recovery in terms of the stored tables: every pending charge taken back, exactly the capabilities of the uploaded sessions among them revoked |
| LedgerStartup.BudgetCoversBatch | apps/server-probe/src/ledger.rs:2873-2890 | A batch expiry is stopped by the stored budget alone, and exactly when that does not hold what the batch frees |
| LedgerOpening.StartupRecovery | apps/server-probe/src/ledger.rs:2720-2837 | Start-up recovery of any stored database, whatever its budget: too many rows are refused, otherwise it completes if and only if every zero-byte refund finds its usage row, and counts the refunds |
| LedgerOpening.StartupRecoveryIsTotal | apps/server-probe/src/ledger.rs:2720-2837 | With at most 128 rows and no pending zero-byte charge the recovery of a crashed database completes, refunds every pending row, keeps every marked one, and done again changes nothing |
| LedgerOpening.RecoverIgnoresBudget | apps/server-probe/src/ledger.rs:2720-2837 | Recovery neither reads nor writes the stored budget |
| LedgerOpening.ExpireUnderWrongBudget | apps/server-probe/src/ledger.rs:2873-2890 | A batch expiry that completes on a wrong stored budget leaves the rows the right budget would have left |
| LedgerFrames.ReserveKeeps | apps/server-probe/src/ledger.rs:679-823 | A reservation, merges included, leaves every settled session's charge and settlement row alone |
| LedgerFrames.ReconcileKeeps | apps/server-probe/src/ledger.rs:1918-1936 | The periodic transaction changes a settled session only by giving back a pending charge; marked sessions keep their state |
| LedgerFrames.TransitionKeeps | apps/server-probe/src/ledger.rs:947-995 | A transition touches no charge and no settlement row |
| LedgerFrames.AbortTouchesOne | apps/server-probe/src/ledger.rs:1314-1365 | An abort touches the rows of its session only |
| LedgerTables.RowReplaced | apps/server-probe/src/ledger.rs:3943-3968 | Replacing a session row moves budget, held, active and charged totals by exactly the difference of that row's contributions |
| LedgerTransactions.DueRows | apps/server-probe/src/ledger.rs:2728-2745 | The recovery selection contains exactly the due settlement rows |
| LedgerTransactions.AbandonedRows | apps/server-probe/src/ledger.rs:2845-2871 | The expiry selection contains exactly the abandoned sessions, in order of id |
| UploadLedgers.UploadLedger.ClaimLease | apps/server-probe/src/ledger.rs:1847-1872 | Succeeds exactly for a reserved session with its token, a live capability and a storable duration; the row becomes receiving with a lease to the earlier of the rounded-up duration and the end of the capability; a refusal changes nothing; the ledger stays valid |
| UploadLedgers.UploadLedger.RenewLease | apps/server-probe/src/ledger.rs:1874-1909 | Succeeds exactly for a receiving session whose lease is live, under a live capability; only the lease changes, to the earlier of the rounded-up duration and the end of the capability; a refusal changes nothing; the ledger stays valid |
| UploadLedgers.UploadLedger.Expand | apps/server-probe/src/ledger.rs:852-945 | On a valid ledger succeeds exactly when size, session, quota, budget, disk and capability allow; reservation and budget grow by the same bytes, or nothing changes; the ledger stays valid |
| UploadLedgers.UploadLedger.Transition | apps/server-probe/src/ledger.rs:947-995 | On a valid ledger succeeds exactly for a legal transition, out of Uploaded only without a settlement row and with the stored file; a rejection frees the reservation and enqueues the file; a refusal changes nothing; the ledger stays valid |
| UploadLedgers.UploadLedger.Expire | apps/server-probe/src/ledger.rs:1583-1617 | On a valid ledger succeeds exactly for a known session that is not rejected and not marked; it then holds nothing, its capability is dead and its file enqueued, while its charge stands; a refusal changes nothing; the ledger stays valid |
| UploadLedgers.UploadLedger.Settle | apps/server-probe/src/ledger.rs:1099-1219 | On a valid ledger succeeds exactly for a receiving session whose bytes fit file limit and reservation; then the usage of its identity and day alone grows by the bytes and the settlement pends; a refusal changes nothing; the ledger stays valid |
| UploadLedgers.UploadLedger.BeginDelivery | apps/server-probe/src/ledger.rs:1221-1246 | Succeeds exactly for an unclaimed pending settlement of an uploaded session, and excludes every later attempt; a refusal changes nothing; the ledger stays valid |
| UploadLedgers.UploadLedger.MarkDelivery | apps/server-probe/src/ledger.rs:1273-1307 | Succeeds exactly for the attempt that claimed the row and the stored file, and excludes expiry and late compensation; a refusal changes nothing; the ledger stays valid |
| UploadLedgers.UploadLedger.AbortDelivery | apps/server-probe/src/ledger.rs:1314-1365 | Removes the mark and refunds in one transaction, or recognises that it was already done: success is decided exactly and means compensated; a late deadline rolls back; the ledger stays valid |
| UploadLedgers.UploadLedger.Acknowledge | apps/server-probe/src/ledger.rs:1370-1400 | Succeeds exactly for an uploaded session whose file is the stored one if there is a row; drops the row and is idempotent; a refusal changes nothing; the ledger stays valid |
| UploadLedgers.UploadLedger.CompensateLate | apps/server-probe/src/ledger.rs:1456-1581 | On a valid ledger succeeds exactly when session, token, identity, mark and bytes of the receipt allow, and then has taken charge or reservation, settlement row and capability away, to the byte; never once marked; with its own receipt the ledger stays valid; a refusal changes nothing |
| UploadLedgers.UploadLedger.RecoverRows | apps/server-probe/src/ledger.rs:2750-2837 | The loop over settlement rows computes the pass defined on the list, and stops with its first error |
| UploadLedgers.UploadLedger.Recover | apps/server-probe/src/ledger.rs:2720-2837 | On a valid ledger: refused exactly when failing closed on more due rows than the bound; otherwise the outcome, to the byte, of a pass over the due rows that fewer than the bound come before |
| UploadLedgers.UploadLedger.ExpireRows | apps/server-probe/src/ledger.rs:2873-2890 | The loop over abandoned sessions computes the batch defined on the list, skips active ones, and stops with its first error |
| UploadLedgers.UploadLedger.ExpireAbandoned | apps/server-probe/src/ledger.rs:2839-2892 | On a valid ledger always succeeds and expires exactly the abandoned sessions that are not active; the ledger stays valid |
| UploadLedgers.UploadLedger.Reconcile | apps/server-probe/src/ledger.rs:1918-1936 | Recovery then expiry in one transaction, every table restored on an error; a completed one has refunded exactly the pending rows at least thirty seconds old that fewer than 64 such rows come before; the ledger stays valid |
| UploadLedgers.UploadLedger.RecordCleanup | apps/server-probe/src/ledger.rs:1670-1764 | The row goes exactly when the file was removed, otherwise counts one attempt more and waits, at the cursor of the page a second, after an error a growing delay; no other row changes; the ledger stays valid |
| UploadLedgers.UploadLedger.MergeUsage | apps/server-probe/src/ledger.rs:4030-4055 | The loop that adds the usage of one identity to another, day by day |
| UploadLedgers.UploadLedger.MergeIdentity | apps/server-probe/src/ledger.rs:4021-4062 | Sessions, usage and hashes of one identity pass to another, which then replaces it |
| UploadLedgers.UploadLedger.ResolveIdentity | apps/server-probe/src/ledger.rs:2189-2230 | Finds, merges and completes the aliases of an address, or creates its identity |
| UploadLedgers.UploadLedger.Reserve | apps/server-probe/src/ledger.rs:679-823 | On a valid ledger succeeds exactly when the request is acceptable and all owners of the address together leave room; appends the complete row with its capability to the tables with the owners merged; a refusal rolls back merges and new identities, so that nothing changes; the ledger stays valid |
| UploadLedgers.UploadLedger.ValidateStartup | apps/server-probe/src/ledger.rs:2021-2141 | The start-up tests in order: the total, then row by row the size before the file, then quotas, secrets and margin; on success the recomputed budget |
| UploadLedgers.UploadLedger.CheckFiles | apps/server-probe/src/ledger.rs:2034-2076 | The loop over active sessions in order of id finds an error exactly if some row is too large or its file fails, and reports that of the first such row |
| UploadLedgers.UploadLedger.Open | apps/server-probe/src/ledger.rs:572-582 | Recovery, expiry and validation in one start-up transaction: from a stored database the answer is decided on the stored tables alone, success leaves a valid ledger for the configured limits without pending settlements and nothing else changed, and a failure changes nothing |
| UploadWorkers.ChunkTotals | apps/server-probe/src/routes.rs:1562-1609 | The byte loop asks for exactly the running totals of the chunks, none above the file limit, and stops at the first chunk that would pass it |
| UploadWorkers.HandlerIsCumulative | apps/server-probe/src/routes.rs:1562-1614 | Start, writes and finish built from the totals of the byte loop, with an abort at any place, ask for a total that is always the bytes so far plus the chunk |
| UploadWorkers.Others.Pass | apps/server-probe/src/routes.rs:614-655 | What others do before a call of the worker is exactly the transactions of their turn, heartbeat renewals and reconciliations with the session active among it; it keeps the ledger valid and leaves the session as it was but for identity and lease, or refunds its pending charge |
| UploadWorkers.Others.Act | apps/server-probe/src/routes.rs:614-655 | The loop makes exactly the given transactions of others, keeps the ledger valid on the day reached and spares the session |
| UploadWorkers.UploadWorker.Claim | apps/server-probe/src/routes.rs:765-799 | Succeeds if and only if the claim is granted on the tables others leave, the file opens and no deadline has passed; the tables are then exactly those of that claim and the next turn of others; on any failure a claimed session can still be expired |
| UploadWorkers.UploadWorker.DoStart | apps/server-probe/src/routes.rs:765-811 | Stops if and only if the start failed or nobody received the answer; a claimed session is then Expired |
| UploadWorkers.UploadWorker.Secure | apps/server-probe/src/routes.rs:829-855 | Answers yes if and only if renewal, margin, growth and identity test all pass, each on the tables others have left by then; the stored reservation then covers the total the chunk reaches, and the tables are exactly those of these calls |
| UploadWorkers.UploadWorker.DoWrite | apps/server-probe/src/routes.rs:812-876 | The worker goes on if and only if every step passed and the answer was received; it then has written the chunk and the tables are exactly those of its calls; a chunk written ends within the reservation stored at that moment; a claimed session is Expired on a stop |
| UploadWorkers.UploadWorker.DoFinish | apps/server-probe/src/routes.rs:877-948 | Settles if and only if the ledger settles in time and the receipt is taken, which nothing but a deadline, the file, the disk or a lost answer can prevent; on any other way out of an open upload the session is Expired, or its settlement pends for recovery |
| UploadWorkers.UploadWorker.Revert | apps/server-probe/src/routes.rs:934-942 | Takes back a settlement nobody received, by exactly one late compensation unless storage is busy: compensated unless a merge has changed the identity or the usage row is gone, and then still pending |
| UploadWorkers.UploadWorker.Run | apps/server-probe/src/routes.rs:744-965 | For every command sequence and everything others do between its calls the worker takes the commands up one after the other exactly as long as it can go on, each on the tables its previous calls and the others left; each chunk written ends within the reservation stored at that moment, a claimed session ends Uploaded with its intent pending, if and only if its last command settled it, or Expired, and the session leaves the active set |
| UploadWorkers.UploadWorker.Cleanup | apps/server-probe/src/routes.rs:967-976 | After what others do first, exactly an expiry: an expirable session ends Expired and any other leaves every table as it was |
| EventStores.AppendEvent | apps/server-probe/src/events.rs:1243-1306 | Succeeds exactly when policy, lease and revision allow, and appends and deletes rows; the row then stands for the history with one more entry exactly when the job had not ended or is only being created |
| EventTables.OneTerminalAppend | apps/server-probe/src/events.rs:277-282 | Only the last append of a job can have ended it, the revision counts the appends, and no two stored rows mark completion |
| EventStores.EventStore.RegisterState | apps/server-probe/src/events.rs:305-450 | Succeeds exactly for a new job while fewer than 128 records count, a repeated state of a served job, or a live active job; each refusal names its reason; adds one entry unless the state repeats, of kind "job.completed" or "job.failed" exactly for those states, and changes nothing of the row but state, lease of sixty seconds, retention and, for an ended job, how long it is kept; never raises the number of active records above 128 |
| EventStores.EventStore.Append | apps/server-probe/src/events.rs:453-490 | Succeeds exactly for non-terminal events on a live active job; adds exactly one entry and leaves lease and retention alone; each refusal names its reason |
| EventStores.EventStore.CancelJob | apps/server-probe/src/events.rs:494-560 | Succeeds exactly on a live active job, which it ends with one entry and keeps for its retention from now, or on an already cancelled one, which it leaves as it is; each refusal names its reason |
| EventStores.EventStore.RenewWorkerLease | apps/server-probe/src/events.rs:564-598 | Extends a live lease of an active job to the requested seconds from now, at most a day; an ended job or a lapsed lease is refused |
| EventStores.EventStore.ReplayAfter | apps/server-probe/src/events.rs:631-717 | The answer from the truncated table is the answer from the full history: each missing event as it was appended, with its revision and telling whether it completed or failed the job, exactly when at most 64 are missing (65 once the job completed), otherwise a resync at the current revision; each refusal names its reason |
| EventLog.AnswerReplays | apps/server-probe/src/events.rs:631-717 | What a client is to be told, in literals: the events as appended and with their revisions, or the present snapshot |
| EventStores.ReplayJob | apps/server-probe/src/events.rs:664-716 | Replay from one stored row agrees with its full history |
| EventStores.CompleteExactlyInWindow | apps/server-probe/src/events.rs:688-712 | What the table still holds passes the completeness test if and only if the client is within the window, and then it is all that is missing |
| EventStores.EventStore.FailStaleJob | apps/server-probe/src/events.rs:1005-1033 | A lapsed active job fails with one "job.failed" entry and lease zero, kept for its retention from now; one with a live lease is left alone |
| EventStores.EventStore.RetireJob | apps/server-probe/src/events.rs:1034-1061 | A lapsed record goes together with its capabilities and its artifact, which leaves an identity-bound cleanup intent; without room for the intent everything stays |
| EventReconciliation.LapsedIsExpired | apps/server-probe/src/events.rs:961-962 | The rows the reconciliation selects are exactly the expired jobs |
| EventReconciliation.BatchStep | apps/server-probe/src/events.rs:991-1062 | One more job keeps the batch exact: reached jobs have failed or gone, or stay for want of room, and the others are as they were |
| EventReconciliation.FollowStep | apps/server-probe/src/events.rs:1034-1061 | One more job keeps artifacts, capabilities and intents in step with the jobs: an artifact that goes leaves an intent that names its file, and nothing else enters the outbox |
| EventReconciliation.SelectLapsed | apps/server-probe/src/events.rs:952-990 | The query: at most 32 lapsed jobs, oldest first with ties broken by id, none with an artifact to be retired while the outbox is full; an eligible job is left out only if 32 others lapsed before it |
| EventReconciliation.Soonest | apps/server-probe/src/events.rs:965-968 | The job of a set that lapsed first |
| EventStores.EventStore.ReconcileJobs | apps/server-probe/src/events.rs:991-1062 | The whole batch: commits if and only if every active job in it has a revision to spare; then each has failed with one entry, each lapsed record is gone with its artifact and capabilities unless the outbox is full, no intent is lost, nothing else changes, the count is the number of records gone, and the active records grow by exactly the active jobs whose lease and retention had both lapsed; otherwise everything is rolled back |
| EventStores.EventStore.ReconcileExpired | apps/server-probe/src/events.rs:947-1062 | The pass as a whole: the batch above over exactly the 32 eligible jobs that lapsed first |
| EventReconciliation.BatchRaisesRecords | apps/server-probe/src/events.rs:1005-1033 | A batch raises the number of active records by exactly the active jobs in it whose lease and retention have both lapsed, whatever the capacity |
| EventWitnesses.ReconciliationPassesTheBound | apps/server-probe/src/events.rs:405-415 | A run of the store that ends with 129 active records: one worker that lapses, 128 registrations after it, one reconciliation |
| EventTables.LinkKeepsOk | apps/server-probe/src/events.rs:820-855 | Linking keeps the foreign key and the unique key of the artifact table |
| EventStores.EventStore.LinkArtifact | apps/server-probe/src/events.rs:749-855 | Succeeds exactly when job, artifact and capabilities allow; then artifact, record and every live capability concerned expire at one common time, later than now and no later than any of them did |
| EventStores.EventStore.CheckLink | apps/server-probe/src/events.rs:749-820 | Whether an artifact can be linked, decided on the tables: the job completed and kept, room in the outbox, live status, events and download capabilities among at most 256, no other artifact; each refusal names its reason |
| EventStores.LiveLinkCapabilities | apps/server-probe/src/events.rs:1355-1424 | Finds exactly the live capabilities concerned and the earliest of their expiries and the proposed one; requires status, events and download among them |
| EventStores.EarliestExpiry | apps/server-probe/src/events.rs:1390-1424 | The loop keeps the minimum expiry and exactly the scopes granted |
| EventTables.ShortenedAligns | apps/server-probe/src/events.rs:820-826 | Updating the capabilities that expire later aligns all of them and lengthens none |
| EventLog.RevisionBlobs | apps/server-probe/src/events.rs:1434-1441 | Stored revisions are eight bytes, decode to what was encoded, and compare as blobs like the numbers they stand for |
| EventLog.RetainedAppend | apps/server-probe/src/events.rs:1266-1304 | Deleting after each append never loses a row a later deletion would have kept: the table always is the suffix determined by the full history |
| EventLog.RetainedIsTruncated | apps/server-probe/src/events.rs:1298-1304 | Deleting after every append leaves what deleting once from the full table would |
| EventLog.NewerIsSuffix | apps/server-probe/src/events.rs:664-690 | The rows whose blobs are greater than the client's revision are the rows after it |
| EventClient.FramesAre | apps/server-probe/src/routes.rs:1708-1734 | A connection sends every missing event in order, or one resync frame when the client is out of the window |
| EventClient.RunIsFaithful | apps/server-probe/src/routes.rs:1697-1734 | For any interleaving of appends, connections and cut connections: every event received is the true one for its id, ids continue without gap unless the frame is a resync carrying the revision of its time |
| EventClient.StrictlyIncreasing | apps/server-probe/src/routes.rs:1697-1734 | The ids a client receives increase strictly over its whole life |
| EventClient.FullConnectionCatchesUp | apps/server-probe/src/routes.rs:1708-1734 | A connection that is not cut leaves the client at the current revision |
| EventClient.CutConnection | apps/server-probe/src/routes.rs:1708-1734 | A connection cut after some frames has brought exactly these, in the order sent, and lost nothing the client had |
| EventClient.AppendTaken | apps/server-probe/src/events.rs:1243-1306 | A job takes an event exactly while it is active and has a revision to spare; the client does not notice |
| EventClient.NeverFutureRevision | apps/server-probe/src/events.rs:651-663 | A client that sends the last id it received is never answered that the revision is in the future |
| IdentityScan.EnumeratePage | apps/server-probe/src/ledger.rs:2533-2556 | The paging loop yields the page and cursor defined on sorted listings |
| IdentityScan.PageCovers | apps/server-probe/src/ledger.rs:2533-2556 | A page that did not wrap shows exactly the names after the cursor up to the next cursor |
| IdentityScan.ScanMissesNothing | apps/server-probe/src/ledger.rs:2533-2556 | However the directory changes between pages, when a scan ends or wraps every name listed throughout has been on a page |
| IdentityScan.RemoveFileIfIdentityPage | apps/server-probe/src/ledger.rs:2452-2531 | Removes nothing but a name that leads to the wanted file, and only when that file has no other name and no other link |
| IdentityScan.AttemptFinds | apps/server-probe/src/ledger.rs:2452-2531 | While the file keeps its name and the cursor has not passed it, an attempt removes it, fails, or moves the cursor towards it |
| IdentityScan.AttemptAnswers | apps/server-probe/src/ledger.rs:2452-2531 | When an attempt removes a file, fails, or reports that there is none: the known name first, then the page, and only ever the sole name of the wanted file |
| IdentityScan.RowStep | apps/server-probe/src/events.rs:1151-1238 | One attempt on a waiting row, whatever the directory shows: a removal ends it, a failure leaves it as it was, a page moves its cursor or starts the second pass |
| IdentityScan.GoneMeansRemoved | apps/server-probe/src/events.rs:1151-1238 | Over any sequence of attempts an intent is gone if and only if one of them has removed the file |
| IdentityScan.PutOffMeansGivenUp | apps/server-probe/src/events.rs:1151-1238 | Over any sequence of attempts an intent has been put off if and only if one of them found no file in a whole scan, or ended a scan that had been restarted or had not moved |
| IdentityScan.PageStartsOver | apps/server-probe/src/ledger.rs:2533-2556 | With nothing listed after the cursor the page starts over from the first name |
| IdentityScan.StableFileIsNeverPutOff | apps/server-probe/src/events.rs:1151-1238 | An intent whose file keeps one name and one identity is gone exactly when an attempt has removed the file, and until then keeps scanning on its first pass: it is never put off |
| IdentityScan.PageAdvances | apps/server-probe/src/ledger.rs:2533-2556 | A page that leaves a cursor and did not wrap puts 64 more names behind the scan |
| IdentityScan.StableFileIsRemoved | apps/server-probe/src/events.rs:1151-1238 | When no attempt fails, as many attempts as pages of 64 names that all names ever shown would fill remove a stable file, however the directory changes in between |
| Base64Url.EncodeBytes | apps/server-probe/src/auth.rs:333-352 | The chunk loop spells the 6-bit groups of the bytes, for any length |
| Base64Url.LetterIs | apps/server-probe/src/auth.rs:333-352 | The letters are those of RFC 4648, section 5, in its order, given as a string |
| Base64Url.TextIsNumber | apps/server-probe/src/auth.rs:333-352 | Read as digits of base 64 the groups are the number the bytes are in base 256, shifted by the filler bits, for any length |
| Base64Url.DecodeLetters | apps/server-probe/src/auth.rs:359-373 | The decoding loop gives the bytes and left-over bits of the letters, with the accumulator bounded, or refuses a character outside the alphabet |
| Base64Url.DecodeAfterEncode | apps/server-probe/src/auth.rs:333-385 | Decoding what was encoded gives the bytes back and only zero bits left over, for any length |
| Base64Url.EncodeAfterDecode | apps/server-probe/src/auth.rs:374-384 | Encoding what was decoded gives the groups back whenever the left-over bits are zero and no group stands alone |
| Base64Url.BitTestImpliesCanonical | apps/server-probe/src/auth.rs:374-384 | For a token of the right length the length and bit-count tests always pass, and the zero-bits test holds if and only if the bytes encode back to the token |
| Base64Url.DecodeCanonicalToken | apps/server-probe/src/auth.rs:355-385 | Accepts exactly the encodings of 32-byte tokens and returns their bytes |
| TrackedPaths.ValidateTrackedPaths | scripts/prepare_stage0_desktop_source.py:81-106 | Accepts if and only if no path meets the marker and any two paths are compatible: equal normalized prefixes spelled alike, no normalized path a prefix of the other |
| TrackedPaths.CompatibleMeans | scripts/prepare_stage0_desktop_source.py:87-106 | Two paths are compatible if and only if their components, compared one by one under normalization, neither make one path a prefix of the other nor spell a common prefix differently |
| TrackedPaths.AgreeingPathsClash | scripts/prepare_stage0_desktop_source.py:87-106 | Two paths whose components agree one by one under normalization are never both accepted |
| TrackedPaths.PathTables.AddPath | scripts/prepare_stage0_desktop_source.py:87-106 | The inner loop admits a path exactly when no prefix clashes with the tables, and then records all its prefixes |
| TrackedPaths.AdmitsExactly | scripts/prepare_stage0_desktop_source.py:87-106 | On the tables of acceptable paths one more is admitted if and only if it avoids the marker and is compatible with each of them |
| TrackedPaths.TablesOfMean | scripts/prepare_stage0_desktop_source.py:82-106 | What the three tables say about any key, told from the paths alone |
| TrackedPaths.OrderDoesNotMatter | scripts/prepare_stage0_desktop_source.py:81-106 | The verdict is the same for every order of the same entries |
| TrackedPaths.FileTree.CopyFile | scripts/prepare_stage0_desktop_source.py:309-329 | Succeeds if and only if no directory above is taken by a file and the name is free; then adds the file and the missing directories |
| TrackedPaths.RoomForCompatible | scripts/prepare_stage0_desktop_source.py:309-329 | A compatible path finds room in the tree of the others, names compared normalized |
| TrackedPaths.TreeOfMeans | scripts/prepare_stage0_desktop_source.py:411-416 | The copied tree holds the marker, each file as spelled, the directories above them, and nothing else |
| TrackedPaths.CopySnapshot | scripts/prepare_stage0_desktop_source.py:411-416 | Copying an acceptable list into a fresh directory never collides and yields exactly that tree |
| EvidenceInputs.LocalDependencyClosure | crates/fluxform-capabilities/src/evidence.rs:157-193 | Returns exactly the packages reachable from the start by path dependencies; fails if and only if a reachable one has a path dependency absent from the metadata, and never for a package missing from the metadata |
| EvidenceInputs.EnqueueDependencies | crates/fluxform-capabilities/src/evidence.rs:171-191 | Queues exactly the path dependencies of the first package with a path, or reports one whose path does not resolve or that the metadata lacks, as which of the two it is |
| EvidenceInputs.ParseFraming | crates/fluxform-capabilities/src/evidence.rs:76-83 | A parser undoes the length-prefixed framing of any list of files |
| EvidenceInputs.FramingIs | crates/fluxform-capabilities/src/evidence.rs:76-83 | The stream of a file is the length of its name in eight bytes, big-endian, the name, the length of its content likewise, the content; files follow one another |
| EvidenceInputs.FramingIsInjective | crates/fluxform-capabilities/src/evidence.rs:76-83 | Two sorted sets of files with equal framings are equal |
| EvidenceInputs.FeedHash | crates/fluxform-capabilities/src/evidence.rs:76-83 | The loop feeds the hash exactly the framing |

## Left out

- SQLite, the schema, column migrations and rows of older schemas (capability table absent, artifacts or sessions without file identity): each IMMEDIATE transaction is one atomic step that commits or leaves the state as it was.
- File handles, pinning, allocation and disk queries: their answers, and every deadline test, are arguments of the operations. File identities are taken never to be reused.
- SHA-256, HMAC and randomness: an address hash is the pair of secret and address, a token is a number, an attempt id is the number of its exchange.
- LedgerLeases.LeasesFitUnlessOverlong: takes the token of every new session to be no other session's, as it is drawn at random; the tables do not enforce it.
- The clock is read once per operation. Days never go back.
- Session ids count from zero; the row with id n + 1 is session n.
- Input formats (resource ids, event types, JSON sizes, addresses, scope strings) and the HTTP layer: requests arrive parsed, and an address that is not one is an absent value.
- The acknowledgement batch at `apps/server-probe/src/ledger.rs:1402-1428` as a loop: its rows are acknowledged one by one, in any order, by the protocol's steps.
- Artifacts that belong to no job, and the loop of the cleanup outbox over its rows: each row is updated on its own.
- The compensation of a reservation whose commit came late: it is an `Expire` of its own.
- UploadLedgers.UploadLedger.Open: the legacy migrations before the recovery and the file reconciliation after the commit are not part of this model; how the test of each file ends is an argument.
- LedgerReconciliation.CompensateLateKeepsInv: is stated for the receipt of the session's own settlement, because the code compares identity and bytes of a receipt but not its day; the worker never holds another receipt. `LedgerSteps.EffectKeepsInv` skips a compensation with another day for the same reason.
- UploadLedgers.UploadLedger.CompensateLate: promises that the ledger stays valid for the receipt of the session's own settlement; for any other receipt only when it succeeds and what that leaves.
- LedgerInvariant.LeaseWithinCapability: says nothing of the receiving lease that an expansion stores; `LedgerLeases.StoredLease` does.
- UploadWorkers.UploadWorker.Run: others act before each of the worker's ledger calls, never inside one, and do not act for its session; what holds at the end holds when its last call returns. What each call finds and leaves is told by what others do in their turns.
- UploadWorkers.ChunkTotals: timeouts and interrupted streams, which end the loop with an error.
- EventStores.EventStore.ReconcileJobs: is stated for any distinct lapsed jobs; `ReconcileExpired` gives it exactly those the query selects. Artifacts without a stored file identity, which the query and the retirement treat apart, are rows of an older schema.
- EventClient.RunIsFaithful: one incarnation of a job id; a retired and re-registered id starts a new history.
- EventClient.FramesAre: the limit on the size of one response, beyond which the connection fails, is not part of this model.
- IdentityScan.StableFileIsRemoved: the bound counts every name ever shown, since a directory that keeps gaining names ahead of the cursor keeps the scan going; attempts that fail are not counted, and an intent that was put off starts afresh a day later.
- TrackedPaths.CopySnapshot: reading a source file and the copied mode and times are not part of this model; normalization of one name (NFC, then case folding) is a parameter.
- EvidenceInputs.LocalDependencyClosure: paths are numbers already canonical, the start package is given, and the final check that each path lies below the repository root is not part of this model.
- Base64Url.DecodeCanonicalToken: a token is a string of characters; a character that is not ASCII is refused as no letter of the alphabet.
- LedgerStarvation.StarvesThroughout: the times of the transactions are later than the marked rows; a settlement stored with an older time, by a clock set back, would be visited first.
- CIDR and forwarded-header parsing, retry delays of requests, sandbox probes, reports and the desktop client: field comparisons and input or output.
- LedgerRefusals.ReserveRefusal: says that each error is true, not which of several true ones is answered; so do the errors of the other transactions and of the event store.
