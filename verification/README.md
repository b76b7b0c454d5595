# Shelter-bed matching: a verified model

A Dafny model of the matching engine of the shelter-bed network: the transactions that
allocate beds and apply bed-status events, the search a submitted referral makes, the Kafka
consumer that drives the events, and the intake gate in front of the log.

There are two layers over one specification.

* `Domain.dfy`, `Store.dfy` hold the tables, the SQL filters and the three transactions as
  functions on committed databases, with the invariant `Valid`. `Coupling.dfy` adds the
  coupling of bed statuses with reservations and the counts; `Search.dfy` says what a whole
  uninterfered search and one handled event do; `Submissions.dfy` reads a submission off the
  tables and shows that only ties leave a choice; `Release.dfy` says what the release is for.
* `Engine.dfy` is the imperative layer: a class whose methods update the tables as the
  transactions do, with the scan that picks a referral, the bounded search loop, the retry
  loop and the receive loop.
* `Machine.dfy` is the concurrent layer: any number of callers and one consumer for each
  partition run at once, one SQL statement at a time, with row locks, uncommitted index keys,
  errors at any point, lost acknowledgements, asynchronous and lost offset commits, crashes
  and rewinds. `Locking.dfy`, `Guarantees.dfy`, `Progress.dfy`, `Offsets.dfy`, `Awards.dfy`,
  `Ownership.dfy`, `Registers.dfy`, `Intake.dfy`, `Answers.dfy`, `Surge.dfy`, `Iterations.dfy`
  and `Announcements.dfy` prove what holds over every run of it; `Scenarios.dfy` gives runs in
  which something the code does not prevent happens.

## What is assumed

* Each SQL statement but one is an atomic step against the committed rows, as Read Committed
  shows them; `FOR UPDATE` waits for a row lock and reads the row it then gets; a commit
  publishes all of a transaction's writes at once. The query that picks a referral is two
  steps: a snapshot, and a scan of it in rank order that passes over rows locked by others,
  locks the others and checks again, on the committed rows, those that changed. A row that
  fails this second check stays locked until the transaction ends.
* Fresh UUIDs do not collide with stored ones. `now()` is a parameter; ties are allowed.
* A run starts from a valid database with no unmatched pair, an empty ledger and unread logs.
  The set of beds and their attributes does not change.
* Hypotheses particular to one result are in its contract: `Identified` (one id, one event),
  `Sequenced` (one sequence number of a bed, one report), `Homed` (a bed's events in one
  partition), `Gated` (every record came through the intake gate).
* `capped`, `announced`, `muted` and `offered` in the machine's state are history variables. A
  referral enters `capped` when its search uses up its 500 iterations.
* A step drops a referral when it leaves it pending without whoever looked after it: an event
  displaces it, its search runs out of iterations or is ended by an error or a disconnect, or
  an allocation that had chosen it is rolled back by one.
* The broker may store the offsets it is sent in any order, also backwards.

## Where the comments and the code differ

* `crates/matching-engine/src/matcher.rs:64-65` says the search makes at most one iteration
  for each matching bed even under contention. That fails: with two beds and two calls a search
  can use up all 500 iterations on one bed that stays available
  (`Scenarios.TwoBedsFiveHundredIterations`). It holds while no other allocation takes the
  referral (`Iterations.ConcurrentSearchIsBounded`); in every run the excess is the number of
  the search's queries that find nobody (`Iterations.IterationsAreBounded`), and an iteration
  is lost on an unlocked bed if and only if everybody waiting for the bed is taken by another
  (`Iterations.SpinsIffContended`).
* `crates/matching-engine/src/matcher.rs:329-336` says that the no-double-booking guarantee does
  not rest on the release, and that without it the next allocation would hit a unique index.
  That fails for checked-in reservations, which the partial indexes do not cover
  (`Release.BookedTwiceWithoutRelease`); `Release.IndexesSuffice` and `Release.ReleaseIsNeeded`
  say exactly when the indexes alone would do and when the release has an effect.
* `crates/matching-engine/src/matcher.rs:145-150` says an allocation locks the bed row and the
  one referral row it commits to, and nothing else. Rows that were matched between the query's
  snapshot and its scan are locked too (`Guarantees.LocksBesidesItsChoice`), and an event
  transaction can wait for one of them while it holds its bed (`Scenarios.ABedHolderWaits`).
  Allocations for different beds indeed never block each other
  (`Guarantees.AllocationsWaitForTheirBed`), and no chain of waits closes.
* `crates/matching-engine/tests/concurrency.rs:10` speaks of SKIP LOCKED on the bed row; the
  code waits for the bed and skips locked referrals, and the model follows the code.

## Model

| member | source | states |
|---|---|---|
| Domain.EligibleUnlessRefused | crates/common/src/model.rs:176-190 | a bed and a referral are kept apart by each of the four hard constraints and by nothing else |
| Store.FiltersAgree | crates/common/src/model.rs:176-190 | the bed-side search filter and the referral-side allocation filter accept exactly the pairs of one region, on offer or pending, that the eligibility predicate accepts |
| Store.RankOrder | crates/matching-engine/src/matcher.rs:200 | vulnerability first whatever the time, then the earlier one; only rows equal in both are tied; a strict weak order |
| Store.ApplyRowByRow | crates/matching-engine/src/matcher.rs:322-365 | what an applied event writes, row by row: status and sequence number of its bed, active to checked-in when occupied, live to released and the referral back to pending when available or under maintenance, and nothing else |
| Store.ReserveKeepsValid | crates/matching-engine/src/matcher.rs:237-257 | an allocation of an available bed to a pending referral that suits it keeps every reservation fitting, no bed or referral in two live reservations, and matched exactly those who hold a bed |
| Store.ReleasedIsHolder | crates/matching-engine/src/matcher.rs:347-355 | the release hits at most one row and returns the referral that held the bed |
| Store.ApplyKeepsValid | crates/matching-engine/src/matcher.rs:322-365 | applying any event, whatever it reports, keeps the same invariant: what goes back on offer or into maintenance is held by nobody |
| Store.AtomicKeepsValid | crates/matching-engine/src/matcher.rs:151-264 | every change a transaction commits keeps the invariant |
| Store.AtMostOneRow | crates/matching-engine/src/matcher.rs:125-133 | the reads that fetch at most one live reservation of a bed or a referral never meet two, though no index covers checked-in rows |
| Release.IndexesGuardActive | migrations/0001_init.sql:56-61 | with the release left out the indexes still keep active rows apart: an insertion keeps beds and referrals in at most one active row if and only if no index stops it |
| Release.ReleaseIsNeeded | crates/matching-engine/src/matcher.rs:322-365 | leaving the release out of an event keeps the invariant, and changes nothing, if and only if the event does not put a bed that somebody holds back on offer or into maintenance |
| Release.NextReserve | crates/matching-engine/src/matcher.rs:329-336 | after a report of available without the release, the next reservation of a held bed is a second live one, and an index stops it if and only if the first is still active |
| Release.IndexesSuffice | crates/matching-engine/src/matcher.rs:329-331 | without the release the indexes alone keep the next allocation from double booking if and only if the event does not report available a bed with a checked-in reservation that somebody waits for |
| Release.BookedTwiceWithoutRelease | crates/matching-engine/src/matcher.rs:329-331 | a concrete valid, coupled database of one bed and two referrals where the release left out lets the bed be booked twice past both indexes |
| Coupling.AtomicKeepsCoupled | crates/matching-engine/src/matcher.rs:329-346 | unless an event reports RESERVED, reserved beds stay exactly the beds with an active reservation, and checked-in reservations stay on occupied beds |
| Coupling.ApplyCoupling | crates/intake-ingestion/src/grpc.rs:34-50 | exactly when applying an event keeps that coupling: if and only if it does not report RESERVED, or the bed was reserved already |
| Coupling.ReservedCount | crates/matching-engine/tests/concurrency.rs:76-98 | as many reserved beds as active reservations |
| Coupling.MatchedCount | crates/matching-engine/tests/concurrency.rs:100-108 | as many matched referrals as live reservations, each on a bed of its own |
| Search.RunRows | crates/matching-engine/src/matcher.rs:66-105 | the tables after a whole search, row by row: the awarded beds reserved, the awarded referrals matched, one new active reservation for each award in order, all else as before |
| Search.EachAward | crates/matching-engine/src/matcher.rs:66-105 | from any backlog, each iteration takes a new bed that was on offer from the start and suits the new referral, and gives it to a new, previously pending referral that suits it and does not rank below the new one |
| Search.SearchIsBounded | crates/matching-engine/src/matcher.rs:64-66 | without interference a search makes at most one allocation for each bed that was a candidate at its start |
| Iterations.EmptyMeansGoneOrTaken | crates/matching-engine/src/matcher.rs:171-222 | an attempt ends without a referral if and only if its bed is not available when it is locked, or everybody in the query's snapshot still waiting for it is taken by another |
| Iterations.IterationsAreBounded | crates/matching-engine/src/matcher.rs:64-105 | in every run, events and failures included, a search begins at most as many iterations as times a matching bed came on offer to it, plus its queries that found nobody |
| Iterations.CapMeansFiveHundred | crates/matching-engine/src/matcher.rs:66 | a search runs out of iterations only if these two add up to at least 500 |
| Iterations.UntakenNeverSpins | crates/matching-engine/src/matcher.rs:188-222 | while no other allocation takes the referral none of its search's queries finds nobody |
| Iterations.ConcurrentSearchIsBounded | crates/matching-engine/src/matcher.rs:64-66 | the comment's bound under contention, on the condition that no other allocation takes the referral: at most one iteration for each time a matching bed came on offer, without events for each matching bed at the submission |
| Iterations.SpinsIffContended | crates/matching-engine/src/matcher.rs:92-102 | an uninterrupted iteration finds a bed on offer and comes back with nothing if and only if that bed is unlocked and everybody waiting for it is taken |
| Iterations.ContentionCaps | crates/matching-engine/src/matcher.rs:66-108 | from any such reachable state the search can burn all its remaining iterations on that bed while nothing else changes |
| Scenarios.TwoBedsFiveHundredIterations | crates/matching-engine/src/matcher.rs:64-66 | a concrete run, without events or failures, in which a search begins 500 iterations and runs out against two matching beds that stay available |
| Scenarios.ABedHolderWaits | crates/matching-engine/src/matcher.rs:145-150 | a concrete run in which a transaction that holds a bed waits for a row another kept locked |
| Search.SubmitStrandsNobody | crates/matching-engine/src/matcher.rs:34-109 | from a database with no unmatched pair, a whole search awards nothing to anyone else and leaves no unmatched pair |
| Search.EventStrandsOnlyTheDisplaced | crates/matching-engine/src/kafka_consumer.rs:130-178 | from such a database, a pair is left after an event is handled if and only if the event displaced its referral, that referral did not win the event's bed, and the pair's bed is another available one that suits it |
| Search.SafeEvents | crates/matching-engine/src/matcher.rs:329-365 | exactly which events leave no pair whatever the choice among ties: if and only if any referral the event displaces suits no other available bed, or its bed is reported available and it outranks everybody waiting for it |
| Search.ANoShowReopens | crates/matching-engine/tests/reservation_lifecycle.rs:18-88 | for every valid database and held bed: a report of available answers applied and became available, releases the reservation, re-pends the referral, and the bed goes at once to somebody whom that referral does not outrank |
| Search.AHoldReleases | crates/matching-engine/tests/reservation_lifecycle.rs:90-134 | a maintenance hold releases and re-pends likewise but allocates nothing, and once lifted the bed goes to somebody whom the referral does not outrank |
| Submissions.SubmittedMeans | crates/matching-engine/src/grpc.rs:66-91 | the answer matches the tables: the referral is recorded as submitted and matched exactly if told so, with the bed and shelter of the last row made; pending with fewer than 500 rows made means no bed left that it could have |
| Submissions.SubmittedOnce | crates/matching-engine/src/matcher.rs:62-108 | without ties the tables and the answer after an undisturbed submission are determined |
| Search.AStrandedReferral | crates/matching-engine/src/kafka_consumer.rs:157-164 | a concrete maintenance hold after which the displaced referral waits beside a free bed |
| Engine.MatchingEngine.SelectReferral | crates/matching-engine/src/matcher.rs:188-210 | the scan returns a waiting referral that no other outranks, or there is none waiting |
| Engine.MatchingEngine.FindCandidate | crates/matching-engine/src/matcher.rs:67-85 | the search query returns the candidate with the least id, or there is none |
| Engine.MatchingEngine.AllocateForBed | crates/matching-engine/src/matcher.rs:151-264 | undisturbed, an available bed goes to a pending eligible referral of its region of maximal vulnerability, earliest among equals, with exactly the three rows written; otherwise nothing changes and no such pair existed |
| Engine.MatchingEngine.ApplyBedStatusEvent | crates/matching-engine/src/matcher.rs:283-374 | duplicate exactly if the id is in the ledger, else unknown exactly if the bed is missing, else stale exactly if the number is not above the bed's, all rolled back in full; otherwise applied, with the bed's own shelter, became-available exactly if so reported and not so before, and every table row by row |
| Engine.MatchingEngine.ResolveFinalOutcome | crates/matching-engine/src/matcher.rs:111-143 | pending if and only if the referral has no live reservation; otherwise the bed of one it has |
| Engine.MatchingEngine.SubmitReferral | crates/matching-engine/src/matcher.rs:34-109 | the side list followed by the call's own award is exactly the sequence of allocations committed, each the best choice on the least candidate at its turn; matched within 500 iterations, or pending with no eligible bed of the region left on offer or all 500 used |
| Engine.MatchingEngine.MatchReferral | crates/matching-engine/src/grpc.rs:24-93 | the referral is recorded as submitted and matched exactly if the answer names a bed, which was available, with its shelter and its row; pending short of 500 rows leaves no bed for it; each reservation made is published as reserved with its bed's shelter, once, in the order made, and nothing else is |
| Engine.MatchingEngine.ApplyAndNotify | crates/matching-engine/src/kafka_consumer.rs:130-178 | the event is applied or absorbed and an allocation on its bed attempted that leaves nobody waiting beside it; published is exactly one notice of the bed and its shelter: reserved if it was allocated, else the reported status if the event was applied, else none |
| Engine.HandledOnce | crates/matching-engine/src/kafka_consumer.rs:130-178 | without ties the database after an event is handled and whom it serves are determined |
| Engine.MatchingEngine.RetryInPlace | crates/matching-engine/src/kafka_consumer.rs:95-105 | whatever sequence of faults precedes success the database ends as one clean attempt leaves it; the one notice is reserved if the bed was allocated, else the report if this handling applied it; it is lost exactly if an attempt failed after committing what it would tell |
| Engine.Consumer.HandleNext | crates/matching-engine/src/kafka_consumer.rs:77-121 | a malformed record changes and publishes nothing; an event is retried until handled, with the notices of the retry loop; only then does the position move and the offset go to the broker |
| Engine.HandledAgain | crates/matching-engine/src/kafka_consumer.rs:157-164 | handling the same event again changes nothing |
| Locking.PublishIsApply | crates/matching-engine/src/matcher.rs:322-367 | the rows and the referral computed by the earlier statements are, at the commit, those of the whole transaction run at that instant |
| Locking.Frame | crates/matching-engine/src/matcher.rs:145-150 | what an open transaction has read under its locks survives every commit of another |
| Locking.StepIsAtomic | crates/matching-engine/src/matcher.rs:145-150 | refinement: every statement-level step of every interleaving commits nothing or exactly one atomic transaction on the database of that instant |
| Locking.OutcomeIsAtomic | crates/matching-engine/src/matcher.rs:283-374 | the answer of an event transaction that ends in any interleaving is the one the whole transaction, run at that instant, gives |
| Locking.AwardIsAtomic | crates/matching-engine/src/matcher.rs:237-263 | an allocation that reports an award has just written its three rows for the bed, shelter and referral it names; one that reports none has written nothing |
| Locking.RunKeepsLocks | crates/matching-engine/src/matcher.rs:157-174 | in every reachable state the committed database is valid, no bed, referral or event key is locked twice, and every open transaction's reads still hold |
| Guarantees.UniqueIndexesNeverFire | migrations/0001_init.sql:56-61 | at the INSERT no key of either partial unique index is in the way, committed or in flight, and neither bed nor referral has a live row |
| Guarantees.NeverDoubleBooked | README.md:91-103 | in every reachable committed state, errors and crashes included, a bed and a referral each have at most one live reservation, and every reservation ever made fits region and eligibility |
| Guarantees.ReleasedIsOnlyKept | crates/matching-engine/src/matcher.rs:357-364 | the referral row an event re-pends is locked by another transaction if and only if that is an allocation that kept it after a failed second check |
| Guarantees.WaitingDescends | crates/matching-engine/src/matcher.rs:292-310 | whoever waits waits for somebody further along the order event id, bed, referral; a wait for a unique index never happens |
| Guarantees.BedHoldersWaitOnlyForKept | crates/matching-engine/src/matcher.rs:145-150 | a transaction that holds a bed waits if and only if it is an event transaction and an allocation keeps the row it is to re-pend; that allocation waits for nobody, and no allocation that holds its bed waits |
| Guarantees.AllocationsWaitForTheirBed | crates/matching-engine/src/matcher.rs:145-150 | an allocation waits for another transaction if and only if that one holds the bed it is about to lock: allocations for different beds never block each other |
| Guarantees.LocksBesidesItsChoice | crates/matching-engine/src/matcher.rs:188-203 | besides its choice an allocation locks only rows of its snapshot that are pending no longer, and it locks every such row that ranks higher unless another holds it |
| Guarantees.WaitsNeverCycle | crates/matching-engine/src/matcher.rs:292-310 | a chain of waiting transactions has at most four members and never closes: no deadlock |
| Progress.StuckMeansWaiting | crates/matching-engine/src/matcher.rs:157-222 | a worker with work left cannot take its next step if and only if it waits for a lock or a key that another holds |
| Progress.NeverAllStuck | crates/matching-engine/src/matcher.rs:145-150 | in every reachable state, if anybody has work left then somebody can take their next step |
| Guarantees.PendingLocksAreAllocations | crates/matching-engine/src/matcher.rs:200-202 | a pending row that is locked has been chosen by an allocation in flight |
| Guarantees.PriorityUnderSkipLocked | crates/matching-engine/src/matcher.rs:188-210 | whoever outranks the chosen referral and waits for the bed is taken by another allocation in flight or joined the line after the query's snapshot; with nobody taken and nobody late the choice is a maximum |
| Guarantees.TakenBecomesMatched | crates/matching-engine/src/matcher.rs:252-263 | a referral held by an allocation in flight is matched as soon as that allocation commits, and is the one it reports |
| Guarantees.DisplacedKeepsItsPlace | crates/matching-engine/src/matcher.rs:329-339 | a displaced referral gets its bed back at the next undisturbed award of it, or an exact tie does, or an outranking referral that was not pending when it won |
| Offsets.NextKeepsOffsets | crates/matching-engine/src/kafka_consumer.rs:96-113 | every step keeps the consumer at the head of its log and everything below the highest offset ever sent absorbed and offered |
| Offsets.CommittedOffsetsAreSafe | crates/matching-engine/src/kafka_consumer.rs:55-67 | below the stored offset every well-formed event is absorbed, and an allocation on its bed begun after that has run to its end |
| Offsets.CrashResumes | crates/matching-engine/src/kafka_consumer.rs:55-67 | whatever a consumer does first after a crash is for the record at the stored offset |
| Offsets.FailureStays | crates/matching-engine/src/kafka_consumer.rs:95-105 | after an error the database is as it was, no record is passed over and the same event is begun again |
| Awards.NextKeepsAwards | crates/matching-engine/src/matcher.rs:259-263 | every allocation result a worker holds names a reservation that was made |
| Ownership.AttemptEnds | crates/matching-engine/src/matcher.rs:200-222 | a consumer's query that passes over a waiting referral of its snapshot found it taken by another allocation |
| Ownership.AtomicNewPair | crates/matching-engine/src/matcher.rs:322-365 | apart from new referrals, only an event makes a new match possible: with its own bed, or for the referral it displaces |
| Ownership.NewPair | crates/matching-engine/src/matcher.rs:329-365 | a match that an event makes possible is still to be tried by the consumer, or the event displaced its referral |
| Ownership.NoLostMatch | crates/matching-engine/src/matcher.rs:62-108 | in every reachable state each available bed and pending referral that suit have an owner: the search, an event for the bed whose attempt may still pick the referral, or an allocation in flight that has taken it; or else the two have stood side by side without a break since a step that dropped the referral |
| Ownership.QuietMeansMatched | README.md:161-166 | once all searches have ended and all records are processed, a referral is left beside a bed it could have only if the two have stood side by side without a break since the referral was last dropped |
| Ownership.UndroppedMeansMatched | README.md:161-166 | in a run that drops nobody, nobody is left beside a bed they could have once all is quiet |
| Scenarios.AFailedCallStrands | crates/matching-engine/src/matcher.rs:43-60 | a concrete run in which a call that fails after its insert leaves its referral beside a bed with nothing left to do |
| Registers.AppliedAtHead | crates/matching-engine/src/kafka_consumer.rs:93-113 | an event is applied only on the first passage of its offset, never on a replay |
| Registers.DuplicatesAreStale | migrations/0001_init.sql:63-67 | when ids identify events, whatever the ledger rejects the sequence check would have rejected |
| Registers.DrainedShowsLatest | crates/matching-engine/src/matcher.rs:277-282 | once the logs are drained a bed row shows the report with the highest sequence number among its initial one and its logged events |
| Registers.ScheduleIndependence | README.md:142-160 | two runs over the same events, in any order, duplication, partitioning, crash schedule and interleaving with submissions, leave each bed the same report and sequence number |
| Registers.DrainedLedger | crates/matching-engine/src/matcher.rs:292-320 | once drained the ledger holds exactly the ids that one crash-free pass applies |
| Registers.LedgerIndependence | crates/matching-engine/src/kafka_consumer.rs:77-121 | crashes, rewinds, lost commits and submissions leave no trace in the ledger |
| Intake.GateAdmits | crates/intake-ingestion/src/grpc.rs:28-50 | exactly the records that do not report RESERVED can come through the gate |
| Intake.WireStatuses | crates/common/src/model.rs:92-112 | the two status conversions, status by status; each undoes the other but for the unset one, which reads as available |
| Intake.GateIsExact | crates/intake-ingestion/src/grpc.rs:23-68 | accepted and published unchanged if and only if all three ids are there and the status is available, occupied or maintenance; what the consumer decodes of it is malformed if and only if an id does not parse, and otherwise says exactly what was sent |
| Intake.GateMatchesCoupling | crates/intake-ingestion/src/grpc.rs:34-50 | of the requests with parseable ids it accepts exactly those with a status whose event keeps every valid, coupled database coupled |
| Intake.RunKeepsCoupled | crates/intake-ingestion/src/grpc.rs:34-50 | behind the gate every reachable database is valid and coupled |
| Intake.Conservation | README.md:268-273 | in every reachable state behind the gate: reserved beds = active reservations, matched referrals = live reservations = held beds, reserved iff an active reservation, matched iff a live one |
| Answers.SettledTruly | crates/matching-engine/src/matcher.rs:92-95 | the step that settles a call's answer makes it or finds it true |
| Answers.AnswerStands | crates/matching-engine/src/matcher.rs:92-108 | once settled, the answer is the one the call gives |
| Answers.AnsweredTruthfully | crates/matching-engine/src/matcher.rs:111-143 | every answer was true of the committed database at some instant during its call, even when another worker did the matching |
| Surge.NobodyLeft | crates/matching-engine/tests/concurrency.rs:9-14 | with no events, once every call has returned without an error or running out of iterations, no available bed is left beside a pending referral it suits |
| Surge.ExactlyMinMatched | crates/matching-engine/tests/concurrency.rs:18-116 | from empty reservations and referrals, with no events, for any N available beds and M concurrent submissions, mutually suited: once every call has returned without an error or running out of iterations, exactly min(N, M) referrals are matched, to as many distinct beds, min(N, M) callers are told so and the others are told that they wait |
| Surge.AnswersAreExact | crates/matching-engine/tests/concurrency.rs:56-74 | from any start and with failures about, but no events: an answer once given is what the database says in every later state, unless it is pending and its search had run out of iterations |
| Announcements.DebtsKept | crates/matching-engine/src/grpc.rs:50-74 | a worker parts with an allocation it has made only by publishing it or by failing |
| Announcements.EverythingPublished | crates/matching-engine/src/kafka_consumer.rs:164-175 | in a run without errors, once all workers are done every reservation has been handed to `publish_bed_update` |

## Left out

- Locking row by row: the scan of the query that picks a referral locks all the rows it meets in one step, and the three writes of an allocation are one step; PostgreSQL does these one after another.
- Liveness: no fairness of the scheduler and no end to the retry loop are assumed; that somebody can always go on is proved, that everybody eventually does is not.
- Consumer groups: each partition has one consumer at a time; rebalancing while an old consumer is still at work is not part of this model.
- Sleeps between retries: they change no state.
- Shelters: their rows are never written, so a bed row carries its shelter and region.
- `family_size` and `caseworker_id`: no decision reads them.
- The states `expired` and `cancelled`: no code sets them; the types have them and no transaction touches such rows.
- Delivery of notifications: region lookup, available counts, broadcast lag and stream filtering; only the calls to publish are modelled.
- gRPC, Kafka, PostgreSQL and tokio plumbing, connection retries, caseworker-gateway, simulator, configuration, Docker and Kubernetes files: foreign calls or pass-through code with easy claims only.
- UUID parsing and protobuf decoding: an entry that fails either is `Malformed`.
