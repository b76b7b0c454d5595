/** Any number of callers and consumers at work at once, one SQL statement at a time.

    A statement reads the committed rows and takes the row locks it asks for; an open
    transaction's writes are its own until it commits.  The allocation query works from a
    snapshot: rows it finds locked are skipped, rows that changed since are locked and checked
    again, and one that fails the second check stays locked until the transaction ends.  Who
    holds which lock is read off the workers' open transactions.  `capped`, `announced`,
    `muted` and `offered` are history: no guard reads them. */
module Machine {
  import opened Domain
  import opened Store
  import opened Search

  type PartitionId = int

  datatype Worker = Caller(id: ReferralId) | Consumer(partition: PartitionId)

  /** An allocation as reported to its worker, with the reservation row it made. */
  datatype Award = Award(row: int, result: AllocationResult)

  datatype Tx =
    | Idle
    | AllocBegun(bed: BedId)                               // SELECT .. FROM beds .. FOR UPDATE is next
    | AllocLocked(bed: BedId)                              // bed locked, found available
    | AllocSeen(bed: BedId, seen: set<ReferralId>)         // the snapshot of the allocation query
    | AllocChosen(bed: BedId, referral: ReferralId, kept: set<ReferralId>)   // referral locked too
    | AllocWritten(bed: BedId, referral: ReferralId, kept: set<ReferralId>)  // three rows written
    | AllocEmpty(bed: BedId, kept: set<ReferralId>)        // nobody found; the rollback is next
    | AllocDone(award: Option<Award>)                      // over; the client has not heard yet
    | ApplyBegun(event: Event)                             // INSERT INTO applied_events is next
    | ApplyInserted(event: Event)                          // event id inserted
    | ApplyLocked(event: Event)                            // bed locked and updated
    | ApplyUpdated(event: Event, rows: set<int>, released: Option<ReferralId>)
    | ApplyReady(event: Event, rows: set<int>, repended: Option<ReferralId>)
    | ApplyDone(outcome: ApplyOutcome)

  datatype Proc =
    | Searching(left: nat, side: seq<Award>)
    | Attempting(left: nat, side: seq<Award>, tx: Tx)
    | Resolving(side: seq<Award>)
    | Answered(unpublished: seq<Award>, outcome: SubmitOutcome)
    | Polling
    | Applying(event: Event, tx: Tx)
    | Offering(event: Event, tx: Tx, absorbed: bool)       // `absorbed`: held when the attempt began

  /** `position` is the next offset to process, `sent` the highest offset ever handed to an
      asynchronous commit, `committed` what the broker has stored. */
  datatype Partition = Partition(
    log: seq<Record>, position: nat, sent: nat, committed: nat, offered: set<int>)

  datatype State = State(
    db: Database,
    workers: map<Worker, Proc>,
    logs: map<PartitionId, Partition>,
    capped: set<ReferralId>,
    announced: set<int>,
    muted: set<int>)

  function TxOf(p: Proc): Tx {
    match p
    case Attempting(_, _, tx) => tx
    case Applying(_, tx) => tx
    case Offering(_, tx, _) => tx
    case _ => Idle
  }

  function WithTx(p: Proc, tx: Tx): Proc
    requires p.Attempting? || p.Applying? || p.Offering?
  {
    match p
    case Attempting(left, side, _) => Attempting(left, side, tx)
    case Applying(e, _) => Applying(e, tx)
    case Offering(e, _, absorbed) => Offering(e, tx, absorbed)
  }

  // ----- locks -----

  function HeldBed(tx: Tx): Option<BedId> {
    match tx
    case AllocLocked(b) => Some(b)
    case AllocSeen(b, _) => Some(b)
    case AllocChosen(b, _, _) => Some(b)
    case AllocWritten(b, _, _) => Some(b)
    case AllocEmpty(b, _) => Some(b)
    case ApplyLocked(e) => Some(e.bed)
    case ApplyUpdated(e, _, _) => Some(e.bed)
    case ApplyReady(e, _, _) => Some(e.bed)
    case _ => None
  }

  /** The referral an open allocation has chosen. */
  function Chosen(tx: Tx): set<ReferralId> {
    match tx
    case AllocChosen(_, r, _) => {r}
    case AllocWritten(_, r, _) => {r}
    case _ => {}
  }

  /** The rows an open allocation keeps locked after a failed second check. */
  function Kept(tx: Tx): set<ReferralId> {
    match tx
    case AllocChosen(_, _, kept) => kept
    case AllocWritten(_, _, kept) => kept
    case AllocEmpty(_, kept) => kept
    case _ => {}
  }

  function HeldReferrals(tx: Tx): set<ReferralId> {
    if tx.ApplyReady? then (if tx.repended.Some? then {tx.repended.value} else {})
    else Chosen(tx) + Kept(tx)
  }

  /** An inserted but uncommitted key of `applied_events`. */
  function HeldEvent(tx: Tx): Option<EventId> {
    match tx
    case ApplyInserted(e) => Some(e.id)
    case ApplyLocked(e) => Some(e.id)
    case ApplyUpdated(e, _, _) => Some(e.id)
    case ApplyReady(e, _, _) => Some(e.id)
    case _ => None
  }

  /** An inserted but uncommitted key of the two partial unique indexes. */
  ghost predicate IndexesClash(tx: Tx, b: BedId, r: ReferralId) {
    tx.AllocWritten? && (tx.bed == b || tx.referral == r)
  }

  ghost predicate BedLocked(s: State, w: Worker, b: BedId) {
    exists o :: o in s.workers && o != w && HeldBed(TxOf(s.workers[o])) == Some(b)
  }

  ghost predicate ReferralLocked(s: State, w: Worker, r: ReferralId) {
    exists o :: o in s.workers && o != w && r in HeldReferrals(TxOf(s.workers[o]))
  }

  ghost predicate EventLocked(s: State, w: Worker, id: EventId) {
    exists o :: o in s.workers && o != w && HeldEvent(TxOf(s.workers[o])) == Some(id)
  }

  /** Whether inserting an active reservation meets a key of a partial unique index,
      committed or not. */
  ghost predicate IndexFires(s: State, w: Worker, b: BedId, r: ReferralId) {
    || IndexConflict(s.db, b, r)
    || (exists o :: o in s.workers && o != w && IndexesClash(TxOf(s.workers[o]), b, r))
  }

  // ----- the statements of the two transactions -----

  /** A row of the snapshot that can be locked and passes the second check. */
  ghost predicate Selectable(s: State, w: Worker, b: BedId, seen: set<ReferralId>, r: ReferralId) {
    r in seen && Waiting(s.db, b, r) && !ReferralLocked(s, w, r)
  }

  /** A row of the snapshot that can be locked but fails the second check. */
  ghost predicate Stumbles(s: State, w: Worker, b: BedId, seen: set<ReferralId>, r: ReferralId) {
    r in seen && r in s.db.referrals && !Waiting(s.db, b, r) && !ReferralLocked(s, w, r)
  }

  /** The scan in rank order stops at `r`, keeping the locks it stumbled over on the way. */
  ghost predicate Selects(s: State, w: Worker, b: BedId, seen: set<ReferralId>, r: ReferralId, kept: set<ReferralId>) {
    && Selectable(s, w, b, seen, r)
    && (forall x :: Selectable(s, w, b, seen, x) ==> !Outranks(s.db.referrals[x], s.db.referrals[r]))
    && (forall x :: x in kept ==> Stumbles(s, w, b, seen, x) && !Outranks(s.db.referrals[r], s.db.referrals[x]))
    && (forall x :: Stumbles(s, w, b, seen, x) && Outranks(s.db.referrals[x], s.db.referrals[r]) ==> x in kept)
  }

  function Hit(db: Database, e: Event): set<int> {
    set i | 0 <= i < |db.reservations| && Touches(db.reservations[i], e)
  }

  /** What a commit publishes of an event transaction: the values its statements computed. */
  function Publish(db: Database, e: Event, rows: set<int>, repended: Option<ReferralId>): Database
    requires e.bed in db.beds
  {
    Database(db.beds[e.bed := db.beds[e.bed].(status := e.status, lastSeq := e.seqNo)],
             if repended.Some? && repended.value in db.referrals
             then db.referrals[repended.value := db.referrals[repended.value].(status := ReferralStatus.Pending)]
             else db.referrals,
             seq(|db.reservations|, i requires 0 <= i < |db.reservations| =>
               if i in rows
               then db.reservations[i].(status := if e.status == Occupied then CheckedIn else Released)
               else db.reservations[i]),
             db.ledger[e.id := e.bed])
  }

  ghost predicate AllocStatement(s: State, w: Worker, tx: Tx, tx': Tx, db': Database) {
    match tx
    case AllocBegun(b) =>
      && !BedLocked(s, w, b) && db' == s.db
      && tx' == if b in s.db.beds && s.db.beds[b].status == Available then AllocLocked(b) else AllocDone(None)
    case AllocLocked(b) =>
      db' == s.db && tx' == AllocSeen(b, WaitingFor(s.db, b))
    case AllocSeen(b, seen) =>
      && db' == s.db
      && (match tx'
          case AllocChosen(b', r, kept) => b' == b && Selects(s, w, b, seen, r, kept)
          case AllocEmpty(b', kept) =>
            && b' == b && (forall r :: !Selectable(s, w, b, seen, r))
            && (forall x :: x in kept <==> Stumbles(s, w, b, seen, x))
          case _ => false)
    case AllocChosen(b, r, kept) =>
      !IndexFires(s, w, b, r) && db' == s.db && tx' == AllocWritten(b, r, kept)
    case AllocWritten(b, r, _) =>
      && b in s.db.beds && r in s.db.referrals
      && db' == Reserve(s.db, b, r)
      && tx' == AllocDone(Some(Award(|s.db.reservations|, AllocationResult(b, s.db.beds[b].shelter, r))))
    case AllocEmpty(_, _) =>
      db' == s.db && tx' == AllocDone(None)
    case _ => false
  }

  ghost predicate ApplyStatement(s: State, w: Worker, tx: Tx, tx': Tx, db': Database) {
    match tx
    case ApplyBegun(e) =>
      && !EventLocked(s, w, e.id) && db' == s.db
      && tx' == if e.id in s.db.ledger then ApplyDone(Duplicate) else ApplyInserted(e)
    case ApplyInserted(e) =>
      && !BedLocked(s, w, e.bed) && db' == s.db
      && tx' == if e.bed !in s.db.beds then ApplyDone(UnknownBed)
                else if e.seqNo <= s.db.beds[e.bed].lastSeq then ApplyDone(Stale)
                else ApplyLocked(e)
    case ApplyLocked(e) =>
      db' == s.db && tx' == ApplyUpdated(e, Hit(s.db, e), FirstReleased(s.db.reservations, e))
    case ApplyUpdated(e, rows, released) =>
      && (released.Some? ==> !ReferralLocked(s, w, released.value)) && db' == s.db
      && tx' == ApplyReady(e, rows,
           if released.Some? && released.value in s.db.referrals
              && s.db.referrals[released.value].status == ReferralStatus.Matched then released else None)
    case ApplyReady(e, rows, repended) =>
      && e.bed in s.db.beds
      && db' == Publish(s.db, e, rows, repended)
      && tx' == ApplyDone(Applied(s.db.beds[e.bed].shelter,
                                  e.status == Available && s.db.beds[e.bed].status != Available))
    case _ => false
  }

  // ----- the steps -----

  datatype Step =
    | Submit(r: ReferralId, row: ReferralRow)     // a call inserts its referral
    | Pick(r: ReferralId, b: BedId)               // the search query returns a bed
    | Exhaust(r: ReferralId)                      // the search query returns nothing
    | CapOut(r: ReferralId)                       // the iterations are used up
    | Resolve(r: ReferralId, found: Option<int>)  // the final re-read
    | Announce(r: ReferralId)                     // the call publishes one allocation
    | Server(w: Worker, tx: Tx)                   // a statement or commit of an open transaction
    | Receive(w: Worker)                          // the worker hears how its transaction ended
    | Poll(p: PartitionId)                        // the consumer takes the next event
    | Skip(p: PartitionId)                        // .. or skips a malformed record
    | Fail(w: Worker)                             // an error, rolling back whatever is open
    | Crash(p: PartitionId)                       // the consumer restarts from the committed offset
    | Ack(p: PartitionId, offset: nat)            // the broker stores an offset sent earlier, in any order
    | Intake(p: PartitionId, record: Record)      // a record is appended to the log

  function Max(a: nat, b: nat): nat { if a < b then b else a }

  function Advance(l: Partition): Partition {
    l.(position := l.position + 1, sent := Max(l.sent, l.position + 1))
  }

  function RowsOf(awards: seq<Award>): set<int> {
    set k | 0 <= k < |awards| :: awards[k].row
  }

  /** The reservations a worker has made and not yet published. */
  function Owes(p: Proc): set<int> {
    match p
    case Searching(_, side) => RowsOf(side)
    case Attempting(_, side, tx) => RowsOf(side) + OwesTx(tx)
    case Resolving(side) => RowsOf(side)
    case Answered(unpublished, _) => RowsOf(unpublished)
    case Offering(_, tx, _) => OwesTx(tx)
    case _ => {}
  }

  function OwesTx(tx: Tx): set<int> {
    if tx.AllocDone? && tx.award.Some? then {tx.award.value.row} else {}
  }

  ghost predicate Init(s: State) {
    && Valid(s.db) && NoStranded(s.db) && s.db.ledger == map[]
    && (forall w :: w in s.workers <==> w.Consumer? && w.partition in s.logs)
    && (forall w :: w in s.workers ==> s.workers[w] == Polling)
    && (forall p :: p in s.logs ==> s.logs[p] == Partition(s.logs[p].log, 0, 0, 0, {}))
    && s.capped == {} && s.muted == {}
    && forall i :: i in s.announced <==> 0 <= i < |s.db.reservations|
  }

  ghost predicate CallerStep(s: State, s': State, r: ReferralId, p': Proc) {
    s' == s.(workers := s.workers[Caller(r) := p'])
  }

  ghost predicate ReceiveStep(s: State, s': State, w: Worker)
    requires w in s.workers
  {
    match (w, s.workers[w])
    case (Caller(r), Attempting(left, side, AllocDone(award))) =>
      if award.None? then
        CallerStep(s, s', r, Searching(if left > 0 then left - 1 else 0, side))
      else if award.value.result.referral == r then
        CallerStep(s, s', r, Answered(side + [award.value], SubmitOutcome.Matched(award.value.result)))
      else
        CallerStep(s, s', r, Searching(if left > 0 then left - 1 else 0, side + [award.value]))
    case (Consumer(p), Applying(e, ApplyDone(outcome))) =>
      p in s.logs &&
      if outcome == UnknownBed then
        s' == s.(workers := s.workers[w := Polling], logs := s.logs[p := Advance(s.logs[p])])
      else
        s' == s.(workers := s.workers[w := Offering(e, AllocBegun(e.bed), Absorbed(s.db, e))])
    case (Consumer(p), Offering(e, AllocDone(award), absorbed)) =>
      p in s.logs &&
      var l := s.logs[p];
      s' == s.(workers := s.workers[w := Polling],
               logs := s.logs[p := Advance(l).(offered := if absorbed then l.offered + {l.position as int}
                                                          else l.offered)],
               announced := s.announced + OwesTx(AllocDone(award)))
    case _ => false
  }

  ghost predicate Next(s: State, s': State, step: Step) {
    match step
    case Submit(r, row) =>
      && r !in s.db.referrals && row.status == ReferralStatus.Pending && Caller(r) !in s.workers
      && s' == s.(db := InsertReferral(s.db, r, row),
                  workers := s.workers[Caller(r) := Searching(SEARCH_LIMIT, [])])
    case Pick(r, b) =>
      && Caller(r) in s.workers && s.workers[Caller(r)].Searching? && r in s.db.referrals
      && s.workers[Caller(r)].left > 0
      && FirstCandidate(s.db, b, s.db.referrals[r].region, s.db.referrals[r].needs)
      && CallerStep(s, s', r, Attempting(s.workers[Caller(r)].left, s.workers[Caller(r)].side, AllocBegun(b)))
    case Exhaust(r) =>
      && Caller(r) in s.workers && s.workers[Caller(r)].Searching? && r in s.db.referrals
      && s.workers[Caller(r)].left > 0
      && (forall b :: !Candidate(s.db, b, s.db.referrals[r].region, s.db.referrals[r].needs))
      && CallerStep(s, s', r, Resolving(s.workers[Caller(r)].side))
    case CapOut(r) =>
      && Caller(r) in s.workers && s.workers[Caller(r)].Searching? && s.workers[Caller(r)].left == 0
      && s' == s.(workers := s.workers[Caller(r) := Resolving(s.workers[Caller(r)].side)], capped := s.capped + {r})
    case Resolve(r, found) =>
      && Caller(r) in s.workers && s.workers[Caller(r)].Resolving?
      && (match found
          case Some(i) =>
            && LiveFor(s.db, i, r) && s.db.reservations[i].bed in s.db.beds
            && var b := s.db.reservations[i].bed;
               var result := AllocationResult(b, s.db.beds[b].shelter, r);
               CallerStep(s, s', r, Answered(s.workers[Caller(r)].side + [Award(i, result)], SubmitOutcome.Matched(result)))
          case None =>
            && (forall i :: !LiveFor(s.db, i, r))
            && CallerStep(s, s', r, Answered(s.workers[Caller(r)].side, SubmitOutcome.Pending(r))))
    case Announce(r) =>
      && Caller(r) in s.workers && s.workers[Caller(r)].Answered? && s.workers[Caller(r)].unpublished != []
      && var p := s.workers[Caller(r)];
         s' == s.(workers := s.workers[Caller(r) := Answered(p.unpublished[1..], p.outcome)],
                  announced := s.announced + {p.unpublished[0].row})
    case Server(w, tx) =>
      && w in s.workers
      && var p := s.workers[w];
      && (p.Attempting? || p.Applying? || p.Offering?)
      && (AllocStatement(s, w, TxOf(p), tx, s'.db) || ApplyStatement(s, w, TxOf(p), tx, s'.db))
      && s' == s.(db := s'.db, workers := s.workers[w := WithTx(p, tx)])
    case Receive(w) =>
      w in s.workers && ReceiveStep(s, s', w)
    case Poll(p) =>
      && p in s.logs && Consumer(p) in s.workers && s.workers[Consumer(p)].Polling?
      && s.logs[p].position < |s.logs[p].log| && s.logs[p].log[s.logs[p].position].Status?
      && var e := s.logs[p].log[s.logs[p].position].event;
         s' == s.(workers := s.workers[Consumer(p) := Applying(e, ApplyBegun(e))])
    case Skip(p) =>
      && p in s.logs && Consumer(p) in s.workers && s.workers[Consumer(p)].Polling?
      && s.logs[p].position < |s.logs[p].log| && s.logs[p].log[s.logs[p].position].Malformed?
      && s' == s.(logs := s.logs[p := Advance(s.logs[p])])
    case Fail(w) =>
      && w in s.workers
      && var p := s.workers[w];
      && s' == s.(workers := match w
                             case Caller(_) => s.workers - {w}
                             case Consumer(_) =>
                               if p.Applying? || p.Offering? then s.workers[w := Applying(p.event, ApplyBegun(p.event))]
                               else s.workers,
                  muted := s.muted + Owes(p))
    case Crash(p) =>
      && p in s.logs && Consumer(p) in s.workers
      && var proc := s.workers[Consumer(p)];
      && s' == s.(workers := s.workers[Consumer(p) := Polling],
                  logs := s.logs[p := s.logs[p].(position := s.logs[p].committed)],
                  muted := s.muted + Owes(proc))
    case Ack(p, offset) =>
      && p in s.logs && offset <= s.logs[p].sent
      && s' == s.(logs := s.logs[p := s.logs[p].(committed := offset)])
    case Intake(p, record) =>
      && p in s.logs
      && s' == s.(logs := s.logs[p := s.logs[p].(log := s.logs[p].log + [record])])
  }

  ghost predicate Steps(s: State, s': State) {
    exists step :: Next(s, s', step)
  }

  /** A run: any interleaving of steps from an initial state. */
  ghost predicate Run(tr: seq<State>) {
    |tr| > 0 && Init(tr[0]) && forall i :: 0 <= i < |tr| - 1 ==> Steps(tr[i], tr[i + 1])
  }

  function Last(tr: seq<State>): State
    requires |tr| > 0
  {
    tr[|tr| - 1]
  }

  function Front(tr: seq<State>): seq<State>
    requires |tr| > 0
  {
    tr[..|tr| - 1]
  }

  lemma RunTake(tr: seq<State>, n: int)
    requires Run(tr) && 0 < n <= |tr|
    ensures Run(tr[..n])
  {
  }

  lemma RunFront(tr: seq<State>)
    requires Run(tr) && |tr| > 1
    ensures Run(Front(tr)) && Steps(Last(Front(tr)), Last(tr))
  {
  }
}
