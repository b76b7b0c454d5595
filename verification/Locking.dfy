/** What the row locks buy: every commit of the statement-level machine is one atomic
    transaction of the specification, so its invariants hold at every committed state; the
    unique indexes never fire; and chains of waits are short and never close. */
module Locking {
  import opened Domain
  import opened Store
  import opened Machine

  // ----- the invariant -----

  ghost predicate NonePending(db: Database, kept: set<ReferralId>) {
    forall r :: r in kept ==> r in db.referrals && db.referrals[r].status != ReferralStatus.Pending
  }

  ghost predicate AllSuit(db: Database, b: BedId, seen: set<ReferralId>)
    requires b in db.beds
  {
    forall r :: r in seen ==> r in db.referrals && Suits(db.beds[b], db.referrals[r])
  }

  /** What an open transaction has read stays true until it ends. */
  ghost predicate TxInv(db: Database, tx: Tx) {
    match tx
    case AllocLocked(b) => b in db.beds && db.beds[b].status == Available
    case AllocSeen(b, seen) => b in db.beds && db.beds[b].status == Available && AllSuit(db, b, seen)
    case AllocChosen(b, r, kept) => Pair(db, b, r) && NonePending(db, kept)
    case AllocWritten(b, r, kept) => Pair(db, b, r) && NonePending(db, kept)
    case AllocEmpty(_, kept) => NonePending(db, kept)
    case ApplyInserted(e) => e.id !in db.ledger
    case ApplyLocked(e) => !Absorbed(db, e)
    case ApplyUpdated(e, rows, released) =>
      !Absorbed(db, e) && rows == Hit(db, e) && released == FirstReleased(db.reservations, e)
    case ApplyReady(e, rows, repended) =>
      !Absorbed(db, e) && rows == Hit(db, e) && repended == FirstReleased(db.reservations, e)
    case _ => true
  }

  /** No lock is held twice. */
  ghost predicate Compatible(t: Tx, u: Tx) {
    && (HeldBed(t).Some? ==> HeldBed(t) != HeldBed(u))
    && (forall r :: r in HeldReferrals(t) ==> r !in HeldReferrals(u))
    && (HeldEvent(t).Some? ==> HeldEvent(t) != HeldEvent(u))
  }

  ghost predicate Exclusive(s: State) {
    forall v, w :: v in s.workers && w in s.workers && v != w ==>
      Compatible(TxOf(s.workers[v]), TxOf(s.workers[w]))
  }

  ghost predicate TransactionsSound(s: State) {
    forall w :: w in s.workers ==> TxInv(s.db, TxOf(s.workers[w]))
  }

  predicate AllocTx(tx: Tx) {
    tx.AllocBegun? || tx.AllocLocked? || tx.AllocSeen? || tx.AllocChosen? || tx.AllocWritten?
    || tx.AllocEmpty? || tx.AllocDone?
  }

  predicate ApplyTx(tx: Tx, e: Event) {
    match tx
    case ApplyBegun(x) => x == e
    case ApplyInserted(x) => x == e
    case ApplyLocked(x) => x == e
    case ApplyUpdated(x, _, _) => x == e
    case ApplyReady(x, _, _) => x == e
    case ApplyDone(_) => true
    case _ => false
  }

  predicate OfferTx(tx: Tx, b: BedId) {
    match tx
    case AllocBegun(x) => x == b
    case AllocLocked(x) => x == b
    case AllocSeen(x, _) => x == b
    case AllocChosen(x, _, _) => x == b
    case AllocWritten(x, _, _) => x == b
    case AllocEmpty(x, _) => x == b
    case AllocDone(_) => true
    case _ => false
  }

  /** A worker runs the code of its kind. */
  ghost predicate Shape(s: State, w: Worker, p: Proc) {
    match (w, p)
    case (Caller(r), Searching(_, _)) => r in s.db.referrals
    case (Caller(r), Attempting(left, _, tx)) => r in s.db.referrals && left > 0 && AllocTx(tx)
    case (Caller(r), Resolving(_)) => r in s.db.referrals
    case (Caller(r), Answered(_, _)) => r in s.db.referrals
    case (Consumer(q), Polling) => q in s.logs
    case (Consumer(q), Applying(e, tx)) => q in s.logs && ApplyTx(tx, e)
    case (Consumer(q), Offering(e, tx, _)) => q in s.logs && OfferTx(tx, e.bed)
    case _ => false
  }

  ghost predicate Shaped(s: State) {
    forall w :: w in s.workers ==> Shape(s, w, s.workers[w])
  }

  ghost predicate LockInv(s: State) {
    Valid(s.db) && TransactionsSound(s) && Exclusive(s) && Shaped(s)
  }

  // ----- refinement -----

  function Commits(tx: Tx): Change {
    match tx
    case AllocWritten(b, r, _) => Allocation(b, r)
    case ApplyReady(e, _, _) => Application(e)
    case _ => Nothing
  }

  /** The atomic transaction a step commits. */
  function ChangeOf(s: State, step: Step): Change {
    match step
    case Submit(r, row) => Insertion(r, row)
    case Server(w, _) => if w in s.workers then Commits(TxOf(s.workers[w])) else Nothing
    case _ => Nothing
  }

  /** Publishing the values the statements computed is the whole event transaction, applied to
      the database as it is at the commit. */
  lemma PublishIsApply(db: Database, e: Event)
    requires Valid(db) && e.bed in db.beds
    ensures Publish(db, e, Hit(db, e), FirstReleased(db.reservations, e)) == Apply(db, e)
  {
  }

  /** What the scan keeps locked is not pending, whoever it stops at. */
  lemma ScanKeeps(s: State, w: Worker, b: BedId, seen: set<ReferralId>, kept: set<ReferralId>)
    requires TxInv(s.db, AllocSeen(b, seen))
    requires forall x :: x in kept ==> Stumbles(s, w, b, seen, x)
    ensures NonePending(s.db, kept)
  {
    forall x | x in kept ensures x in s.db.referrals && s.db.referrals[x].status != ReferralStatus.Pending {
      FiltersAgree(s.db.beds[b], s.db.referrals[x]);
    }
  }

  lemma ServerStep(s: State, s': State, w: Worker, tx: Tx)
    requires LockInv(s) && Next(s, s', Server(w, tx))
    ensures Atomic(s.db, s'.db, Commits(TxOf(s.workers[w])))
    ensures TxInv(s'.db, tx)
  {
    var t := TxOf(s.workers[w]);
    assert TxInv(s.db, t);
    match t
    case ApplyReady(e, _, _) => PublishIsApply(s.db, e);
    case AllocLocked(b) =>
      forall r | Waiting(s.db, b, r) ensures Suits(s.db.beds[b], s.db.referrals[r]) {
        FiltersAgree(s.db.beds[b], s.db.referrals[r]);
      }
    case AllocSeen(b, seen) => ScanKeeps(s, w, b, seen, Kept(tx));
    case ApplyUpdated(e, _, released) =>
      if released.Some? {
        assert s.db.referrals[released.value].status == ReferralStatus.Matched;
      }
    case _ =>
  }

  /** What a worker is told of its event transaction is what the whole transaction, run at the
      instant it ended, answers. */
  lemma OutcomeIsAtomic(s: State, s': State, w: Worker, outcome: ApplyOutcome)
    requires LockInv(s) && Next(s, s', Server(w, ApplyDone(outcome)))
    ensures s.workers[w].Applying? && ApplyEvent(s.db, s.workers[w].event) == (outcome, s'.db)
  {
    assert Shape(s, w, s.workers[w]);
    ServerStep(s, s', w, ApplyDone(outcome));
  }

  /** .. and of an allocation: either the three rows have just been written for the bed and the
      referral it names, or nothing has. */
  lemma AwardIsAtomic(s: State, s': State, w: Worker, award: Option<Award>)
    requires LockInv(s) && Next(s, s', Server(w, AllocDone(award)))
    ensures award.None? ==> s'.db == s.db
    ensures award.Some? ==>
      var a := award.value.result;
      && Pair(s.db, a.bed, a.referral) && a.shelter == s.db.beds[a.bed].shelter
      && award.value.row == |s.db.reservations|
      && s'.db == Reserve(s.db, a.bed, a.referral)
      && s'.db.reservations == s.db.reservations + [ReservationRow(a.bed, a.referral, Active)]
  {
    ServerStep(s, s', w, AllocDone(award));
    assert TxInv(s.db, TxOf(s.workers[w]));
  }

  /** A commit leaves alone what other transactions have locked. */
  ghost predicate Spares(db: Database, c: Change, tx: Tx) {
    match c
    case Allocation(b, r) => HeldBed(tx) != Some(b) && r !in HeldReferrals(tx)
    case Application(e) =>
      && HeldBed(tx) != Some(e.bed) && HeldEvent(tx) != Some(e.id)
      && forall r :: r in HeldReferrals(tx) ==> FirstReleased(db.reservations, e) != Some(r)
    case _ => true
  }

  lemma SameHits(db: Database, db': Database, e: Event)
    requires Valid(db) && Valid(db') && |db.reservations| <= |db'.reservations|
    requires forall i :: 0 <= i < |db'.reservations| ==>
      (Touches(db'.reservations[i], e) <==> i < |db.reservations| && Touches(db.reservations[i], e))
    requires forall i :: 0 <= i < |db.reservations| ==> db'.reservations[i].referral == db.reservations[i].referral
    ensures Hit(db', e) == Hit(db, e)
    ensures FirstReleased(db'.reservations, e) == FirstReleased(db.reservations, e)
  {
  }

  lemma HitsSpared(db: Database, db': Database, c: Change, e: Event)
    requires Valid(db) && Atomic(db, db', c)
    requires c.Allocation? ==> c.b != e.bed
    requires c.Application? ==> c.e.bed != e.bed
    ensures Hit(db', e) == Hit(db, e)
    ensures FirstReleased(db'.reservations, e) == FirstReleased(db.reservations, e)
  {
    AtomicKeepsValid(db, db', c);
    SameHits(db, db', e);
  }

  lemma FrameHits(db: Database, db': Database, c: Change, tx: Tx)
    requires Valid(db) && Atomic(db, db', c) && TxInv(db, tx) && Spares(db, c, tx)
    requires tx.ApplyUpdated? || tx.ApplyReady?
    ensures TxInv(db', tx)
  {
    HitsSpared(db, db', c, tx.event);
  }

  lemma Frame(db: Database, db': Database, c: Change, tx: Tx)
    requires Valid(db) && Atomic(db, db', c) && TxInv(db, tx) && Spares(db, c, tx)
    ensures TxInv(db', tx)
  {
    if tx.ApplyUpdated? || tx.ApplyReady? {
      FrameHits(db, db', c, tx);
    }
  }

  lemma QuietDatabase(s: State, s': State, step: Step)
    requires Next(s, s', step) && !step.Submit? && !step.Server?
    ensures s'.db == s.db
  {
  }

  lemma AtomicOutcome(db: Database, db': Database, c: Change)
    requires Valid(db) && Atomic(db, db', c)
    ensures Valid(db') && Evolves(db, db')
  {
    AtomicKeepsValid(db, db', c);
    AtomicEvolves(db, db', c);
  }

  /** Every step commits exactly one atomic transaction, or nothing. */
  lemma StepIsAtomic(s: State, s': State, step: Step)
    requires LockInv(s) && Next(s, s', step)
    ensures Atomic(s.db, s'.db, ChangeOf(s, step))
    ensures Valid(s'.db) && Evolves(s.db, s'.db)
  {
    if step.Server? {
      ServerStep(s, s', step.w, step.tx);
    } else if !step.Submit? {
      QuietDatabase(s, s', step);
    }
    AtomicOutcome(s.db, s'.db, ChangeOf(s, step));
  }

  // ----- preservation -----

  /** The locks a statement adds were free. */
  lemma AllocExclusive(s: State, w: Worker, tx: Tx, db': Database, o: Worker)
    requires w in s.workers && o in s.workers && o != w
    requires AllocStatement(s, w, TxOf(s.workers[w]), tx, db')
    requires Compatible(TxOf(s.workers[w]), TxOf(s.workers[o]))
    ensures Compatible(tx, TxOf(s.workers[o]))
  {
  }

  lemma ApplyExclusive(s: State, w: Worker, tx: Tx, db': Database, o: Worker)
    requires w in s.workers && o in s.workers && o != w
    requires ApplyStatement(s, w, TxOf(s.workers[w]), tx, db')
    requires Compatible(TxOf(s.workers[w]), TxOf(s.workers[o]))
    ensures Compatible(tx, TxOf(s.workers[o]))
  {
  }

  lemma CompatibleSymmetric(t: Tx, u: Tx)
    requires Compatible(t, u)
    ensures Compatible(u, t)
  {
  }

  lemma ServerExclusive(s: State, s': State, w: Worker, tx: Tx, o: Worker)
    requires Exclusive(s) && Next(s, s', Server(w, tx)) && o in s.workers && o != w
    ensures Compatible(tx, TxOf(s.workers[o])) && Compatible(TxOf(s.workers[o]), tx)
  {
    assert Compatible(TxOf(s.workers[w]), TxOf(s.workers[o]));
    if AllocStatement(s, w, TxOf(s.workers[w]), tx, s'.db) {
      AllocExclusive(s, w, tx, s'.db, o);
    } else {
      ApplyExclusive(s, w, tx, s'.db, o);
    }
    CompatibleSymmetric(tx, TxOf(s.workers[o]));
  }

  lemma ServerKeepsSound(s: State, s': State, w: Worker, tx: Tx)
    requires LockInv(s) && Next(s, s', Server(w, tx))
    ensures TransactionsSound(s')
  {
    ServerStep(s, s', w, tx);
    var c := Commits(TxOf(s.workers[w]));
    forall o | o in s'.workers ensures TxInv(s'.db, TxOf(s'.workers[o])) {
      if o != w {
        assert Compatible(TxOf(s.workers[w]), TxOf(s.workers[o]));
        Frame(s.db, s'.db, c, TxOf(s.workers[o]));
      }
    }
  }

  lemma ServerKeepsExclusive(s: State, s': State, w: Worker, tx: Tx)
    requires LockInv(s) && Next(s, s', Server(w, tx))
    ensures Exclusive(s')
  {
    forall v, o | v in s'.workers && o in s'.workers && v != o
      ensures Compatible(TxOf(s'.workers[v]), TxOf(s'.workers[o]))
    {
      if v == w {
        ServerExclusive(s, s', w, tx, o);
      } else if o == w {
        ServerExclusive(s, s', w, tx, v);
      } else {
        assert Compatible(TxOf(s.workers[v]), TxOf(s.workers[o]));
      }
    }
  }

  lemma ServerShape(p: Proc, s: State, w: Worker, tx: Tx, db': Database)
    requires Shape(s, w, p) && (p.Attempting? || p.Applying? || p.Offering?)
    requires AllocStatement(s, w, TxOf(p), tx, db') || ApplyStatement(s, w, TxOf(p), tx, db')
    ensures Shape(s, w, WithTx(p, tx))
  {
  }

  lemma ServerKeepsShape(s: State, s': State, w: Worker, tx: Tx)
    requires LockInv(s) && Next(s, s', Server(w, tx)) && Evolves(s.db, s'.db)
    ensures Shaped(s')
  {
    forall o | o in s'.workers ensures Shape(s', o, s'.workers[o]) {
      assert Shape(s, o, s.workers[o]);
      if o == w {
        ServerShape(s.workers[w], s, w, tx, s'.db);
      }
    }
  }

  lemma ServerKeepsLocks(s: State, s': State, w: Worker, tx: Tx)
    requires LockInv(s) && Next(s, s', Server(w, tx))
    ensures LockInv(s')
  {
    StepIsAtomic(s, s', Server(w, tx));
    ServerKeepsSound(s, s', w, tx);
    ServerKeepsExclusive(s, s', w, tx);
    ServerKeepsShape(s, s', w, tx);
  }

  lemma SubmitKeepsLocks(s: State, s': State, r: ReferralId, row: ReferralRow)
    requires LockInv(s) && Next(s, s', Submit(r, row))
    ensures LockInv(s')
  {
    StepIsAtomic(s, s', Submit(r, row));
    forall o | o in s'.workers
      ensures TxInv(s'.db, TxOf(s'.workers[o])) && Shape(s', o, s'.workers[o])
    {
      if o != Caller(r) {
        assert Shape(s, o, s.workers[o]);
        Frame(s.db, s'.db, Insertion(r, row), TxOf(s.workers[o]));
      }
    }
    forall v, o | v in s'.workers && o in s'.workers && v != o
      ensures Compatible(TxOf(s'.workers[v]), TxOf(s'.workers[o]))
    {
      if v != Caller(r) && o != Caller(r) {
        assert Compatible(TxOf(s.workers[v]), TxOf(s.workers[o]));
      }
    }
  }

  /** The worker a step is about. */
  function Actor(step: Step): Worker {
    match step
    case Submit(r, _) => Caller(r)
    case Pick(r, _) => Caller(r)
    case Exhaust(r) => Caller(r)
    case CapOut(r) => Caller(r)
    case Resolve(r, _) => Caller(r)
    case Announce(r) => Caller(r)
    case Server(w, _) => w
    case Receive(w) => w
    case Poll(p) => Consumer(p)
    case Skip(p) => Consumer(p)
    case Fail(w) => w
    case Crash(p) => Consumer(p)
    case Ack(p, _) => Consumer(p)
    case Intake(p, _) => Consumer(p)
  }

  /** Holding no lock and having read nothing. */
  predicate Fresh(p: Proc) {
    TxOf(p).Idle? || TxOf(p).AllocBegun? || TxOf(p).ApplyBegun?
  }

  /** What a client-side step of worker `w` may do. */
  ghost predicate ClientStep(s: State, s': State, w: Worker) {
    && s'.db == s.db && s'.logs.Keys == s.logs.Keys
    && (s'.workers == s.workers - {w}
        || (w in s'.workers && s'.workers == s.workers[w := s'.workers[w]]
            && Shape(s', w, s'.workers[w]) && Fresh(s'.workers[w])))
  }

  lemma CallIsClient(s: State, s': State, step: Step)
    requires Shaped(s) && Next(s, s', step)
    requires step.Pick? || step.Exhaust? || step.CapOut? || step.Resolve? || step.Announce?
    ensures ClientStep(s, s', Actor(step))
  {
  }

  lemma ReceiveIsClient(s: State, s': State, w: Worker)
    requires Shaped(s) && Next(s, s', Receive(w))
    ensures ClientStep(s, s', w)
  {
  }

  lemma ConsumerIsClient(s: State, s': State, step: Step)
    requires Shaped(s) && Next(s, s', step)
    requires step.Poll? || step.Skip? || step.Ack? || step.Intake? || step.Crash?
    ensures step.Poll? || step.Crash? ==> ClientStep(s, s', Actor(step))
    ensures step.Skip? || step.Ack? || step.Intake? ==>
      s'.db == s.db && s'.workers == s.workers && s'.logs.Keys == s.logs.Keys
  {
  }

  lemma FailIsClient(s: State, s': State, w: Worker)
    requires Shaped(s) && Next(s, s', Fail(w))
    ensures ClientStep(s, s', w)
  {
  }

  lemma NextIsClient(s: State, s': State, step: Step)
    requires Shaped(s) && Next(s, s', step)
    requires !step.Submit? && !step.Server? && !step.Skip? && !step.Ack? && !step.Intake?
    ensures ClientStep(s, s', Actor(step))
  {
    match step
    case Receive(w) => ReceiveIsClient(s, s', w);
    case Fail(w) => FailIsClient(s, s', w);
    case Poll(_) => ConsumerIsClient(s, s', step);
    case Crash(_) => ConsumerIsClient(s, s', step);
    case _ => CallIsClient(s, s', step);
  }

  lemma ClientKeepsLocks(s: State, s': State, w: Worker)
    requires LockInv(s) && ClientStep(s, s', w)
    ensures LockInv(s')
  {
    forall o | o in s'.workers ensures Shape(s', o, s'.workers[o]) && TxInv(s'.db, TxOf(s'.workers[o])) {
      if o != w {
        assert Shape(s, o, s.workers[o]);
      }
    }
    forall v, o | v in s'.workers && o in s'.workers && v != o
      ensures Compatible(TxOf(s'.workers[v]), TxOf(s'.workers[o]))
    {
      if v != w && o != w {
        assert Compatible(TxOf(s.workers[v]), TxOf(s.workers[o]));
      }
    }
  }

  lemma QuietKeepsLocks(s: State, s': State)
    requires LockInv(s)
    requires s'.db == s.db && s'.workers == s.workers && s'.logs.Keys == s.logs.Keys
    ensures LockInv(s')
  {
  }

  /** Every step of every interleaving keeps the lock discipline and the database valid. */
  lemma NextKeepsLocks(s: State, s': State, step: Step)
    requires LockInv(s) && Next(s, s', step)
    ensures LockInv(s')
  {
    if step.Submit? {
      SubmitKeepsLocks(s, s', step.r, step.row);
    } else if step.Server? {
      ServerKeepsLocks(s, s', step.w, step.tx);
    } else if step.Skip? || step.Ack? || step.Intake? {
      ConsumerIsClient(s, s', step);
      QuietKeepsLocks(s, s');
    } else {
      NextIsClient(s, s', step);
      ClientKeepsLocks(s, s', Actor(step));
    }
  }

  /** No double booking, and all else that is valid, in every reachable committed state. */
  lemma {:induction false} RunKeepsLocks(tr: seq<State>)
    requires Run(tr)
    ensures LockInv(Last(tr))
  {
    if |tr| > 1 {
      RunFront(tr);
      RunKeepsLocks(Front(tr));
      var step :| Next(Last(Front(tr)), Last(tr), step);
      NextKeepsLocks(Last(Front(tr)), Last(tr), step);
    }
  }
}
