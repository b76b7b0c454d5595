/** The README's concurrency and priority guarantees, for every interleaving. */
module Guarantees {
  import opened Domain
  import opened Store
  import opened Search
  import opened Machine
  import opened Locking

  // ----- no double booking -----

  /** The application never leans on the database backstop: at the INSERT no key of either
      partial unique index is in the way, committed or in flight, live or checked in. */
  lemma UniqueIndexesNeverFire(s: State, w: Worker)
    requires LockInv(s) && w in s.workers && TxOf(s.workers[w]).AllocChosen?
    ensures var tx := TxOf(s.workers[w]);
      && !IndexFires(s, w, tx.bed, tx.referral)
      && forall i :: !LiveOn(s.db, i, tx.bed) && !LiveFor(s.db, i, tx.referral)
  {
    var t := TxOf(s.workers[w]);
    assert TxInv(s.db, t) && t.referral in HeldReferrals(t);
    forall o | o in s.workers && o != w ensures !IndexesClash(TxOf(s.workers[o]), t.bed, t.referral) {
      assert Compatible(t, TxOf(s.workers[o]));
    }
  }

  /** In every reachable committed state a bed and a referral are each in at most one live
      reservation, and every reservation ever made joins a bed and a referral of one region
      that the eligibility predicate accepts. */
  lemma NeverDoubleBooked(tr: seq<State>, i: int, j: int)
    requires Run(tr)
    ensures var db := Last(tr).db;
      && (0 <= i < |db.reservations| ==>
            && db.reservations[i].bed in db.beds && db.reservations[i].referral in db.referrals
            && Suits(db.beds[db.reservations[i].bed], db.referrals[db.reservations[i].referral]))
      && (forall b :: LiveOn(db, i, b) && LiveOn(db, j, b) ==> i == j)
      && (forall r :: LiveFor(db, i, r) && LiveFor(db, j, r) ==> i == j)
      && (forall b :: LiveOn(db, i, b) ==> db.beds[b].status in {BedStatus.Reserved, Occupied})
  {
    RunKeepsLocks(tr);
    AtMostOneRow(Last(tr).db);
  }

  // ----- who waits for whom -----

  /** `w`'s next statement waits for a lock or an index key that `o` holds. */
  ghost predicate WaitsFor(s: State, w: Worker, o: Worker)
    requires w in s.workers && o in s.workers
  {
    var t, u := TxOf(s.workers[w]), TxOf(s.workers[o]);
    o != w &&
    match t
    case AllocBegun(b) => HeldBed(u) == Some(b)
    case AllocChosen(b, r, _) => IndexesClash(u, b, r)
    case ApplyBegun(e) => HeldEvent(u) == Some(e.id)
    case ApplyInserted(e) => HeldBed(u) == Some(e.bed)
    case ApplyUpdated(_, _, released) => released.Some? && released.value in HeldReferrals(u)
    case _ => false
  }

  /** Locks are taken event id first, then bed, then referral; only an event transaction asks
      for a referral and waits. */
  function Rank(tx: Tx): nat {
    match tx
    case ApplyBegun(_) => 3
    case ApplyInserted(_) => 2
    case AllocBegun(_) => 2
    case ApplyUpdated(_, _, _) => 1
    case _ => 0
  }

  lemma WaitingDescends(s: State, w: Worker, o: Worker)
    requires LockInv(s) && w in s.workers && o in s.workers && WaitsFor(s, w, o)
    ensures Rank(TxOf(s.workers[o])) < Rank(TxOf(s.workers[w]))
  {
    if TxOf(s.workers[w]).AllocChosen? {
      UniqueIndexesNeverFire(s, w);
    }
  }

  /** The row an event transaction is about to re-pend can be locked by nobody but an
      allocation that keeps it after a failed second check. */
  lemma ReleasedIsOnlyKept(db: Database, e: Event, u: Tx)
    requires Valid(db) && TxInv(db, u) && HeldBed(u) != Some(e.bed)
    requires FirstReleased(db.reservations, e).Some?
    ensures var r := FirstReleased(db.reservations, e).value;
      r in HeldReferrals(u) <==> r in Kept(u)
  {
    var r := FirstReleased(db.reservations, e).value;
    assert db.referrals[r].status == ReferralStatus.Matched;
    if u.ApplyReady? {
      assert u.repended != Some(r);
    }
  }

  /** Exactly when a transaction that holds a bed waits: an event transaction does for an
      allocation that keeps the row it is to re-pend, and that allocation waits for nobody;
      an allocation never does. */
  lemma BedHoldersWaitOnlyForKept(s: State, w: Worker, o: Worker)
    requires LockInv(s) && w in s.workers && o in s.workers && w != o && HeldBed(TxOf(s.workers[w])).Some?
    ensures var t := TxOf(s.workers[w]);
      WaitsFor(s, w, o) <==> t.ApplyUpdated? && t.released.Some? && t.released.value in Kept(TxOf(s.workers[o]))
    ensures AllocTx(TxOf(s.workers[w])) ==> !WaitsFor(s, w, o)
    ensures WaitsFor(s, w, o) ==>
      AllocTx(TxOf(s.workers[o])) && forall x :: x in s.workers ==> !WaitsFor(s, o, x)
  {
    var t, u := TxOf(s.workers[w]), TxOf(s.workers[o]);
    assert TxInv(s.db, t) && TxInv(s.db, u) && Compatible(t, u);
    match t
    case AllocChosen(_, _, _) => UniqueIndexesNeverFire(s, w);
    case ApplyUpdated(e, _, released) =>
      if released.Some? {
        ReleasedIsOnlyKept(s.db, e, u);
      }
      if WaitsFor(s, w, o) {
        forall x | x in s.workers ensures !WaitsFor(s, o, x) {
          if WaitsFor(s, o, x) {
            WaitingDescends(s, o, x);
          }
        }
      }
    case _ =>
  }

  /** Allocations for different beds never block each other: one waits only for its own bed. */
  lemma AllocationsWaitForTheirBed(s: State, w: Worker, o: Worker)
    requires LockInv(s) && w in s.workers && o in s.workers && AllocTx(TxOf(s.workers[w]))
    ensures WaitsFor(s, w, o) <==>
      w != o && TxOf(s.workers[w]).AllocBegun? && HeldBed(TxOf(s.workers[o])) == Some(TxOf(s.workers[w]).bed)
  {
    if TxOf(s.workers[w]).AllocChosen? {
      UniqueIndexesNeverFire(s, w);
    }
  }

  /** Besides the referral it chooses an allocation locks only rows that were waiting at its
      snapshot and are pending no longer; it does lock each of these that ranks higher, unless
      another holds it. */
  lemma LocksBesidesItsChoice(s: State, s': State, w: Worker, b: BedId, r: ReferralId, kept: set<ReferralId>, x: ReferralId)
    requires LockInv(s) && Next(s, s', Server(w, AllocChosen(b, r, kept)))
    ensures var t := TxOf(s.workers[w]);
      && t.AllocSeen?
      && (x in kept ==> x in t.seen && x in s.db.referrals && s.db.referrals[x].status != ReferralStatus.Pending)
      && (x in t.seen && x in s.db.referrals && s.db.referrals[x].status != ReferralStatus.Pending
          && Outranks(s.db.referrals[x], s.db.referrals[r]) ==>
            (x in kept <==> !ReferralLocked(s, w, x)))
  {
    assert TxInv(s.db, TxOf(s.workers[w]));
    if x in s.db.referrals {
      FiltersAgree(s.db.beds[b], s.db.referrals[x]);
    }
  }

  ghost predicate Chain(s: State, ws: seq<Worker>) {
    && (forall i :: 0 <= i < |ws| ==> ws[i] in s.workers)
    && (forall i :: 0 <= i < |ws| - 1 ==> WaitsFor(s, ws[i], ws[i + 1]))
  }

  /** No deadlock: a chain of waits has at most four workers and never closes. */
  lemma {:induction false} WaitsNeverCycle(s: State, ws: seq<Worker>)
    requires LockInv(s) && Chain(s, ws) && ws != []
    ensures |ws| <= Rank(TxOf(s.workers[ws[0]])) + 1 <= 4
    ensures !WaitsFor(s, ws[|ws| - 1], ws[0])
  {
    if |ws| > 1 {
      var rest := ws[1..];
      assert Chain(s, rest) by {
        forall i | 0 <= i < |rest| - 1 ensures WaitsFor(s, rest[i], rest[i + 1]) {
          var k := i + 1;
          assert WaitsFor(s, ws[k], ws[k + 1]);
        }
      }
      WaitsNeverCycle(s, rest);
      var zero := 0;
      assert WaitsFor(s, ws[zero], ws[zero + 1]);
      WaitingDescends(s, ws[0], ws[1]);
      RankFalls(s, ws);
    }
    if WaitsFor(s, ws[|ws| - 1], ws[0]) {
      WaitingDescends(s, ws[|ws| - 1], ws[0]);
    }
  }

  lemma {:induction false} RankFalls(s: State, ws: seq<Worker>)
    requires LockInv(s) && Chain(s, ws) && ws != []
    ensures Rank(TxOf(s.workers[ws[|ws| - 1]])) <= Rank(TxOf(s.workers[ws[0]]))
  {
    if |ws| > 1 {
      var n := |ws| - 2;
      RankFalls(s, ws[..n + 1]);
      assert WaitsFor(s, ws[n], ws[n + 1]);
      WaitingDescends(s, ws[n], ws[n + 1]);
    }
  }

  // ----- priority -----

  /** An in-flight allocation has chosen `r` and holds its lock. */
  ghost predicate TakenBy(s: State, o: Worker, r: ReferralId) {
    o in s.workers && r in Chosen(TxOf(s.workers[o]))
  }

  /** A pending row is locked only by an allocation that has chosen it. */
  lemma PendingLocksAreAllocations(s: State, w: Worker, r: ReferralId)
    requires LockInv(s) && ReferralLocked(s, w, r)
    requires r in s.db.referrals && s.db.referrals[r].status == ReferralStatus.Pending
    ensures exists o :: o != w && TakenBy(s, o, r)
  {
    var o :| o in s.workers && o != w && r in HeldReferrals(TxOf(s.workers[o]));
    var t := TxOf(s.workers[o]);
    assert TxInv(s.db, t);
    assert TakenBy(s, o, r);
  }

  /** The referrals waiting for `b` that the allocation's snapshot does not have: they were
      submitted or put back in line after its query began. */
  ghost predicate Late(s: State, w: Worker, b: BedId, x: ReferralId)
    requires w in s.workers
  {
    Waiting(s.db, b, x) && !(TxOf(s.workers[w]).AllocSeen? && x in TxOf(s.workers[w]).seen)
  }

  /** When an allocation picks `r` for `b`, whoever outranks `r` and is waiting for `b` is
      taken by another in-flight allocation at that instant, or came after the query's
      snapshot; with nobody taken and nobody late, `r` is a maximum. */
  lemma PriorityUnderSkipLocked(s: State, s': State, w: Worker, b: BedId, r: ReferralId, kept: set<ReferralId>)
    requires LockInv(s) && Next(s, s', Server(w, AllocChosen(b, r, kept)))
    ensures w in s.workers && Pair(s.db, b, r)
    ensures forall x :: Waiting(s.db, b, x) && Outranks(s.db.referrals[x], s.db.referrals[r]) ==>
      Late(s, w, b, x) || exists o :: o != w && TakenBy(s, o, x)
    ensures Undisturbed(s, w, b) ==> Best(s.db, b, r)
  {
    assert TxInv(s.db, TxOf(s.workers[w]));
    forall x | Waiting(s.db, b, x) && Outranks(s.db.referrals[x], s.db.referrals[r]) && !Late(s, w, b, x)
      ensures exists o :: o != w && TakenBy(s, o, x)
    {
      assert !Selectable(s, w, b, TxOf(s.workers[w]).seen, x);
      PendingLocksAreAllocations(s, w, x);
    }
  }

  /** No other allocation has taken a referral, and nobody has joined the line for `b` since
      the query began. */
  ghost predicate Undisturbed(s: State, w: Worker, b: BedId) {
    && w in s.workers
    && (forall o, x :: TakenBy(s, o, x) ==> o == w)
    && (forall x :: !Late(s, w, b, x))
  }

  /** .. and is matched as soon as that allocation commits. */
  lemma TakenBecomesMatched(s: State, s': State, o: Worker, award: Option<Award>, r: ReferralId)
    requires LockInv(s) && TakenBy(s, o, r) && Next(s, s', Server(o, AllocDone(award)))
    ensures r in s'.db.referrals && s'.db.referrals[r].status == ReferralStatus.Matched
    ensures award.Some? && award.value.result.referral == r
  {
  }

  lemma {:induction false} RunEvolves(tr: seq<State>, i: int)
    requires Run(tr) && 0 <= i < |tr|
    ensures Evolves(tr[i].db, Last(tr).db)
  {
    if i < |tr| - 1 {
      RunFront(tr);
      RunEvolves(Front(tr), i);
      RunKeepsLocks(Front(tr));
      var step :| Next(Last(Front(tr)), Last(tr), step);
      StepIsAtomic(Last(Front(tr)), Last(tr), step);
      EvolvesTransitive(tr[i].db, Last(Front(tr)).db, Last(tr).db);
    }
  }

  /** A displaced referral keeps its place: if `r` won `b`, is pending again, and `b` is next
      awarded without interference, it goes to `r`, to an exact tie, or to an outranking
      referral that was not pending when `r` won. */
  lemma DisplacedKeepsItsPlace(tr: seq<State>, i: int, t: State, w: Worker, t': State, v: Worker,
                               b: BedId, r: ReferralId, kept: set<ReferralId>, x: ReferralId, kept': set<ReferralId>)
    requires Run(tr) && 0 <= i < |tr|
    requires Next(tr[i], t, Server(w, AllocChosen(b, r, kept))) && Undisturbed(tr[i], w, b)
    requires Next(Last(tr), t', Server(v, AllocChosen(b, x, kept'))) && Undisturbed(Last(tr), v, b)
    requires r in Last(tr).db.referrals && Last(tr).db.referrals[r].status == ReferralStatus.Pending
    ensures var won, now := tr[i].db, Last(tr).db;
      || x == r
      || (!Outranks(now.referrals[x], now.referrals[r]) && !Outranks(now.referrals[r], now.referrals[x]))
      || (Outranks(now.referrals[x], now.referrals[r])
          && (x !in won.referrals || won.referrals[x].status != ReferralStatus.Pending))
  {
    var won, now := tr[i].db, Last(tr).db;
    RunTake(tr, i + 1);
    RunKeepsLocks(tr[..i + 1]);
    RunKeepsLocks(tr);
    RunEvolves(tr, i);
    PriorityUnderSkipLocked(tr[i], t, w, b, r, kept);
    PriorityUnderSkipLocked(Last(tr), t', v, b, x, kept');
    assert Best(won, b, r) && Best(now, b, x);
    FiltersAgree(won.beds[b], won.referrals[r]);
    FiltersAgree(now.beds[b], now.referrals[r]);
    FiltersAgree(now.beds[b], now.referrals[x]);
    assert Waiting(now, b, r);
    if x in won.referrals {
      FiltersAgree(won.beds[b], won.referrals[x]);
    }
  }
}
