/** What the workers' allocation results say: each names the reservation row it made. */
module Awards {
  import opened Store
  import opened Machine
  import opened Locking

  /** The result is the content of its row, live or not. */
  ghost predicate Genuine(db: Database, a: Award) {
    && 0 <= a.row < |db.reservations|
    && db.reservations[a.row].bed == a.result.bed
    && db.reservations[a.row].referral == a.result.referral
    && a.result.bed in db.beds && a.result.shelter == db.beds[a.result.bed].shelter
  }

  ghost predicate AllGenuine(db: Database, awards: seq<Award>) {
    forall k :: 0 <= k < |awards| ==> Genuine(db, awards[k])
  }

  ghost predicate TxAward(db: Database, tx: Tx) {
    tx.AllocDone? && tx.award.Some? ==> Genuine(db, tx.award.value)
  }

  ghost predicate ProcAwards(db: Database, p: Proc) {
    match p
    case Searching(_, side) => AllGenuine(db, side)
    case Attempting(_, side, tx) => AllGenuine(db, side) && TxAward(db, tx)
    case Resolving(side) => AllGenuine(db, side)
    case Answered(unpublished, _) => AllGenuine(db, unpublished)
    case Offering(_, tx, _) => TxAward(db, tx)
    case _ => true
  }

  ghost predicate AwardInv(s: State) {
    forall w :: w in s.workers ==> ProcAwards(s.db, s.workers[w])
  }

  lemma AwardsStable(db: Database, db': Database, p: Proc)
    requires Evolves(db, db') && ProcAwards(db, p)
    ensures ProcAwards(db', p)
  {
  }

  lemma ReceiveAwards(s: State, s': State, w: Worker)
    requires LockInv(s) && AwardInv(s) && Next(s, s', Receive(w)) && w in s'.workers
    ensures ProcAwards(s'.db, s'.workers[w])
  {
  }

  lemma ActorAwards(s: State, s': State, step: Step)
    requires LockInv(s) && AwardInv(s) && Next(s, s', step) && Actor(step) in s'.workers
    requires !step.Server?
    ensures ProcAwards(s'.db, s'.workers[Actor(step)])
  {
    if step.Receive? {
      ReceiveAwards(s, s', step.w);
    }
  }

  lemma ServerAwards(s: State, s': State, w: Worker, tx: Tx)
    requires LockInv(s) && AwardInv(s) && Next(s, s', Server(w, tx))
    ensures ProcAwards(s'.db, s'.workers[w])
  {
  }

  lemma OthersUntouched(s: State, s': State, step: Step, o: Worker)
    requires Shaped(s) && Next(s, s', step) && o != Actor(step)
    ensures o in s'.workers <==> o in s.workers
    ensures o in s.workers ==> s'.workers[o] == s.workers[o]
  {
  }

  lemma NextKeepsAwards(s: State, s': State, step: Step)
    requires LockInv(s) && AwardInv(s) && Next(s, s', step)
    ensures AwardInv(s')
  {
    StepIsAtomic(s, s', step);
    forall o | o in s'.workers ensures ProcAwards(s'.db, s'.workers[o]) {
      if o != Actor(step) {
        OthersUntouched(s, s', step, o);
        AwardsStable(s.db, s'.db, s.workers[o]);
      } else if step.Server? {
        ServerAwards(s, s', step.w, step.tx);
      } else {
        ActorAwards(s, s', step);
      }
    }
  }

  lemma {:induction false} RunKeepsAwards(tr: seq<State>)
    requires Run(tr)
    ensures LockInv(Last(tr)) && AwardInv(Last(tr))
  {
    RunKeepsLocks(tr);
    if |tr| > 1 {
      RunFront(tr);
      RunKeepsAwards(Front(tr));
      var step :| Next(Last(Front(tr)), Last(tr), step);
      NextKeepsAwards(Last(Front(tr)), Last(tr), step);
    }
  }
}
