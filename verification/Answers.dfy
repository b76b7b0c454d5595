/** Every answer a caller is given was true of the committed database during its call. */
module Answers {
  import opened Domain
  import opened Store
  import opened Search
  import opened Machine
  import opened Locking
  import opened Awards

  /** The answer a call is bound to give, once that is settled. */
  function Decided(p: Proc, r: ReferralId): Option<SubmitOutcome> {
    match p
    case Answered(_, outcome) => Some(outcome)
    case Attempting(_, _, AllocDone(award)) =>
      if award.Some? && award.value.result.referral == r
      then Some(SubmitOutcome.Matched(award.value.result)) else None
    case _ => None
  }

  /** Matched: the referral holds that bed, active or checked in.  Pending: it holds none. */
  ghost predicate True(db: Database, r: ReferralId, outcome: SubmitOutcome) {
    match outcome
    case Matched(a) =>
      && a.referral == r && a.bed in db.beds && a.shelter == db.beds[a.bed].shelter
      && (exists i :: LiveFor(db, i, r) && LiveOn(db, i, a.bed))
      && r in db.referrals && db.referrals[r].status == ReferralStatus.Matched
    case Pending(x) =>
      && x == r && (forall i :: !LiveFor(db, i, r))
      && r in db.referrals && db.referrals[r].status != ReferralStatus.Matched
  }

  /** The step that settles an answer makes it, or finds it, true. */
  lemma SettledTruly(s: State, s': State, step: Step, r: ReferralId)
    requires LockInv(s) && AwardInv(s) && Next(s, s', step) && Caller(r) in s'.workers
    requires Decided(s'.workers[Caller(r)], r).Some?
    requires Caller(r) in s.workers ==> Decided(s.workers[Caller(r)], r) == None
    ensures True(s'.db, r, Decided(s'.workers[Caller(r)], r).value)
  {
    var w := Caller(r);
    if w != Actor(step) {
      OthersUntouched(s, s', step, w);
    } else if step.Server? {
      ServerSettles(s, s', step.tx, r);
    } else if step.Resolve? {
      NextKeepsLocks(s, s', step);
      assert Shape(s', w, s'.workers[w]);
      match step.found
      case Some(i) => assert LiveFor(s'.db, i, r) && LiveOn(s'.db, i, s'.db.reservations[i].bed);
      case None =>
    } else {
      NothingElseSettles(s, s', step, r);
    }
  }

  lemma ServerSettles(s: State, s': State, tx: Tx, r: ReferralId)
    requires LockInv(s) && Next(s, s', Server(Caller(r), tx))
    requires Decided(s'.workers[Caller(r)], r).Some? && Decided(s.workers[Caller(r)], r) == None
    ensures True(s'.db, r, Decided(s'.workers[Caller(r)], r).value)
  {
    assert Shape(s, Caller(r), s.workers[Caller(r)]);
    var i := |s.db.reservations|;
    assert LiveFor(s'.db, i, r);
    assert LiveOn(s'.db, i, tx.award.value.result.bed);
  }

  lemma NothingElseSettles(s: State, s': State, step: Step, r: ReferralId)
    requires LockInv(s) && Next(s, s', step) && Actor(step) == Caller(r) && Caller(r) in s'.workers
    requires !step.Server? && !step.Resolve?
    requires Caller(r) in s.workers ==> Decided(s.workers[Caller(r)], r) == None
    ensures Decided(s'.workers[Caller(r)], r) == None
  {
  }

  /** Once settled, it is the answer the call gives. */
  lemma AnswerStands(s: State, s': State, step: Step, r: ReferralId)
    requires LockInv(s) && Next(s, s', step) && Caller(r) in s.workers && Caller(r) in s'.workers
    requires Decided(s.workers[Caller(r)], r).Some?
    ensures Decided(s'.workers[Caller(r)], r) == Decided(s.workers[Caller(r)], r)
  {
    if Caller(r) != Actor(step) {
      OthersUntouched(s, s', step, Caller(r));
    } else {
      assert Shape(s, Caller(r), s.workers[Caller(r)]);
    }
  }

  /** Truthful answers: whatever a call answers was true of the committed database at some
      instant after its referral was inserted, even when another worker did the matching. */
  lemma {:induction false} AnsweredTruthfully(tr: seq<State>, r: ReferralId)
    requires Run(tr) && Caller(r) in Last(tr).workers && Decided(Last(tr).workers[Caller(r)], r).Some?
    ensures exists k ::
      && 0 <= k < |tr| && Caller(r) in tr[k].workers
      && True(tr[k].db, r, Decided(Last(tr).workers[Caller(r)], r).value)
  {
    RunKeepsAwards(tr);
    if |tr| > 1 {
      RunFront(tr);
      RunKeepsAwards(Front(tr));
      var s, s' := Last(Front(tr)), Last(tr);
      var step :| Next(s, s', step);
      if Caller(r) in s.workers && Decided(s.workers[Caller(r)], r).Some? {
        AnswerStands(s, s', step, r);
        AnsweredTruthfully(Front(tr), r);
        var k :| 0 <= k < |Front(tr)| && Caller(r) in Front(tr)[k].workers
                 && True(Front(tr)[k].db, r, Decided(s.workers[Caller(r)], r).value);
        assert tr[k] == Front(tr)[k];
      } else {
        SettledTruly(s, s', step, r);
        var k := |tr| - 1;
        assert True(tr[k].db, r, Decided(Last(tr).workers[Caller(r)], r).value);
      }
    }
  }
}
