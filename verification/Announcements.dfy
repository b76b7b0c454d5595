/** Notification coverage: every allocation ever committed has been published, is about to be
    by the worker that made it, or fell to an error or crash of that worker. */
module Announcements {
  import opened Domain
  import opened Search
  import opened Machine
  import opened Locking
  import opened Awards

  ghost predicate OwedBy(s: State, w: Worker, i: int) {
    w in s.workers && i in Owes(s.workers[w])
  }

  /** Published, muted by an error of its worker, or still owed. */
  ghost predicate Accounted(s: State, i: int) {
    i in s.announced || i in s.muted || exists w :: OwedBy(s, w, i)
  }

  ghost predicate AnnounceInv(s: State) {
    forall i :: 0 <= i < |s.db.reservations| ==> Accounted(s, i)
  }

  lemma RowsAppend(side: seq<Award>, a: Award)
    ensures RowsOf(side + [a]) == RowsOf(side) + {a.row}
  {
    var all := side + [a];
    assert all[|side|] == a;
    forall i | i in RowsOf(side) ensures i in RowsOf(all) {
      var k :| 0 <= k < |side| && side[k].row == i;
      assert all[k].row == i;
    }
  }

  lemma RowsTail(awards: seq<Award>)
    requires awards != []
    ensures RowsOf(awards) == {awards[0].row} + RowsOf(awards[1..])
  {
  }

  lemma HistoryGrows(s: State, s': State, step: Step)
    requires LockInv(s) && Next(s, s', step)
    ensures s.announced <= s'.announced && s.muted <= s'.muted
  {
    match step
    case Receive(w) => assert Shape(s, w, s.workers[w]);
    case _ =>
  }

  lemma ReceiveKeepsDebts(s: State, s': State, w: Worker, i: int)
    requires LockInv(s) && Next(s, s', Receive(w)) && OwedBy(s, w, i)
    ensures i in s'.announced || OwedBy(s', w, i)
  {
    var p := s.workers[w];
    assert Shape(s, w, p);
    if p.Attempting? && p.tx.award.Some? {
      RowsAppend(p.side, p.tx.award.value);
    }
  }

  lemma ResolveKeepsDebts(s: State, s': State, r: ReferralId, found: Option<int>, i: int)
    requires Next(s, s', Resolve(r, found)) && OwedBy(s, Caller(r), i)
    ensures OwedBy(s', Caller(r), i)
  {
    if found.Some? {
      var b := s.db.reservations[found.value].bed;
      RowsAppend(s.workers[Caller(r)].side, Award(found.value, AllocationResult(b, s.db.beds[b].shelter, r)));
    }
  }

  lemma AnnounceKeepsDebts(s: State, s': State, r: ReferralId, i: int)
    requires Next(s, s', Announce(r)) && OwedBy(s, Caller(r), i)
    ensures i in s'.announced || OwedBy(s', Caller(r), i)
  {
    RowsTail(s.workers[Caller(r)].unpublished);
  }

  lemma ServerKeepsDebts(s: State, s': State, w: Worker, tx: Tx, i: int)
    requires LockInv(s) && Next(s, s', Server(w, tx)) && OwedBy(s, w, i)
    ensures OwedBy(s', w, i)
  {
    assert Shape(s, w, s.workers[w]);
  }

  /** A worker parts with what it owes only by publishing it or by failing. */
  lemma DebtsKept(s: State, s': State, step: Step, i: int)
    requires LockInv(s) && Next(s, s', step) && OwedBy(s, Actor(step), i)
    ensures i in s'.announced || OwedBy(s', Actor(step), i)
            || ((step.Fail? || step.Crash?) && i in s'.muted)
  {
    assert Shape(s, Actor(step), s.workers[Actor(step)]);
    match step
    case Receive(w) => ReceiveKeepsDebts(s, s', w, i);
    case Resolve(r, found) => ResolveKeepsDebts(s, s', r, found, i);
    case Announce(r) => AnnounceKeepsDebts(s, s', r, i);
    case Server(w, tx) => ServerKeepsDebts(s, s', w, tx, i);
    case _ =>
  }

  lemma NextKeepsAnnounced(s: State, s': State, step: Step)
    requires LockInv(s) && AnnounceInv(s) && Next(s, s', step)
    ensures AnnounceInv(s')
  {
    StepIsAtomic(s, s', step);
    HistoryGrows(s, s', step);
    forall i | 0 <= i < |s'.db.reservations| ensures Accounted(s', i) {
      if i >= |s.db.reservations| {
        NewRowOwed(s, s', step.w, step.tx, i);
        assert OwedBy(s', step.w, i);
      } else if i !in s.announced && i !in s.muted {
        assert Accounted(s, i);
        var w :| OwedBy(s, w, i);
        if w == Actor(step) {
          DebtsKept(s, s', step, i);
        } else {
          OthersUntouched(s, s', step, w);
          assert OwedBy(s', w, i);
        }
      }
    }
  }

  lemma NewRowOwed(s: State, s': State, w: Worker, tx: Tx, i: int)
    requires LockInv(s) && Next(s, s', Server(w, tx)) && |s.db.reservations| <= i < |s'.db.reservations|
    ensures OwedBy(s', w, i)
  {
    ServerStep(s, s', w, tx);
    assert Commits(TxOf(s.workers[w])).Allocation?;
    assert Shape(s, w, s.workers[w]);
  }

  lemma {:induction false} RunKeepsAnnounced(tr: seq<State>)
    requires Run(tr)
    ensures LockInv(Last(tr)) && AnnounceInv(Last(tr))
  {
    RunKeepsLocks(tr);
    if |tr| > 1 {
      RunFront(tr);
      RunKeepsAnnounced(Front(tr));
      RunKeepsLocks(Front(tr));
      var step :| Next(Last(Front(tr)), Last(tr), step);
      NextKeepsAnnounced(Last(Front(tr)), Last(tr), step);
    }
  }

  /** In a run without errors or crashes, once every worker has finished, every reservation
      has been handed to `publish_bed_update`. */
  lemma EverythingPublished(tr: seq<State>, i: int)
    requires Run(tr) && 0 <= i < |Last(tr).db.reservations| && Last(tr).muted == {}
    requires forall w :: w in Last(tr).workers ==>
      var p := Last(tr).workers[w]; p.Polling? || (p.Answered? && p.unpublished == [])
    ensures i in Last(tr).announced
  {
    RunKeepsAnnounced(tr);
    assert Accounted(Last(tr), i);
  }
}
