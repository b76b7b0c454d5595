/** What one undisturbed submission leaves behind, read off the tables alone; and that there is
    only one way to satisfy this, except for the choice between exact ties. */
module Submissions {
  import opened Domain
  import opened Store
  import opened Search

  /** Among the first `k` new rows is one for bed `b`; for referral `r`. */
  ghost predicate Given(added: seq<ReservationRow>, k: nat, b: BedId) {
    exists j :: 0 <= j < k <= |added| && added[j].bed == b
  }

  ghost predicate Placed(added: seq<ReservationRow>, k: nat, r: ReferralId) {
    exists j :: 0 <= j < k <= |added| && added[j].referral == r
  }

  /** New row `k` is the right next one: an available bed that suits the new referral, every
      lower such bed being given already, for a pending referral that suits it, everybody
      waiting for it who ranks higher being placed already. */
  ghost predicate RightTurn(start: Database, id: ReferralId, added: seq<ReservationRow>, k: nat)
    requires k < |added|
  {
    var b, r := added[k].bed, added[k].referral;
    && added[k].status == Active
    && Pair(start, b, r) && Pair(start, b, id)
    && !Given(added, k, b) && !Placed(added, k, r)
    && (forall x :: Pair(start, x, id) && x < b ==> Given(added, k, x))
    && (forall x :: Waiting(start, b, x) && Outranks(start.referrals[x], start.referrals[r]) ==> Placed(added, k, x))
  }

  /** The tables: the new rows appended, their beds reserved and their referrals matched, and
      nothing else touched. */
  ghost predicate Written(start: Database, added: seq<ReservationRow>, db': Database) {
    && db'.reservations == start.reservations + added && db'.ledger == start.ledger
    && db'.beds.Keys == start.beds.Keys && db'.referrals.Keys == start.referrals.Keys
    && (forall b :: b in start.beds ==>
          db'.beds[b] == if Given(added, |added|, b) then start.beds[b].(status := BedStatus.Reserved)
                         else start.beds[b])
    && (forall r :: r in start.referrals ==>
          db'.referrals[r] == if Placed(added, |added|, r)
                              then start.referrals[r].(status := ReferralStatus.Matched)
                              else start.referrals[r])
  }

  /** How it ends: with the first row of its own, or with no bed left for it, or after 500 rows. */
  ghost predicate Ends(start: Database, id: ReferralId, added: seq<ReservationRow>, db': Database, outcome: SubmitOutcome) {
    && |added| <= 500
    && (forall k :: 0 <= k < |added| - 1 ==> added[k].referral != id)
    && match outcome
       case Matched(a) =>
         && added != [] && added[|added| - 1] == ReservationRow(a.bed, id, Active) && a.referral == id
         && a.bed in start.beds && a.shelter == start.beds[a.bed].shelter
       case Pending(r) =>
         && r == id && !Placed(added, |added|, id)
         && (|added| < 500 ==> forall b :: !Pair(db', b, id))
  }

  ghost predicate Submitted(db: Database, id: ReferralId, row: ReferralRow, db': Database, outcome: SubmitOutcome) {
    |db.reservations| <= |db'.reservations| &&
    var start, added := InsertReferral(db, id, row), db'.reservations[|db.reservations|..];
    && Written(start, added, db') && Ends(start, id, added, db', outcome)
    && forall k :: 0 <= k < |added| ==> RightTurn(start, id, added, k)
  }

  // ----- a search is such a submission -----

  lemma RowsAreAwards(awards: seq<AllocationResult>, k: nat)
    requires k <= |awards|
    ensures forall b :: Given(Rows(awards), k, b) <==> b in AwardedBeds(awards[..k])
    ensures forall r :: Placed(Rows(awards), k, r) <==> r in AwardedReferrals(awards[..k])
  {
    var added, now := Rows(awards), awards[..k];
    forall b ensures Given(added, k, b) <==> b in AwardedBeds(now) {
      if Given(added, k, b) {
        var j :| 0 <= j < k && added[j].bed == b;
        assert now[j].bed == b;
      }
      if b in AwardedBeds(now) {
        var j :| 0 <= j < k && now[j].bed == b;
        assert added[j].bed == b;
      }
    }
    forall r ensures Placed(added, k, r) <==> r in AwardedReferrals(now) {
      if Placed(added, k, r) {
        var j :| 0 <= j < k && added[j].referral == r;
        assert now[j].referral == r;
      }
      if r in AwardedReferrals(now) {
        var j :| 0 <= j < k && now[j].referral == r;
        assert added[j].referral == r;
      }
    }
  }

  lemma AwardIsRight(start: Database, id: ReferralId, awards: seq<AllocationResult>, k: nat)
    requires SearchRun(start, id, awards) && k < |awards| && start.referrals[id].status == ReferralStatus.Pending
    requires forall j :: 0 <= j < |awards| - 1 ==> awards[j].referral != id
    ensures RightTurn(start, id, Rows(awards), k)
  {
    RowsAreAwards(awards, k);
    EachAward(start, id, awards, k);
    RunPrefix(start, id, awards, k);
    RunRows(start, id, awards[..k]);
    assert AwardAt(start, id, awards, k);
    var now := Awarded(start, awards[..k]);
    var b, r := awards[k].bed, awards[k].referral;
    forall j | 0 <= j < k ensures awards[..k][j].bed != b && awards[..k][j].referral != r {
      assert awards[..k][j] == awards[j];
    }
    forall x | Pair(start, x, id) && x !in AwardedBeds(awards[..k]) ensures b <= x {
      FiltersAgree(start.beds[x], start.referrals[id]);
      assert Candidate(now, x, start.referrals[id].region, start.referrals[id].needs);
    }
    forall x | Waiting(start, b, x) && x !in AwardedReferrals(awards[..k])
      ensures !Outranks(start.referrals[x], start.referrals[r])
    {
      assert Waiting(now, b, x);
    }
  }

  lemma RunIsWritten(start: Database, id: ReferralId, awards: seq<AllocationResult>)
    requires SearchRun(start, id, awards)
    ensures Written(start, Rows(awards), Awarded(start, awards))
  {
    RowsAreAwards(awards, |awards|);
    assert awards[..|awards|] == awards;
    RunRows(start, id, awards);
  }

  lemma RunTurns(start: Database, id: ReferralId, awards: seq<AllocationResult>)
    requires SearchRun(start, id, awards) && start.referrals[id].status == ReferralStatus.Pending
    requires forall j :: 0 <= j < |awards| - 1 ==> awards[j].referral != id
    ensures forall k :: 0 <= k < |awards| ==> RightTurn(start, id, Rows(awards), k)
  {
    forall k | 0 <= k < |awards| ensures RightTurn(start, id, Rows(awards), k) {
      AwardIsRight(start, id, awards, k);
    }
  }

  /** The search's end, with the limit spelt out. */
  ghost predicate Stops(start: Database, id: ReferralId, side: seq<AllocationResult>, outcome: SubmitOutcome)
    requires id in start.referrals
  {
    && SearchEnd(start, id, side, outcome)
    && |side| <= 500 && (outcome.Matched? ==> |side| < 500)
    && (outcome.Pending? && |side| < 500 ==> forall b ::
          !Candidate(Awarded(start, side), b, start.referrals[id].region, start.referrals[id].needs))
  }

  lemma MatchedEnds(start: Database, id: ReferralId, side: seq<AllocationResult>, a: AllocationResult, db': Database)
    requires a.bed in start.beds && a.shelter == start.beds[a.bed].shelter
    requires |side| < 500 && a.referral == id && forall k :: 0 <= k < |side| ==> side[k].referral != id
    ensures Ends(start, id, Rows(side + [a]), db', SubmitOutcome.Matched(a))
    ensures forall j :: 0 <= j < |side| ==> (side + [a])[j].referral != id
  {
  }

  lemma PendingEnds(start: Database, id: ReferralId, side: seq<AllocationResult>)
    requires SearchRun(start, id, side) && start.referrals[id].status == ReferralStatus.Pending
    requires |side| <= 500 && forall k :: 0 <= k < |side| ==> side[k].referral != id
    requires |side| < 500 ==> forall b ::
      !Candidate(Awarded(start, side), b, start.referrals[id].region, start.referrals[id].needs)
    ensures Ends(start, id, Rows(side), Awarded(start, side), SubmitOutcome.Pending(id))
  {
    StillPending(start, id, side);
    var db' := Awarded(start, side);
    forall b | |side| < 500 ensures !Pair(db', b, id) {
      assert !Candidate(db', b, start.referrals[id].region, start.referrals[id].needs);
      if b in db'.beds {
        FiltersAgree(db'.beds[b], db'.referrals[id]);
      }
    }
  }

  lemma RunEnds(start: Database, id: ReferralId, side: seq<AllocationResult>, outcome: SubmitOutcome)
    requires SearchRun(start, id, AllAwards(side, outcome)) && Stops(start, id, side, outcome)
    requires start.referrals[id].status == ReferralStatus.Pending
    ensures var all := AllAwards(side, outcome);
      Ends(start, id, Rows(all), Awarded(start, all), outcome)
      && forall j :: 0 <= j < |all| - 1 ==> all[j].referral != id
  {
    match outcome
    case Matched(a) =>
      var all := side + [a];
      assert all[|side|] == a && forall k :: 0 <= k < |side| ==> all[k] == side[k];
      EachAward(start, id, all, |side|);
      MatchedEnds(start, id, side, a, Awarded(start, all));
    case Pending(_) => PendingEnds(start, id, side);
  }

  lemma RunIsSubmission(db: Database, id: ReferralId, row: ReferralRow, side: seq<AllocationResult>,
                        outcome: SubmitOutcome, db': Database)
    requires row.status == ReferralStatus.Pending
    requires SearchRun(InsertReferral(db, id, row), id, AllAwards(side, outcome))
    requires Stops(InsertReferral(db, id, row), id, side, outcome)
    requires db' == Awarded(InsertReferral(db, id, row), AllAwards(side, outcome))
    ensures Submitted(db, id, row, db', outcome)
  {
    var start, all := InsertReferral(db, id, row), AllAwards(side, outcome);
    RunIsWritten(start, id, all);
    assert db'.reservations[|db.reservations|..] == Rows(all);
    RunEnds(start, id, side, outcome);
    RunTurns(start, id, all);
  }

  /** What a caller can tell from it: its own referral is recorded as submitted, and matched
      exactly if the answer says so, with the bed of the last row made; and an answer of
      `pending` short of the limit means that no bed is left for it. */
  lemma SubmittedMeans(db: Database, id: ReferralId, row: ReferralRow, db': Database, outcome: SubmitOutcome)
    requires row.status == ReferralStatus.Pending && Submitted(db, id, row, db', outcome)
    ensures db'.ledger == db.ledger && db'.beds.Keys == db.beds.Keys
    ensures db'.referrals.Keys == db.referrals.Keys + {id}
    ensures db'.referrals[id] == row.(status :=
      if outcome.Matched? then ReferralStatus.Matched else ReferralStatus.Pending)
    ensures outcome.Pending? ==> outcome.referral == id
    ensures outcome.Matched? ==>
      var a := outcome.result;
      && a.bed in db.beds && db.beds[a.bed].status == Available
      && a == AllocationResult(a.bed, db.beds[a.bed].shelter, id)
      && |db'.reservations| > |db.reservations|
      && db'.reservations[|db'.reservations| - 1] == ReservationRow(a.bed, id, Active)
    ensures |db.reservations| <= |db'.reservations| <= |db.reservations| + 500
    ensures outcome.Pending? && |db'.reservations| < |db.reservations| + 500 ==>
      forall b :: b in db'.beds && db'.beds[b].status == Available && db'.beds[b].region == row.region ==>
        !IsEligible(db'.beds[b].attrs, row.needs)
  {
    var start, added := InsertReferral(db, id, row), db'.reservations[|db.reservations|..];
    var n := |added|;
    if outcome.Matched? {
      assert RightTurn(start, id, added, n - 1) && added[n - 1].referral == id;
      assert Placed(added, n, id);
    } else {
      forall b | b in db'.beds && n < 500 ensures !(AllocationFilter(db'.beds[b], row) && db'.beds[b].status == Available) {
        assert !Pair(db', b, id);
      }
    }
  }

  // ----- there is only one -----

  /** No two pending referrals agree in both vulnerability and time. */
  ghost predicate NoTies(db: Database) {
    forall x, y | x in db.referrals && y in db.referrals && x != y
      && db.referrals[x].status == db.referrals[y].status == ReferralStatus.Pending ::
        Outranks(db.referrals[x], db.referrals[y]) || Outranks(db.referrals[y], db.referrals[x])
  }

  lemma SameTurn(start: Database, id: ReferralId, one: seq<ReservationRow>, two: seq<ReservationRow>, k: nat)
    requires NoTies(start) && k < |one| && k < |two| && one[..k] == two[..k]
    requires RightTurn(start, id, one, k) && RightTurn(start, id, two, k)
    ensures one[k] == two[k]
  {
    forall j | 0 <= j < k ensures one[j] == two[j] {
      assert one[..k][j] == two[..k][j];
    }
    forall b ensures Given(one, k, b) <==> Given(two, k, b) {
    }
    forall r ensures Placed(one, k, r) <==> Placed(two, k, r) {
    }
    assert one[k].bed == two[k].bed;
    FiltersAgree(start.beds[one[k].bed], start.referrals[one[k].referral]);
    FiltersAgree(start.beds[one[k].bed], start.referrals[two[k].referral]);
  }

  lemma {:induction false} SameRows(start: Database, id: ReferralId, one: seq<ReservationRow>, two: seq<ReservationRow>, k: nat)
    requires NoTies(start) && k <= |one| && k <= |two|
    requires forall j :: 0 <= j < |one| ==> RightTurn(start, id, one, j)
    requires forall j :: 0 <= j < |two| ==> RightTurn(start, id, two, j)
    ensures one[..k] == two[..k]
  {
    if k > 0 {
      SameRows(start, id, one, two, k - 1);
      SameTurn(start, id, one, two, k - 1);
    }
  }

  /** A submission that has ended could not have gone on. */
  lemma NoneLeft(start: Database, id: ReferralId, one: seq<ReservationRow>, two: seq<ReservationRow>,
                 db': Database, outcome: SubmitOutcome, db'': Database, outcome': SubmitOutcome)
    requires Written(start, one, db') && Ends(start, id, one, db', outcome) && Ends(start, id, two, db'', outcome')
    requires |one| <= |two| && two[..|one|] == one && id in start.referrals
    requires forall j :: 0 <= j < |two| ==> RightTurn(start, id, two, j)
    ensures one == two
  {
    var m := |one|;
    forall j | 0 <= j < m ensures two[j] == one[j] {
      assert two[..m][j] == one[j];
    }
    assert m > 0 ==> two[m - 1] == one[m - 1];
    if m < |two| && outcome.Pending? {
      assert RightTurn(start, id, two, m) && !Given(one, m, two[m].bed);
      StaysOpen(start, id, one, db', two[m].bed);
    }
  }

  lemma StaysOpen(start: Database, id: ReferralId, added: seq<ReservationRow>, db': Database, b: BedId)
    requires Written(start, added, db') && Pair(start, b, id)
    requires !Given(added, |added|, b) && !Placed(added, |added|, id)
    ensures Pair(db', b, id)
  {
  }

  /** Without ties the tables and the answer a submission leaves are determined. */
  lemma SubmittedOnce(db: Database, id: ReferralId, row: ReferralRow,
                      db': Database, outcome: SubmitOutcome, db'': Database, outcome': SubmitOutcome)
    requires NoTies(InsertReferral(db, id, row))
    requires Submitted(db, id, row, db', outcome) && Submitted(db, id, row, db'', outcome')
    ensures db' == db'' && outcome == outcome'
  {
    var start, n := InsertReferral(db, id, row), |db.reservations|;
    var one, two := db'.reservations[n..], db''.reservations[n..];
    if |one| <= |two| {
      SameRows(start, id, one, two, |one|);
      NoneLeft(start, id, one, two, db', outcome, db'', outcome');
    } else {
      SameRows(start, id, two, one, |two|);
      NoneLeft(start, id, two, one, db'', outcome', db', outcome);
    }
    SameTables(start, one, db', db'');
  }

  lemma SameTables(start: Database, added: seq<ReservationRow>, db': Database, db'': Database)
    requires Written(start, added, db') && Written(start, added, db'')
    ensures db' == db''
  {
    forall b | b in start.beds ensures db'.beds[b] == db''.beds[b] {
    }
    forall r | r in start.referrals ensures db'.referrals[r] == db''.referrals[r] {
    }
    assert db'.beds.Keys == db''.beds.Keys && db'.referrals.Keys == db''.referrals.Keys;
    assert db'.beds == db''.beds;
    assert db'.referrals == db''.referrals;
  }
}
