/** What one uninterfered allocation and one whole referral search do to the database,
    and what follows for the referrals that are left waiting. */
module Search {
  import opened Domain
  import opened Store

  datatype AllocationResult = AllocationResult(bed: BedId, shelter: ShelterId, referral: ReferralId)

  datatype SubmitOutcome = Matched(result: AllocationResult) | Pending(referral: ReferralId)

  /** `for _ in 0..500`. */
  const SEARCH_LIMIT: nat := 500

  /** No row the allocation query on `b` ranges over comes before `r`. */
  ghost predicate Best(db: Database, b: BedId, r: ReferralId) {
    Waiting(db, b, r) && forall x :: Waiting(db, b, x) ==> !Outranks(db.referrals[x], db.referrals[r])
  }

  /** The rows the allocation query on `b` ranges over. */
  function WaitingFor(db: Database, b: BedId): set<ReferralId> {
    set r | r in db.referrals && Waiting(db, b, r)
  }

  /** An allocation attempt on `b` with no other transaction in flight. */
  ghost predicate AllocationSpec(db: Database, b: BedId, db': Database, result: Option<AllocationResult>) {
    match result
    case None => db' == db && forall r :: !Pair(db, b, r)
    case Some(a) =>
      && Pair(db, b, a.referral) && Best(db, b, a.referral)
      && a.bed == b && a.shelter == db.beds[b].shelter
      && db' == Reserve(db, b, a.referral)
  }

  ghost predicate Candidate(db: Database, b: BedId, region: Region, needs: ReferralNeeds) {
    b in db.beds && CandidateFilter(db.beds[b], region, needs)
  }

  /** The row the search query returns: the candidate with the least id. */
  ghost predicate FirstCandidate(db: Database, b: BedId, region: Region, needs: ReferralNeeds) {
    Candidate(db, b, region, needs) && forall x :: Candidate(db, x, region, needs) ==> b <= x
  }

  /** The database after a sequence of successful allocations. */
  function Awarded(db: Database, awards: seq<AllocationResult>): Database {
    if awards == [] then db
    else
      var last := awards[|awards| - 1];
      var before := Awarded(db, awards[..|awards| - 1]);
      if last.bed in before.beds && last.referral in before.referrals
      then Reserve(before, last.bed, last.referral)
      else before
  }

  function Rows(awards: seq<AllocationResult>): (rows: seq<ReservationRow>)
    ensures |rows| == |awards|
    ensures forall k :: 0 <= k < |awards| ==> rows[k] == ReservationRow(awards[k].bed, awards[k].referral, Active)
  {
    seq(|awards|, k requires 0 <= k < |awards| => ReservationRow(awards[k].bed, awards[k].referral, Active))
  }

  /** The k-th allocation of a search made on the state that the first k left. */
  ghost predicate AwardAt(db: Database, id: ReferralId, awards: seq<AllocationResult>, k: int)
    requires 0 <= k < |awards| && id in db.referrals
  {
    var now := Awarded(db, awards[..k]);
    && FirstCandidate(now, awards[k].bed, db.referrals[id].region, db.referrals[id].needs)
    && AllocationSpec(now, awards[k].bed, Awarded(db, awards[..k + 1]), Some(awards[k]))
  }

  /** `awards` is what a search for `id`, starting on `db`, allocates, in order. */
  ghost predicate SearchRun(db: Database, id: ReferralId, awards: seq<AllocationResult>) {
    id in db.referrals && forall k :: 0 <= k < |awards| ==> AwardAt(db, id, awards, k)
  }

  // ----- whole-search correctness -----

  function AwardedBeds(awards: seq<AllocationResult>): set<BedId> {
    set k | 0 <= k < |awards| :: awards[k].bed
  }

  function AwardedReferrals(awards: seq<AllocationResult>): set<ReferralId> {
    set k | 0 <= k < |awards| :: awards[k].referral
  }

  lemma AwardedAppend(front: seq<AllocationResult>, a: AllocationResult)
    ensures AwardedBeds(front + [a]) == AwardedBeds(front) + {a.bed}
    ensures AwardedReferrals(front + [a]) == AwardedReferrals(front) + {a.referral}
  {
    var awards := front + [a];
    assert awards[|front|] == a;
    forall b | b in AwardedBeds(front) ensures b in AwardedBeds(awards) {
      var k :| 0 <= k < |front| && front[k].bed == b;
      assert awards[k].bed == b;
    }
    forall r | r in AwardedReferrals(front) ensures r in AwardedReferrals(awards) {
      var k :| 0 <= k < |front| && front[k].referral == r;
      assert awards[k].referral == r;
    }
  }

  /** The state after a run of awards, row by row. */
  ghost predicate AwardedRows(db: Database, awards: seq<AllocationResult>, db': Database) {
    && db'.beds.Keys == db.beds.Keys && db'.referrals.Keys == db.referrals.Keys
    && db'.ledger == db.ledger
    && db'.reservations == db.reservations + Rows(awards)
    && (forall b :: b in db.beds ==>
          db'.beds[b] == if b in AwardedBeds(awards) then db.beds[b].(status := BedStatus.Reserved) else db.beds[b])
    && (forall r :: r in db.referrals ==>
          db'.referrals[r] == if r in AwardedReferrals(awards)
                              then db.referrals[r].(status := ReferralStatus.Matched) else db.referrals[r])
  }

  lemma RowsStep(db: Database, front: seq<AllocationResult>, now: Database, a: AllocationResult)
    requires AwardedRows(db, front, now) && a.bed in now.beds && a.referral in now.referrals
    ensures AwardedRows(db, front + [a], Reserve(now, a.bed, a.referral))
  {
    AwardedAppend(front, a);
    var rows := Rows(front) + [ReservationRow(a.bed, a.referral, Active)];
    assert Rows(front + [a]) == rows;
    assert db.reservations + rows
        == db.reservations + Rows(front) + [ReservationRow(a.bed, a.referral, Active)];
  }

  lemma {:induction false} RunRows(db: Database, id: ReferralId, awards: seq<AllocationResult>)
    requires SearchRun(db, id, awards)
    ensures AwardedRows(db, awards, Awarded(db, awards))
  {
    if awards == [] {
      assert db.reservations + Rows(awards) == db.reservations;
    } else {
      var n := |awards| - 1;
      RunPrefix(db, id, awards, n);
      RunRows(db, id, awards[..n]);
      assert AwardAt(db, id, awards, n) && awards[..n + 1] == awards == awards[..n] + [awards[n]];
      RowsStep(db, awards[..n], Awarded(db, awards[..n]), awards[n]);
    }
  }

  /** Whoever has not been awarded a bed is as it was. */
  lemma StillPending(db: Database, id: ReferralId, awards: seq<AllocationResult>)
    requires SearchRun(db, id, awards)
    requires forall k :: 0 <= k < |awards| ==> awards[k].referral != id
    ensures id in Awarded(db, awards).referrals && Awarded(db, awards).referrals[id] == db.referrals[id]
  {
    RunRows(db, id, awards);
    assert id !in AwardedReferrals(awards);
  }

  lemma RunReservations(db: Database, id: ReferralId, awards: seq<AllocationResult>)
    requires SearchRun(db, id, awards)
    ensures Awarded(db, awards).reservations == db.reservations + Rows(awards)
  {
    RunRows(db, id, awards);
  }

  lemma RunPrefix(db: Database, id: ReferralId, awards: seq<AllocationResult>, k: int)
    requires SearchRun(db, id, awards) && 0 <= k <= |awards|
    ensures SearchRun(db, id, awards[..k])
  {
    forall j | 0 <= j < k ensures AwardAt(db, id, awards[..k], j) {
      assert AwardAt(db, id, awards, j);
      assert awards[..k][..j] == awards[..j] && awards[..k][..j + 1] == awards[..j + 1];
    }
  }

  /** Each iteration consumes a distinct bed that was available from the start and suits the
      new referral, for a distinct referral that was pending from the start, suits that bed
      and does not rank below the new one. */
  lemma EachAward(db: Database, id: ReferralId, awards: seq<AllocationResult>, k: int)
    requires SearchRun(db, id, awards) && 0 <= k < |awards| && db.referrals[id].status == ReferralStatus.Pending
    requires forall j :: 0 <= j < k ==> awards[j].referral != id
    ensures Pair(db, awards[k].bed, awards[k].referral) && Pair(db, awards[k].bed, id)
    ensures !Outranks(db.referrals[id], db.referrals[awards[k].referral])
    ensures awards[k].shelter == db.beds[awards[k].bed].shelter
    ensures forall j :: 0 <= j < k ==> awards[j].bed != awards[k].bed && awards[j].referral != awards[k].referral
  {
    RunPrefix(db, id, awards, k);
    RunRows(db, id, awards[..k]);
    assert AwardAt(db, id, awards, k);
    var now := Awarded(db, awards[..k]);
    var b, r := awards[k].bed, awards[k].referral;
    forall j | 0 <= j < k ensures awards[j].bed != b && awards[j].referral != r {
      assert awards[..k][j] == awards[j];
    }
    assert now.beds[b] == db.beds[b] && now.referrals[r] == db.referrals[r];
    assert now.referrals[id] == db.referrals[id];
    assert Waiting(now, b, id);
  }

  function Candidates(db: Database, id: ReferralId): set<BedId>
    requires id in db.referrals
  {
    set b | b in db.beds && CandidateFilter(db.beds[b], db.referrals[id].region, db.referrals[id].needs)
  }

  /** A search makes no more allocations than there are beds it could have been given. */
  lemma {:induction false} SearchIsBounded(db: Database, id: ReferralId, awards: seq<AllocationResult>)
    requires SearchRun(db, id, awards) && db.referrals[id].status == ReferralStatus.Pending
    requires forall j :: 0 <= j < |awards| - 1 ==> awards[j].referral != id
    ensures AwardedBeds(awards) <= Candidates(db, id)
    ensures |awards| == |AwardedBeds(awards)| <= |Candidates(db, id)|
  {
    forall k | 0 <= k < |awards| ensures awards[k].bed in Candidates(db, id) {
      EachAward(db, id, awards, k);
    }
    assert AwardedBeds(awards) <= Candidates(db, id);
    SubsetSize(AwardedBeds(awards), Candidates(db, id));
    if awards != [] {
      var n := |awards| - 1;
      RunPrefix(db, id, awards, n);
      SearchIsBounded(db, id, awards[..n]);
      EachAward(db, id, awards, n);
      assert awards == awards[..n] + [awards[n]];
      AwardedAppend(awards[..n], awards[n]);
      assert awards[n].bed !in AwardedBeds(awards[..n]);
    }
  }

  lemma SubsetSize<T>(xs: set<T>, ys: set<T>)
    requires xs <= ys
    ensures |xs| <= |ys|
  {
    assert ys == xs + (ys - xs);
  }

  // ----- nobody is stranded -----

  /** No available bed stands beside a pending referral it suits. */
  ghost predicate NoStranded(db: Database) {
    forall b, r :: !Pair(db, b, r)
  }

  /** How a search for `id` may end: with its own bed as the last award, or pending with no
      candidate left or the iterations used up. */
  ghost predicate SearchEnd(db: Database, id: ReferralId, side: seq<AllocationResult>, outcome: SubmitOutcome)
    requires id in db.referrals
  {
    && (forall k :: 0 <= k < |side| ==> side[k].referral != id)
    && match outcome
       case Matched(a) => a.referral == id && |side| < SEARCH_LIMIT
       case Pending(r) =>
         r == id && (|side| == SEARCH_LIMIT
                     || forall b :: !Candidate(Awarded(db, side), b, db.referrals[id].region, db.referrals[id].needs))
  }

  function AllAwards(side: seq<AllocationResult>, outcome: SubmitOutcome): seq<AllocationResult> {
    match outcome
    case Matched(a) => side + [a]
    case Pending(_) => side
  }

  lemma NewPairsAreOwn(db: Database, id: ReferralId, row: ReferralRow, b: BedId, r: ReferralId)
    requires NoStranded(db) && id !in db.referrals && Pair(InsertReferral(db, id, row), b, r)
    ensures r == id
  {
    if r != id {
      assert Pair(db, b, r);
    }
  }

  lemma AwardedOne(db: Database, a: AllocationResult)
    requires a.bed in db.beds && a.referral in db.referrals
    ensures Awarded(db, [a]) == Reserve(db, a.bed, a.referral)
  {
  }

  /** With no backlog the first award is the new referral's own. */
  lemma FirstAwardIsOwn(db: Database, id: ReferralId, row: ReferralRow, awards: seq<AllocationResult>)
    requires NoStranded(db) && id !in db.referrals && awards != []
    requires SearchRun(InsertReferral(db, id, row), id, awards)
    ensures awards[0].referral == id && awards[0].bed in db.beds
  {
    var start := InsertReferral(db, id, row);
    assert AwardAt(start, id, awards, 0) && awards[..0] == [];
    assert Pair(start, awards[0].bed, awards[0].referral);
    NewPairsAreOwn(db, id, row, awards[0].bed, awards[0].referral);
  }

  /** A search on a database with no backlog awards nothing to anybody else and leaves no
      backlog behind. */
  lemma SubmitStrandsNobody(db: Database, id: ReferralId, row: ReferralRow,
                            side: seq<AllocationResult>, outcome: SubmitOutcome)
    requires NoStranded(db) && id !in db.referrals && row.status == ReferralStatus.Pending
    requires SearchRun(InsertReferral(db, id, row), id, AllAwards(side, outcome))
    requires SearchEnd(InsertReferral(db, id, row), id, side, outcome)
    ensures side == []
    ensures NoStranded(Awarded(InsertReferral(db, id, row), AllAwards(side, outcome)))
  {
    var start, all := InsertReferral(db, id, row), AllAwards(side, outcome);
    assert forall k :: 0 <= k < |side| ==> all[k] == side[k];
    if all != [] {
      FirstAwardIsOwn(db, id, row, all);
    }
    match outcome
    case Matched(a) =>
      assert all == [a];
      AwardedOne(start, a);
      MatchedLeavesNone(db, id, row, a.bed);
    case Pending(_) =>
      assert Awarded(start, all) == start;
      NoCandidateLeavesNone(db, id, row);
  }

  lemma NoCandidateLeavesNone(db: Database, id: ReferralId, row: ReferralRow)
    requires NoStranded(db) && id !in db.referrals
    requires forall b :: !Candidate(InsertReferral(db, id, row), b, row.region, row.needs)
    ensures NoStranded(InsertReferral(db, id, row))
  {
    var start := InsertReferral(db, id, row);
    forall b, r ensures !Pair(start, b, r) {
      if b in start.beds && r in start.referrals {
        FiltersAgree(start.beds[b], start.referrals[r]);
        assert !Candidate(start, b, row.region, row.needs);
        assert r != id && Pair(start, b, r) ==> Pair(db, b, r);
      }
    }
  }

  lemma MatchedLeavesNone(db: Database, id: ReferralId, row: ReferralRow, won: BedId)
    requires NoStranded(db) && id !in db.referrals && won in db.beds
    ensures NoStranded(Reserve(InsertReferral(db, id, row), won, id))
  {
    var end := Reserve(InsertReferral(db, id, row), won, id);
    forall b, r ensures !Pair(end, b, r) {
      assert Pair(end, b, r) ==> Pair(db, b, r);
    }
  }

  /** The one referral an event displaces, if it displaces any. */
  ghost predicate Displaces(db: Database, e: Event, r: ReferralId) {
    !Absorbed(db, e) && FirstReleased(db.reservations, e) == Some(r)
  }

  /** After an event on a database with no backlog, a pair is left exactly when the event
      displaced its referral and the pair's bed is another one, on offer all along. */
  lemma EventStrandsOnlyTheDisplaced(db: Database, e: Event, db': Database,
                                     result: Option<AllocationResult>, b: BedId, r: ReferralId)
    requires Valid(db) && NoStranded(db) && e.bed in db.beds
    requires AllocationSpec(ApplyEvent(db, e).1, e.bed, db', result)
    ensures Pair(db', b, r) <==>
      && Displaces(db, e, r) && (result.Some? ==> result.value.referral != r)
      && b != e.bed && b in db.beds && db.beds[b].status == Available && Suits(db.beds[b], db.referrals[r])
  {
    var mid := ApplyEvent(db, e).1;
    if Displaces(db, e, r) {
      assert exists i :: 0 <= i < |db.reservations| && Touches(db.reservations[i], e)
                         && db.reservations[i].referral == r;
      assert db.referrals[r].status == ReferralStatus.Matched;
      assert mid.referrals[r].status == ReferralStatus.Pending;
      if b in db.beds {
        FiltersAgree(db.beds[b], mid.referrals[r]);
      }
    }
    if Pair(db', b, r) {
      assert Pair(mid, b, r);
      assert b != e.bed;
      assert !Pair(db, b, r);
      FiltersAgree(db.beds[b], mid.referrals[r]);
    }
  }

  // ----- no-shows and holds -----

  /** A held bed reported available goes to somebody at once: its reservation is released, its
      referral is back in line, and whoever gets the bed is not outranked by that referral. */
  lemma ANoShowReopens(db: Database, e: Event, i: int, db': Database, result: Option<AllocationResult>)
    requires Valid(db) && LiveOn(db, i, e.bed) && !Absorbed(db, e) && e.status == Available
    requires AllocationSpec(ApplyEvent(db, e).1, e.bed, db', result)
    ensures ApplyEvent(db, e).0 == Applied(db.beds[e.bed].shelter, true)
    ensures var r, mid := db.reservations[i].referral, ApplyEvent(db, e).1;
      && mid.reservations[i] == ReservationRow(e.bed, r, ReservationStatus.Released)
      && mid.referrals[r] == db.referrals[r].(status := ReferralStatus.Pending)
      && result.Some? && !Outranks(db.referrals[r], db.referrals[result.value.referral])
      && db'.reservations == mid.reservations + [ReservationRow(e.bed, result.value.referral, Active)]
      && db'.beds[e.bed].status == BedStatus.Reserved
  {
    var r, mid := db.reservations[i].referral, ApplyEvent(db, e).1;
    ApplyRowByRow(db, e);
    assert LiveFor(db, i, r);
    FiltersAgree(mid.beds[e.bed], mid.referrals[r]);
    assert Pair(mid, e.bed, r);
  }

  /** A maintenance hold releases the reservation and allocates nothing; once the hold is lifted
      the bed goes to somebody whom the referral does not outrank. */
  lemma AHoldReleases(db: Database, e: Event, i: int, db': Database, result: Option<AllocationResult>)
    requires Valid(db) && LiveOn(db, i, e.bed) && !Absorbed(db, e) && e.status == Maintenance
    requires AllocationSpec(ApplyEvent(db, e).1, e.bed, db', result)
    ensures var r := db.reservations[i].referral;
      && result == None && db'.beds[e.bed].status == Maintenance
      && db'.reservations[i] == ReservationRow(e.bed, r, ReservationStatus.Released)
      && db'.referrals[r] == db.referrals[r].(status := ReferralStatus.Pending)
      && forall lift: Event, after: Database, won: Option<AllocationResult> ::
           lift.bed == e.bed && lift.status == Available && !Absorbed(db', lift)
           && AllocationSpec(ApplyEvent(db', lift).1, lift.bed, after, won) ==>
             won.Some? && !Outranks(db.referrals[r], db.referrals[won.value.referral])
  {
    var r := db.reservations[i].referral;
    ApplyRowByRow(db, e);
    ApplyKeepsValid(db, e);
    assert LiveFor(db, i, r);
    FiltersAgree(db.beds[e.bed], db.referrals[r]);
    forall lift: Event, after: Database, won: Option<AllocationResult> |
      lift.bed == e.bed && lift.status == Available && !Absorbed(db', lift)
      && AllocationSpec(ApplyEvent(db', lift).1, lift.bed, after, won)
      ensures won.Some? && !Outranks(db.referrals[r], db.referrals[won.value.referral])
    {
      LiftedHold(db', lift, r, after, won);
    }
  }

  lemma LiftedHold(db: Database, lift: Event, r: ReferralId, after: Database, won: Option<AllocationResult>)
    requires Valid(db) && Waiting(db, lift.bed, r) && lift.status == Available && !Absorbed(db, lift)
    requires AllocationSpec(ApplyEvent(db, lift).1, lift.bed, after, won)
    ensures won.Some? && !Outranks(db.referrals[r], db.referrals[won.value.referral])
  {
    ApplyRowByRow(db, lift);
    FiltersAgree(db.beds[lift.bed], db.referrals[r]);
    assert Pair(ApplyEvent(db, lift).1, lift.bed, r);
  }

  // ----- which events are safe -----

  /** A displaced referral will not be left beside a bed: no other bed on offer suits it, or its
      own goes back on offer and it outranks everybody waiting for that. */
  ghost predicate SafelyDisplaced(db: Database, e: Event, r: ReferralId)
    requires r in db.referrals
  {
    || (forall b :: b in db.beds && b != e.bed && db.beds[b].status == Available ==>
          !Suits(db.beds[b], db.referrals[r]))
    || (e.status == Available
        && forall x :: Waiting(db, e.bed, x) ==> Outranks(db.referrals[r], db.referrals[x]))
  }

  /** What an event does to the referral it displaces. */
  lemma DisplacedRow(db: Database, e: Event, r: ReferralId)
    requires Valid(db) && e.bed in db.beds && Displaces(db, e, r)
    ensures e.status in {Available, Maintenance}
    ensures r in db.referrals && db.referrals[r].status == ReferralStatus.Matched && Suits(db.beds[e.bed], db.referrals[r])
    ensures ApplyEvent(db, e).1 == Apply(db, e)
    ensures Apply(db, e).referrals == db.referrals[r := db.referrals[r].(status := ReferralStatus.Pending)]
  {
  }

  predicate Top(rows: map<ReferralId, ReferralRow>, s: set<ReferralId>, m: ReferralId)
    requires s <= rows.Keys
  {
    m in s && forall x :: x in s ==> !Outranks(rows[x], rows[m])
  }

  lemma {:induction false} SomeMaximum(rows: map<ReferralId, ReferralRow>, s: set<ReferralId>)
    requires (exists x :: x in s) && s <= rows.Keys
    ensures exists m :: Top(rows, s, m)
    decreases s
  {
    var y :| y in s;
    var rest := s - {y};
    assert forall x :: x in s ==> x == y || x in rest;
    if exists x :: x in rest {
      SomeMaximum(rows, rest);
      var m :| Top(rows, rest, m);
      assert Top(rows, s, if Outranks(rows[y], rows[m]) then y else m);
    } else {
      assert Top(rows, s, y);
    }
  }

  /** Whoever is displaced safely has its bed back or finds no other. */
  lemma SafeIsNotLeft(db: Database, e: Event, db': Database, result: Option<AllocationResult>, b: BedId, r: ReferralId)
    requires Valid(db) && NoStranded(db) && e.bed in db.beds && Displaces(db, e, r)
    requires r in db.referrals && SafelyDisplaced(db, e, r)
    requires AllocationSpec(ApplyEvent(db, e).1, e.bed, db', result)
    ensures !Pair(db', b, r)
  {
    EventStrandsOnlyTheDisplaced(db, e, db', result, b, r);
    DisplacedRow(db, e, r);
    var mid := ApplyEvent(db, e).1;
    FiltersAgree(mid.beds[e.bed], mid.referrals[r]);
    if e.status == Available {
      assert Pair(mid, e.bed, r);
      assert result.value.referral != r ==> Waiting(db, e.bed, result.value.referral);
    }
  }

  /** .. and of any other displaced referral some allowed outcome disposes badly. */
  lemma UnsafeMayBeLeft(db: Database, e: Event, r: ReferralId)
    requires Valid(db) && NoStranded(db) && e.bed in db.beds && Displaces(db, e, r)
    requires r in db.referrals && !SafelyDisplaced(db, e, r)
    ensures exists db', result, b :: AllocationSpec(ApplyEvent(db, e).1, e.bed, db', result) && Pair(db', b, r)
  {
    DisplacedRow(db, e, r);
    var mid := ApplyEvent(db, e).1;
    var b :| b in db.beds && b != e.bed && db.beds[b].status == Available && Suits(db.beds[b], db.referrals[r]);
    if e.status == Available {
      var m := OtherChoice(db, e, r);
      var result := AllocationResult(e.bed, mid.beds[e.bed].shelter, m);
      var db' := Reserve(mid, e.bed, m);
      assert AllocationSpec(mid, e.bed, db', Some(result));
      EventStrandsOnlyTheDisplaced(db, e, db', Some(result), b, r);
    } else {
      assert AllocationSpec(mid, e.bed, mid, None);
      EventStrandsOnlyTheDisplaced(db, e, mid, None, b, r);
    }
  }

  /** Somebody else may win the bed of a referral that does not outrank all who wait for it. */
  lemma OtherChoice(db: Database, e: Event, r: ReferralId) returns (m: ReferralId)
    requires Valid(db) && e.bed in db.beds && Displaces(db, e, r) && r in db.referrals && e.status == Available
    requires exists x :: Waiting(db, e.bed, x) && !Outranks(db.referrals[r], db.referrals[x])
    ensures m != r && Pair(ApplyEvent(db, e).1, e.bed, m) && Best(ApplyEvent(db, e).1, e.bed, m)
  {
    DisplacedRow(db, e, r);
    var y :| Waiting(db, e.bed, y) && !Outranks(db.referrals[r], db.referrals[y]);
    assert y in WaitingFor(db, e.bed);
    SomeMaximum(db.referrals, WaitingFor(db, e.bed));
    m :| Top(db.referrals, WaitingFor(db, e.bed), m);
    var mid := ApplyEvent(db, e).1;
    forall x | Waiting(mid, e.bed, x) ensures !Outranks(mid.referrals[x], mid.referrals[m]) {
      assert x == r || x in WaitingFor(db, e.bed);
    }
  }

  /** Exactly which events leave nobody beside a bed they could have, whatever choice among ties
      the allocation makes: those that displace nobody, or safely. */
  lemma SafeEvents(db: Database, e: Event)
    requires Valid(db) && NoStranded(db) && e.bed in db.beds
    ensures (forall db', result :: AllocationSpec(ApplyEvent(db, e).1, e.bed, db', result) ==> NoStranded(db'))
       <==> (forall r :: Displaces(db, e, r) ==> r in db.referrals && SafelyDisplaced(db, e, r))
  {
    forall r | Displaces(db, e, r)
      ensures r in db.referrals
      ensures !SafelyDisplaced(db, e, r) ==>
        exists db', result :: AllocationSpec(ApplyEvent(db, e).1, e.bed, db', result) && !NoStranded(db')
    {
      DisplacedRow(db, e, r);
      if !SafelyDisplaced(db, e, r) {
        UnsafeMayBeLeft(db, e, r);
      }
    }
    forall db', result, b, r | AllocationSpec(ApplyEvent(db, e).1, e.bed, db', result) && Pair(db', b, r)
      ensures Displaces(db, e, r) && !SafelyDisplaced(db, e, r)
    {
      EventStrandsOnlyTheDisplaced(db, e, db', result, b, r);
      DisplacedRow(db, e, r);
      if SafelyDisplaced(db, e, r) {
        SafeIsNotLeft(db, e, db', result, b, r);
      }
    }
  }

  /** The gap the code leaves open: a maintenance hold re-pends a referral and only the held
      bed is tried, so it waits beside a free bed that suits it. */
  lemma AStrandedReferral()
    ensures exists db: Database, e: Event, b: BedId, r: ReferralId ::
      && Valid(db) && Coupled(db) && NoStranded(db) && e.bed in db.beds && !Absorbed(db, e)
      && AllocationSpec(ApplyEvent(db, e).1, e.bed, ApplyEvent(db, e).1, None)
      && Pair(ApplyEvent(db, e).1, b, r)
  {
    var attrs := BedAttributes(General, false, false, false);
    var needs := ReferralNeeds(General, false, false, false);
    var held := BedRow(0, "north", attrs, BedStatus.Reserved, 0);
    var spare := BedRow(0, "north", attrs, Available, 0);
    var row := ReferralRow("north", needs, 50, 0, ReferralStatus.Matched);
    var db := Database(map[1 := held, 2 := spare], map[7 := row], [ReservationRow(1, 7, Active)], map[]);
    var e := Event(9, 1, Maintenance, 1);
    assert LiveFor(db, 0, 7);
    assert ActiveOn(db, 0, 1);
    assert Valid(db) && Coupled(db) && NoStranded(db);
    assert Touches(db.reservations[0], e);
    ReleasedIsHolder(db, e);
    var mid := ApplyEvent(db, e).1;
    assert mid.referrals[7].status == ReferralStatus.Pending;
    assert Pair(mid, 2, 7);
    assert mid.beds[1].status == Maintenance;
    assert AllocationSpec(mid, e.bed, mid, None);
  }
}
