/** The database and its transactions, as functions on committed states.  Shelters are
    never written, so the shelter and region of a bed are columns of its row here. */
module Store {
  import opened Domain

  datatype BedRow = BedRow(
    shelter: ShelterId, region: Region, attrs: BedAttributes, status: BedStatus, lastSeq: int)

  datatype ReferralRow = ReferralRow(
    region: Region, needs: ReferralNeeds, score: int, createdAt: int, status: ReferralStatus)

  datatype ReservationRow = ReservationRow(bed: BedId, referral: ReferralId, status: ReservationStatus)

  /** A reservation's id is its position: rows are only ever appended and updated. */
  datatype Database = Database(
    beds: map<BedId, BedRow>,
    referrals: map<ReferralId, ReferralRow>,
    reservations: seq<ReservationRow>,
    ledger: map<EventId, BedId>)

  // ----- the queries -----

  /** The bed-side search filter, clause by clause as the SQL has it. */
  predicate CandidateFilter(bed: BedRow, region: Region, needs: ReferralNeeds) {
    && bed.status == Available
    && bed.region == region
    && bed.attrs.unitType == needs.unitTypeRequired
    && (bed.attrs.allowsPets || !needs.needsPetFriendly)
    && (!bed.attrs.sobrietyRequired || !needs.needsSobrietyFree)
    && (bed.attrs.adaAccessible || !needs.needsAdaAccessible)
  }

  /** The referral-side allocation filter, clause by clause as the SQL has it. */
  predicate AllocationFilter(bed: BedRow, referral: ReferralRow) {
    && referral.region == bed.region
    && referral.status == Pending
    && referral.needs.unitTypeRequired == bed.attrs.unitType
    && (!referral.needs.needsPetFriendly || bed.attrs.allowsPets)
    && (!referral.needs.needsSobrietyFree || !bed.attrs.sobrietyRequired)
    && (!referral.needs.needsAdaAccessible || bed.attrs.adaAccessible)
  }

  /** ORDER BY vulnerability_score DESC, created_at ASC: `a` comes strictly before `b`. */
  predicate Outranks(a: ReferralRow, b: ReferralRow) {
    a.score > b.score || (a.score == b.score && a.createdAt < b.createdAt)
  }

  /** Same region, and the eligibility predicate accepts the two. */
  predicate Suits(bed: BedRow, referral: ReferralRow) {
    bed.region == referral.region && IsEligible(bed.attrs, referral.needs)
  }

  /** `r` is one of the rows the allocation query on bed `b` ranges over. */
  predicate Waiting(db: Database, b: BedId, r: ReferralId) {
    b in db.beds && r in db.referrals && AllocationFilter(db.beds[b], db.referrals[r])
  }

  /** A match that could be made now: `b` is available and `r` is waiting for it. */
  predicate Pair(db: Database, b: BedId, r: ReferralId) {
    Waiting(db, b, r) && db.beds[b].status == Available
  }

  /** Both SQL filters select exactly the pairs the eligibility predicate accepts. */
  lemma FiltersAgree(bed: BedRow, referral: ReferralRow)
    ensures CandidateFilter(bed, referral.region, referral.needs)
        <==> bed.status == Available && bed.region == referral.region && IsEligible(bed.attrs, referral.needs)
    ensures AllocationFilter(bed, referral)
        <==> referral.status == Pending && bed.region == referral.region && IsEligible(bed.attrs, referral.needs)
    ensures Suits(bed, referral) <==> bed.region == referral.region && IsEligible(bed.attrs, referral.needs)
  {
  }

  /** The rank order: whoever is more vulnerable comes first whatever the time, whoever came
      earlier comes first among equals; two rows are tied only if they agree in both. */
  lemma RankOrder(a: ReferralRow, b: ReferralRow, c: ReferralRow)
    ensures a.score > b.score ==> Outranks(a, b) && !Outranks(b, a)
    ensures a.score == b.score && a.createdAt < b.createdAt ==> Outranks(a, b) && !Outranks(b, a)
    ensures !Outranks(a, b) && !Outranks(b, a) <==> a.score == b.score && a.createdAt == b.createdAt
    ensures Outranks(a, b) ==> Outranks(a, c) || Outranks(c, b)
  {
  }

  // ----- the invariant -----

  ghost predicate LiveOn(db: Database, i: int, b: BedId) {
    0 <= i < |db.reservations| && db.reservations[i].bed == b && Live(db.reservations[i].status)
  }

  ghost predicate LiveFor(db: Database, i: int, r: ReferralId) {
    0 <= i < |db.reservations| && db.reservations[i].referral == r && Live(db.reservations[i].status)
  }

  ghost predicate ActiveOn(db: Database, i: int, b: BedId) {
    0 <= i < |db.reservations| && db.reservations[i].bed == b && db.reservations[i].status == Active
  }

  /** Every reservation ever made, live or not, joins an existing bed and referral of one
      region that suit each other. */
  ghost predicate ReservationsFit(db: Database) {
    forall i :: 0 <= i < |db.reservations| ==>
      && db.reservations[i].bed in db.beds
      && db.reservations[i].referral in db.referrals
      && Suits(db.beds[db.reservations[i].bed], db.referrals[db.reservations[i].referral])
  }

  /** No bed and no referral is in two live reservations. */
  ghost predicate NoDoubleBooking(db: Database) {
    forall i, j | 0 <= i < |db.reservations| && 0 <= j < |db.reservations| && i != j
      && Live(db.reservations[i].status) && Live(db.reservations[j].status) ::
      && db.reservations[i].bed != db.reservations[j].bed
      && db.reservations[i].referral != db.reservations[j].referral
  }

  /** Beds on offer or under maintenance are held by nobody, and whoever holds a bed is
      recorded as matched. */
  ghost predicate LiveRowsAgree(db: Database)
    requires ReservationsFit(db)
  {
    forall i :: 0 <= i < |db.reservations| && Live(db.reservations[i].status) ==>
      && db.beds[db.reservations[i].bed].status in {Reserved, Occupied}
      && db.referrals[db.reservations[i].referral].status == Matched
  }

  ghost predicate MatchedAreHeld(db: Database) {
    forall r :: r in db.referrals && db.referrals[r].status == Matched ==> exists i :: LiveFor(db, i, r)
  }

  ghost predicate Valid(db: Database) {
    && ReservationsFit(db)
    && NoDoubleBooking(db)
    && LiveRowsAgree(db)
    && MatchedAreHeld(db)
  }

  /** An active row that a partial unique index sets against a new one for `b` and `r`. */
  ghost predicate IndexConflict(db: Database, b: BedId, r: ReferralId) {
    exists i :: 0 <= i < |db.reservations| && db.reservations[i].status == Active
                && (db.reservations[i].bed == b || db.reservations[i].referral == r)
  }

  /** What the intake gate adds: `reserved` means an active reservation, and the other way
      round; a checked-in reservation is on an occupied bed. */
  ghost predicate Coupled(db: Database)
    requires ReservationsFit(db)
  {
    && (forall i :: 0 <= i < |db.reservations| && Live(db.reservations[i].status) ==>
          db.beds[db.reservations[i].bed].status
          == if db.reservations[i].status == Active then Reserved else Occupied)
    && (forall b :: b in db.beds && db.beds[b].status == Reserved ==> exists i :: ActiveOn(db, i, b))
  }

  // ----- the transactions -----

  function InsertReferral(db: Database, r: ReferralId, row: ReferralRow): Database {
    db.(referrals := db.referrals[r := row])
  }

  /** The three writes of a successful allocation. */
  function Reserve(db: Database, b: BedId, r: ReferralId): Database
    requires b in db.beds && r in db.referrals
  {
    Database(db.beds[b := db.beds[b].(status := BedStatus.Reserved)],
             db.referrals[r := db.referrals[r].(status := Matched)],
             db.reservations + [ReservationRow(b, r, Active)],
             db.ledger)
  }

  /** Whether the event transaction's UPDATE on `reservations` hits this row. */
  predicate Touches(row: ReservationRow, e: Event) {
    && row.bed == e.bed
    && match e.status
       case Occupied => row.status == Active
       case Available => Live(row.status)
       case Maintenance => Live(row.status)
       case Reserved => false
  }

  function Settled(row: ReservationRow, e: Event): ReservationRow {
    if Touches(row, e) then row.(status := if e.status == Occupied then CheckedIn else Released) else row
  }

  function Settle(rows: seq<ReservationRow>, e: Event): (out: seq<ReservationRow>)
    ensures |out| == |rows|
    ensures forall i :: 0 <= i < |rows| ==> out[i] == Settled(rows[i], e)
  {
    seq(|rows|, i requires 0 <= i < |rows| => Settled(rows[i], e))
  }

  /** The first row that RETURNING hands back, when the statement releases. */
  function FirstReleased(rows: seq<ReservationRow>, e: Event): (first: Option<ReferralId>)
    ensures first.Some? ==> e.status in {Available, Maintenance}
    ensures first.Some? ==> exists i :: 0 <= i < |rows| && Touches(rows[i], e) && rows[i].referral == first.value
    ensures first.None? && e.status in {Available, Maintenance} ==>
              forall i :: 0 <= i < |rows| ==> !Touches(rows[i], e)
  {
    if rows == [] || e.status !in {Available, Maintenance} then None
    else if Touches(rows[0], e) then Some(rows[0].referral)
    else
      var rest := FirstReleased(rows[1..], e);
      assert rest.None? ==> forall i :: 1 <= i < |rows| ==> rows[i] == rows[1..][i - 1];
      rest
  }

  /** Puts a released referral back in line, if it is still recorded as matched. */
  function Repend(referrals: map<ReferralId, ReferralRow>, who: Option<ReferralId>)
    : map<ReferralId, ReferralRow>
  {
    if who.Some? && who.value in referrals && referrals[who.value].status == Matched
    then referrals[who.value := referrals[who.value].(status := Pending)]
    else referrals
  }

  /** What an event that is neither duplicate, stale nor for an unknown bed commits. */
  function Apply(db: Database, e: Event): Database
    requires e.bed in db.beds
  {
    Database(db.beds[e.bed := db.beds[e.bed].(status := e.status, lastSeq := e.seqNo)],
             Repend(db.referrals, FirstReleased(db.reservations, e)),
             Settle(db.reservations, e),
             db.ledger[e.id := e.bed])
  }

  datatype ApplyOutcome =
    | Applied(shelter: ShelterId, becameAvailable: bool)
    | Duplicate
    | Stale
    | UnknownBed

  function ApplyEvent(db: Database, e: Event): (ApplyOutcome, Database) {
    if e.id in db.ledger then (Duplicate, db)
    else if e.bed !in db.beds then (UnknownBed, db)
    else if e.seqNo <= db.beds[e.bed].lastSeq then (Stale, db)
    else
      var bed := db.beds[e.bed];
      (Applied(bed.shelter, e.status == Available && bed.status != Available), Apply(db, e))
  }

  /** Processing `e` again would change nothing. */
  predicate Absorbed(db: Database, e: Event) {
    e.id in db.ledger || e.bed !in db.beds || e.seqNo <= db.beds[e.bed].lastSeq
  }

  // ----- the committed changes -----

  /** Everything a transaction can do to the committed database. */
  datatype Change =
    | Nothing
    | Insertion(r: ReferralId, row: ReferralRow)
    | Allocation(b: BedId, r: ReferralId)
    | Application(e: Event)

  ghost predicate Atomic(db: Database, db': Database, c: Change) {
    match c
    case Nothing => db' == db
    case Insertion(r, row) => r !in db.referrals && row.status == Pending && db' == InsertReferral(db, r, row)
    case Allocation(b, r) => Pair(db, b, r) && db' == Reserve(db, b, r)
    case Application(e) => !Absorbed(db, e) && db' == Apply(db, e)
  }

  /** What every later state keeps of an earlier one. */
  ghost predicate Evolves(db: Database, db': Database) {
    && db'.beds.Keys == db.beds.Keys
    && (forall b :: b in db.beds ==>
          && db'.beds[b].region == db.beds[b].region && db'.beds[b].attrs == db.beds[b].attrs
          && db'.beds[b].shelter == db.beds[b].shelter && db.beds[b].lastSeq <= db'.beds[b].lastSeq)
    && (forall r :: r in db.referrals ==>
          r in db'.referrals && db'.referrals[r].(status := db.referrals[r].status) == db.referrals[r])
    && |db.reservations| <= |db'.reservations|
    && (forall i :: 0 <= i < |db.reservations| ==>
          && db'.reservations[i].bed == db.reservations[i].bed
          && db'.reservations[i].referral == db.reservations[i].referral
          && (Live(db'.reservations[i].status) ==> Live(db.reservations[i].status)))
    && db.ledger.Keys <= db'.ledger.Keys
  }

  lemma InsertKeepsValid(db: Database, r: ReferralId, row: ReferralRow)
    requires Valid(db) && r !in db.referrals && row.status == Pending
    ensures Valid(InsertReferral(db, r, row))
  {
    var db' := InsertReferral(db, r, row);
    forall x | x in db'.referrals && db'.referrals[x].status == Matched
      ensures exists i :: LiveFor(db', i, x)
    {
      var i :| LiveFor(db, i, x);
      assert LiveFor(db', i, x);
    }
  }

  lemma ReserveKeepsValid(db: Database, b: BedId, r: ReferralId)
    requires Valid(db) && Pair(db, b, r)
    ensures Valid(Reserve(db, b, r))
  {
    var db' := Reserve(db, b, r);
    FiltersAgree(db.beds[b], db.referrals[r]);
    assert ReservationsFit(db');
    forall x | x in db'.referrals && db'.referrals[x].status == Matched
      ensures exists i :: LiveFor(db', i, x)
    {
      if x == r {
        assert LiveFor(db', |db.reservations|, x);
      } else {
        var i :| LiveFor(db, i, x);
        assert LiveFor(db', i, x);
      }
    }
  }

  /** When a statement releases, the referral it re-pends is the one holder of the bed. */
  lemma ReleasedIsHolder(db: Database, e: Event)
    requires Valid(db) && e.status in {Available, Maintenance}
    ensures forall i :: 0 <= i < |db.reservations| && Touches(db.reservations[i], e) ==>
              FirstReleased(db.reservations, e) == Some(db.reservations[i].referral)
  {
  }

  /** What an applied event writes, row by row: its bed takes the reported status and number;
      an occupied bed's active reservation is checked in; the live reservation of a bed reported
      available or under maintenance is released and its referral pending again. */
  lemma ApplyRowByRow(db: Database, e: Event)
    requires Valid(db) && e.bed in db.beds
    ensures var was := db.beds[e.bed];
      && Apply(db, e).beds == db.beds[e.bed := BedRow(was.shelter, was.region, was.attrs, e.status, e.seqNo)]
      && Apply(db, e).ledger == db.ledger[e.id := e.bed]
    ensures |Apply(db, e).reservations| == |db.reservations|
    ensures forall i :: 0 <= i < |db.reservations| ==>
      var was := db.reservations[i];
      Apply(db, e).reservations[i] == ReservationRow(was.bed, was.referral,
        if was.bed != e.bed || was.status !in {Active, CheckedIn} then was.status
        else if e.status in {Available, Maintenance} then ReservationStatus.Released
        else if e.status == Occupied then CheckedIn
        else was.status)
    ensures Apply(db, e).referrals.Keys == db.referrals.Keys
    ensures forall r :: r in db.referrals ==>
      Apply(db, e).referrals[r] == db.referrals[r].(status :=
        if e.status in {Available, Maintenance} && exists i :: LiveOn(db, i, e.bed) && LiveFor(db, i, r)
        then Pending else db.referrals[r].status)
  {
    ApplyReferrals(db, e);
  }

  lemma ApplyReferrals(db: Database, e: Event)
    requires Valid(db) && e.bed in db.beds
    ensures Apply(db, e).referrals.Keys == db.referrals.Keys
    ensures forall r :: r in db.referrals ==>
      Apply(db, e).referrals[r] == db.referrals[r].(status :=
        if e.status in {Available, Maintenance} && exists i :: LiveOn(db, i, e.bed) && LiveFor(db, i, r)
        then Pending else db.referrals[r].status)
  {
    forall i, r | LiveOn(db, i, e.bed) && LiveFor(db, i, r) && e.status in {Available, Maintenance}
      ensures FirstReleased(db.reservations, e) == Some(r)
    {
      ReleasedIsHolder(db, e);
    }
    var first := FirstReleased(db.reservations, e);
    if first.Some? {
      var i :| 0 <= i < |db.reservations| && Touches(db.reservations[i], e)
               && db.reservations[i].referral == first.value;
      assert LiveOn(db, i, e.bed) && LiveFor(db, i, first.value);
    }
  }

  lemma ApplyKeepsFit(db: Database, e: Event)
    requires Valid(db) && e.bed in db.beds
    ensures ReservationsFit(Apply(db, e)) && NoDoubleBooking(Apply(db, e))
  {
  }

  lemma ApplyKeepsHeld(db: Database, e: Event)
    requires Valid(db) && e.bed in db.beds
    ensures MatchedAreHeld(Apply(db, e))
  {
    var db' := Apply(db, e);
    if e.status in {Available, Maintenance} {
      ReleasedIsHolder(db, e);
    }
    forall x | x in db'.referrals && db'.referrals[x].status == Matched
      ensures exists i :: LiveFor(db', i, x)
    {
      var i :| LiveFor(db, i, x);
      assert LiveFor(db', i, x);
    }
  }

  lemma ApplyKeepsValid(db: Database, e: Event)
    requires Valid(db) && e.bed in db.beds
    ensures Valid(Apply(db, e))
  {
    var db' := Apply(db, e);
    ApplyKeepsFit(db, e);
    ApplyKeepsHeld(db, e);
    forall i | 0 <= i < |db'.reservations| && Live(db'.reservations[i].status)
      ensures db'.beds[db'.reservations[i].bed].status in {Reserved, Occupied}
      ensures db'.referrals[db'.reservations[i].referral].status == Matched
    {
      assert Live(db.reservations[i].status);
    }
  }

  /** Every committed change keeps the invariant, whatever the event reports. */
  lemma AtomicKeepsValid(db: Database, db': Database, c: Change)
    requires Valid(db) && Atomic(db, db', c)
    ensures Valid(db')
  {
    match c
    case Nothing =>
    case Insertion(r, row) => InsertKeepsValid(db, r, row);
    case Allocation(b, r) => ReserveKeepsValid(db, b, r);
    case Application(e) => ApplyKeepsValid(db, e);
  }

  lemma AtomicEvolves(db: Database, db': Database, c: Change)
    requires Atomic(db, db', c)
    ensures Evolves(db, db')
  {
  }

  lemma EvolvesTransitive(a: Database, b: Database, c: Database)
    requires Evolves(a, b) && Evolves(b, c)
    ensures Evolves(a, c)
  {
  }

  /** Reads that expect one row get at most one: a bed and a referral have at most one live
      reservation, and neither is on offer or waiting meanwhile. */
  lemma AtMostOneRow(db: Database)
    requires Valid(db)
    ensures forall i, j, b :: LiveOn(db, i, b) && LiveOn(db, j, b) ==> i == j
    ensures forall i, j, r :: LiveFor(db, i, r) && LiveFor(db, j, r) ==> i == j
    ensures forall i, b :: LiveOn(db, i, b) ==> b in db.beds && db.beds[b].status in {Reserved, Occupied}
    ensures forall i, r :: LiveFor(db, i, r) ==> r in db.referrals && db.referrals[r].status == Matched
  {
  }
}
