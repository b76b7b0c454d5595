/** What the release of a reservation is for: the event transaction as it would be without it,
    and exactly when that would do. */
module Release {
  import opened Domain
  import opened Store

  /** The event transaction with the check-in but without the release and what follows it. */
  function ApplyWithoutRelease(db: Database, e: Event): Database
    requires e.bed in db.beds
  {
    if e.status == Occupied then Apply(db, e)
    else db.(beds := db.beds[e.bed := db.beds[e.bed].(status := e.status, lastSeq := e.seqNo)],
             ledger := db.ledger[e.id := e.bed])
  }

  /** What the two partial unique indexes say by themselves. */
  ghost predicate NoTwoActive(db: Database) {
    forall i, j | 0 <= i < |db.reservations| && 0 <= j < |db.reservations| && i != j
      && db.reservations[i].status == Active && db.reservations[j].status == Active ::
      && db.reservations[i].bed != db.reservations[j].bed
      && db.reservations[i].referral != db.reservations[j].referral
  }

  /** With or without the release no bed and no referral gets two active rows: an insertion
      keeps it so exactly when the indexes let it pass. */
  lemma IndexesGuardActive(db: Database, e: Event, b: BedId, r: ReferralId)
    requires NoTwoActive(db) && e.bed in db.beds && b in db.beds && r in db.referrals
    ensures NoTwoActive(ApplyWithoutRelease(db, e))
    ensures NoTwoActive(Reserve(db, b, r)) <==> !IndexConflict(db, b, r)
  {
    var db' := Reserve(db, b, r);
    assert db'.reservations[|db.reservations|] == ReservationRow(b, r, Active);
    forall i | 0 <= i < |db.reservations| && db.reservations[i].status == Active
               && (db.reservations[i].bed == b || db.reservations[i].referral == r)
      ensures !NoTwoActive(db')
    {
      assert db'.reservations[i] == db.reservations[i];
    }
  }

  lemma ReleaseWithNobody(db: Database, e: Event)
    requires e.bed in db.beds && e.status != Occupied
    requires e.status in {Available, Maintenance} ==> forall i :: !LiveOn(db, i, e.bed)
    ensures ApplyWithoutRelease(db, e) == Apply(db, e)
  {
    forall i | 0 <= i < |db.reservations| ensures !Touches(db.reservations[i], e) {
      assert Touches(db.reservations[i], e) ==> LiveOn(db, i, e.bed);
    }
    assert Apply(db, e).reservations == db.reservations;
  }

  lemma HolderNotReleased(db: Database, e: Event, i: int)
    requires Valid(db) && e.bed in db.beds && e.status in {Available, Maintenance} && LiveOn(db, i, e.bed)
    ensures !Valid(ApplyWithoutRelease(db, e)) && ApplyWithoutRelease(db, e) != Apply(db, e)
  {
    assert ApplyWithoutRelease(db, e).reservations[i] == db.reservations[i];
    assert Apply(db, e).reservations[i] == Settled(db.reservations[i], e);
  }

  /** Exactly when the release can be left out of one event: if and only if the event does not
      put a bed that somebody holds back on offer or into maintenance; it then has no effect. */
  lemma ReleaseIsNeeded(db: Database, e: Event)
    requires Valid(db) && e.bed in db.beds
    ensures Valid(ApplyWithoutRelease(db, e))
       <==> (e.status in {Available, Maintenance} ==> forall i :: !LiveOn(db, i, e.bed))
    ensures ApplyWithoutRelease(db, e) == Apply(db, e)
       <==> (e.status in {Available, Maintenance} ==> forall i :: !LiveOn(db, i, e.bed))
  {
    ApplyKeepsValid(db, e);
    if e.status in {Available, Maintenance} && exists i :: LiveOn(db, i, e.bed) {
      var i :| LiveOn(db, i, e.bed);
      HolderNotReleased(db, e, i);
    } else if e.status != Occupied {
      ReleaseWithNobody(db, e);
    }
  }

  /** After a report of `available` without the release, the next reservation of a bed that is
      held is a second live one; the indexes stop it if and only if the first is still active. */
  lemma NextReserve(db: Database, e: Event, i: int, r: ReferralId)
    requires Valid(db) && e.bed in db.beds && e.status == Available && LiveOn(db, i, e.bed)
    requires Pair(ApplyWithoutRelease(db, e), e.bed, r)
    ensures IndexConflict(ApplyWithoutRelease(db, e), e.bed, r) <==> db.reservations[i].status == Active
    ensures !NoDoubleBooking(Reserve(ApplyWithoutRelease(db, e), e.bed, r))
  {
    var db' := Reserve(ApplyWithoutRelease(db, e), e.bed, r);
    var n := |db.reservations|;
    assert db'.reservations[i] == db.reservations[i] && db'.reservations[n] == ReservationRow(e.bed, r, Active);
  }

  /** Exactly when the indexes alone keep the next allocation from booking the bed twice: if and
      only if the event does not report available a bed with a checked-in reservation for which
      somebody is waiting. */
  lemma IndexesSuffice(db: Database, e: Event)
    requires Valid(db) && e.bed in db.beds
    ensures (forall r :: Pair(ApplyWithoutRelease(db, e), e.bed, r)
                         && !IndexConflict(ApplyWithoutRelease(db, e), e.bed, r) ==>
                           NoDoubleBooking(Reserve(ApplyWithoutRelease(db, e), e.bed, r)))
       <==> !(e.status == Available
              && (exists i :: LiveOn(db, i, e.bed) && db.reservations[i].status == CheckedIn)
              && (exists r :: Waiting(db, e.bed, r)))
  {
    var mid := ApplyWithoutRelease(db, e);
    forall r | Pair(mid, e.bed, r) && !IndexConflict(mid, e.bed, r)
      ensures e.status == Available && Waiting(db, e.bed, r)
      ensures (forall i :: !LiveOn(db, i, e.bed)) ==> NoDoubleBooking(Reserve(mid, e.bed, r))
      ensures forall i :: LiveOn(db, i, e.bed) ==>
        db.reservations[i].status == CheckedIn && !NoDoubleBooking(Reserve(mid, e.bed, r))
    {
      forall i | LiveOn(db, i, e.bed)
        ensures db.reservations[i].status == CheckedIn && !NoDoubleBooking(Reserve(mid, e.bed, r))
      {
        NextReserve(db, e, i, r);
      }
      if forall i :: !LiveOn(db, i, e.bed) {
        ReleaseIsNeeded(db, e);
        ReserveKeepsValid(mid, e.bed, r);
      }
    }
    forall i, r | e.status == Available && LiveOn(db, i, e.bed) && db.reservations[i].status == CheckedIn
                  && Waiting(db, e.bed, r)
      ensures Pair(mid, e.bed, r) && !IndexConflict(mid, e.bed, r)
      ensures !NoDoubleBooking(Reserve(mid, e.bed, r))
    {
      assert Pair(mid, e.bed, r);
      NextReserve(db, e, i, r);
    }
  }

  /** One occupied bed, its guest and one who waits: with the release left out, a report that
      the bed is free lets it be booked twice past both indexes. */
  lemma BookedTwiceWithoutRelease()
    ensures exists db: Database, e: Event, r: ReferralId ::
      && Valid(db) && Coupled(db) && e.bed in db.beds && !Absorbed(db, e)
      && var mid := ApplyWithoutRelease(db, e);
         && Pair(mid, e.bed, r) && !IndexConflict(mid, e.bed, r)
         && !NoDoubleBooking(Reserve(mid, e.bed, r))
  {
    var needs := ReferralNeeds(General, false, false, false);
    var bed := BedRow(0, "north", BedAttributes(General, false, false, false), Occupied, 1);
    var guest := ReferralRow("north", needs, 50, 0, ReferralStatus.Matched);
    var next := ReferralRow("north", needs, 40, 1, ReferralStatus.Pending);
    var db := Database(map[1 := bed], map[7 := guest, 8 := next], [ReservationRow(1, 7, CheckedIn)], map[]);
    var e := Event(9, 1, Available, 2);
    assert LiveFor(db, 0, 7) && LiveOn(db, 0, 1);
    assert Valid(db) && Coupled(db);
    assert Pair(ApplyWithoutRelease(db, e), 1, 8);
    NextReserve(db, e, 0, 8);
  }
}
