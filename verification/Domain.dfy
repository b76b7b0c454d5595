/** The domain types of the matching network: unit types and statuses, the fixed
    attributes of a bed, the needs of a referral, and the pure eligibility test. */
module Domain {

  datatype Option<+T> = None | Some(value: T)

  type BedId = int
  type ShelterId = int
  type ReferralId = int
  type EventId = int
  type Region = string

  datatype UnitType = General | Family | WomensOnly | MensOnly | Youth

  datatype BedStatus = Available | Reserved | Occupied | Maintenance

  datatype ReferralStatus = Pending | Matched | Expired | Cancelled

  datatype ReservationStatus = Active | CheckedIn | Released | Cancelled

  datatype BedAttributes = BedAttributes(
    unitType: UnitType,
    allowsPets: bool,
    sobrietyRequired: bool,
    adaAccessible: bool)

  datatype ReferralNeeds = ReferralNeeds(
    unitTypeRequired: UnitType,
    needsPetFriendly: bool,
    needsSobrietyFree: bool,
    needsAdaAccessible: bool)

  /** The hard constraints only; vulnerability decides priority, not eligibility. */
  predicate IsEligible(bed: BedAttributes, referral: ReferralNeeds) {
    if bed.unitType != referral.unitTypeRequired then false
    else if referral.needsPetFriendly && !bed.allowsPets then false
    else if referral.needsSobrietyFree && bed.sobrietyRequired then false
    else if referral.needsAdaAccessible && !bed.adaAccessible then false
    else true
  }

  /** A bed and a referral are kept apart by four things and by nothing else: the unit type, a
      pet where none are allowed, a need to be free of sobriety rules where there are some, and
      a need for an accessible bed where there is none. */
  lemma EligibleUnlessRefused(bed: BedAttributes, need: ReferralNeeds)
    ensures bed.unitType != need.unitTypeRequired ==> !IsEligible(bed, need)
    ensures !IsEligible(bed.(allowsPets := false), need.(needsPetFriendly := true))
    ensures !IsEligible(bed.(sobrietyRequired := true), need.(needsSobrietyFree := true))
    ensures !IsEligible(bed.(adaAccessible := false), need.(needsAdaAccessible := true))
    ensures IsEligible(BedAttributes(need.unitTypeRequired, true, false, true), need)
    ensures IsEligible(bed, ReferralNeeds(bed.unitType, false, false, false))
    ensures IsEligible(bed, need) <==>
      && IsEligible(bed, ReferralNeeds(need.unitTypeRequired, need.needsPetFriendly, false, false))
      && IsEligible(bed, ReferralNeeds(need.unitTypeRequired, false, need.needsSobrietyFree, false))
      && IsEligible(bed, ReferralNeeds(need.unitTypeRequired, false, false, need.needsAdaAccessible))
    ensures need.needsPetFriendly && bed.allowsPets ==>
      (IsEligible(bed, need) <==> IsEligible(bed, need.(needsPetFriendly := false)))
    ensures need.needsSobrietyFree && !bed.sobrietyRequired ==>
      (IsEligible(bed, need) <==> IsEligible(bed, need.(needsSobrietyFree := false)))
    ensures need.needsAdaAccessible && bed.adaAccessible ==>
      (IsEligible(bed, need) <==> IsEligible(bed, need.(needsAdaAccessible := false)))
  {
  }

  /** A reservation that still holds its bed. */
  predicate Live(status: ReservationStatus) {
    status == Active || status == CheckedIn
  }

  /** What the intake terminals would say of a bed: `reserved` is a state only the
      allocator assigns, to a bed last reported available. */
  function Reported(status: BedStatus): BedStatus {
    if status == Reserved then Available else status
  }

  /** A bed last reported as `report` may have this status: the same one, or `reserved` since it
      was allocated; and a report of `reserved` reads as one of `available`. */
  predicate Shows(status: BedStatus, report: BedStatus) {
    status == report || (status in {Available, Reserved} && report in {Available, Reserved})
  }

  /** The two notions agree. */
  lemma SameReport(s: BedStatus, t: BedStatus)
    ensures Reported(s) == Reported(t) <==> Shows(s, t)
  {
  }

  /** A bed-status event as the consumer sees it once its ids have been parsed. */
  datatype Event = Event(id: EventId, bed: BedId, status: BedStatus, seqNo: int)

  /** A log entry; one whose payload or ids cannot be parsed is `Malformed`. */
  datatype Record = Malformed | Status(event: Event)
}
