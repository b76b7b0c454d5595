/** The intake gate in front of the log, and what it guarantees about every reachable
    database: bed statuses, reservations and referrals stay coupled and their counts agree. */
module Intake {
  import opened Domain
  import opened Store
  import opened Coupling
  import opened Machine
  import opened Locking
  import opened Offsets
  import opened Registers

  datatype ProtoStatus = Unspecified | SaysAvailable | SaysReserved | SaysOccupied | SaysMaintenance

  /** An id as sent: absent, present but not a UUID, or a UUID. */
  datatype IdText = Empty | Unparseable | Uuid(value: int)

  datatype RawEvent = RawEvent(
    eventId: IdText, shelterId: IdText, bedId: IdText, status: ProtoStatus, seqNo: int)

  datatype Response = Accepted | InvalidArgument

  /** What the terminal is told, and the payload that is published if any. */
  function SubmitBedStatus(request: Option<RawEvent>): (Response, Option<RawEvent>) {
    match request
    case None => (InvalidArgument, None)
    case Some(event) =>
      if event.eventId == Empty || event.shelterId == Empty || event.bedId == Empty then (InvalidArgument, None)
      else match event.status
           case SaysAvailable => (Accepted, Some(event))
           case SaysOccupied => (Accepted, Some(event))
           case SaysMaintenance => (Accepted, Some(event))
           case Unspecified => (InvalidArgument, None)
           case SaysReserved => (InvalidArgument, None)
  }

  /** The conversion on the consumer's side; an unset status would read as available. */
  function FromProto(status: ProtoStatus): BedStatus {
    match status
    case SaysReserved => BedStatus.Reserved
    case SaysOccupied => Occupied
    case SaysMaintenance => Maintenance
    case SaysAvailable => Available
    case Unspecified => Available
  }

  function ToProto(status: BedStatus): ProtoStatus {
    match status
    case Available => SaysAvailable
    case Reserved => SaysReserved
    case Occupied => SaysOccupied
    case Maintenance => SaysMaintenance
  }

  /** The two conversions, status by status: each undoes the other, and only the unset wire
      status has no counterpart. */
  lemma WireStatuses(sent: ProtoStatus, st: BedStatus)
    ensures FromProto(SaysAvailable) == Available && FromProto(SaysReserved) == BedStatus.Reserved
    ensures FromProto(SaysOccupied) == Occupied && FromProto(SaysMaintenance) == Maintenance
    ensures FromProto(Unspecified) == Available
    ensures FromProto(ToProto(st)) == st
    ensures ToProto(FromProto(sent)) == sent <==> sent != Unspecified
  {
  }

  function Decode(raw: RawEvent): Record {
    if raw.eventId.Uuid? && raw.bedId.Uuid?
    then Status(Event(raw.eventId.value, raw.bedId.value, FromProto(raw.status), raw.seqNo))
    else Malformed
  }

  /** The gate lets through, unchanged, exactly the events with all three ids whose status is
      the wire form of a bed status other than `reserved`: an unset one never reaches the
      conversion that would read it as available.  What comes out at the consumer is malformed
      if and only if an id does not parse, and otherwise says exactly what was sent. */
  lemma GateIsExact(event: RawEvent)
    ensures var (response, published) := SubmitBedStatus(Some(event));
      && (response == Accepted <==> published == Some(event))
      && (response == InvalidArgument <==> published == None)
      && (response == Accepted <==>
            && Empty !in {event.eventId, event.shelterId, event.bedId}
            && exists st: BedStatus :: st != BedStatus.Reserved && ToProto(st) == event.status)
      && (response == Accepted <==>
            && Empty !in {event.eventId, event.shelterId, event.bedId}
            && event.status in {SaysAvailable, SaysOccupied, SaysMaintenance})
      && (response == Accepted ==> ToProto(FromProto(event.status)) == event.status)
      && (response == Accepted ==>
            && (Decode(event).Malformed? <==> event.eventId == Unparseable || event.bedId == Unparseable)
            && (Decode(event).Status? ==>
                  var e := Decode(event).event;
                  event == RawEvent(Uuid(e.id), event.shelterId, Uuid(e.bed), ToProto(e.status), e.seqNo)
                  && (e.status == Available <==> event.status == SaysAvailable)
                  && (e.status == Occupied <==> event.status == SaysOccupied)
                  && (e.status == Maintenance <==> event.status == SaysMaintenance)))
    ensures SubmitBedStatus(None) == (InvalidArgument, None)
  {
    assert ToProto(FromProto(event.status)) == event.status || event.status == Unspecified;
  }

  /** Whatever coupled database it meets, the event leaves it coupled. */
  ghost predicate KeepsCoupling(e: Event) {
    forall db :: Valid(db) && Coupled(db) && e.bed in db.beds ==>
      ReservationsFit(Apply(db, e)) && Coupled(Apply(db, e))
  }

  /** The gate is neither too narrow nor too wide: of the requests with parseable ids it accepts
      exactly those that say something and whose event can never break the coupling. */
  lemma GateMatchesCoupling(event: RawEvent)
    requires event.eventId.Uuid? && event.shelterId != Empty && event.bedId.Uuid?
    ensures SubmitBedStatus(Some(event)).0 == Accepted
       <==> event.status != Unspecified && KeepsCoupling(Decode(event).event)
  {
    var e := Decode(event).event;
    forall db | Valid(db) && Coupled(db) && e.bed in db.beds
      ensures ReservationsFit(Apply(db, e)) && (e.status != BedStatus.Reserved ==> Coupled(Apply(db, e)))
    {
      ApplyCoupling(db, e);
    }
    var bed := BedRow(0, "north", BedAttributes(General, false, false, false), Available, e.seqNo);
    var db := Database(map[e.bed := bed], map[], [], map[]);
    assert Valid(db) && Coupled(db);
    ApplyCoupling(db, e);
  }

  /** The record was published by an accepted request. */
  ghost predicate Admitted(record: Record) {
    exists raw: RawEvent :: SubmitBedStatus(Some(raw)) == (Accepted, Some(raw)) && record == Decode(raw)
  }

  /** Exactly the reports of the three real transitions for a parseable event and bed, and
      malformed records, can come through the gate. */
  lemma GateAdmits(record: Record)
    ensures Admitted(record) <==> (record.Status? ==> record.event.status != BedStatus.Reserved)
  {
    match record
    case Malformed =>
      var raw := RawEvent(Unparseable, Unparseable, Unparseable, SaysAvailable, 0);
      assert SubmitBedStatus(Some(raw)) == (Accepted, Some(raw)) && record == Decode(raw);
    case Status(e) =>
      if e.status != BedStatus.Reserved {
        var said := match e.status
          case Occupied => SaysOccupied
          case Maintenance => SaysMaintenance
          case _ => SaysAvailable;
        var raw := RawEvent(Uuid(e.id), Unparseable, Uuid(e.bed), said, e.seqNo);
        assert SubmitBedStatus(Some(raw)) == (Accepted, Some(raw)) && record == Decode(raw);
      }
  }

  /** Every record of every log came through the gate. */
  ghost predicate Gated(s: State) {
    forall p, i :: p in s.logs && 0 <= i < |s.logs[p].log| ==> Admitted(s.logs[p].log[i])
  }

  lemma {:induction false} RunKeepsCoupled(tr: seq<State>)
    requires Run(tr) && Coupled(tr[0].db) && Gated(Last(tr))
    ensures Valid(Last(tr).db) && Coupled(Last(tr).db)
  {
    RunKeepsOffsets(tr);
    if |tr| > 1 {
      RunFront(tr);
      RunKeepsOffsets(Front(tr));
      var s, s' := Last(Front(tr)), Last(tr);
      var step :| Next(s, s', step);
      NextLogsGrow(s, s', step);
      GatedBefore(s, s');
      RunKeepsCoupled(Front(tr));
      StepIsAtomic(s, s', step);
      var c := ChangeOf(s, step);
      if c.Application? {
        AppliedAtHead(s, s', step);
        var l := s.logs[step.w.partition];
        assert Admitted(l.log[l.position]);
        GateAdmits(l.log[l.position]);
      }
      AtomicKeepsCoupled(s.db, s'.db, c);
    }
  }

  lemma GatedBefore(s: State, s': State)
    requires LogsGrow(s, s') && Gated(s')
    ensures Gated(s)
  {
  }

  /** Conservation: in every reachable state behind the gate there are as many reserved beds
      as active reservations, and as many matched referrals and held beds as live ones. */
  lemma Conservation(tr: seq<State>)
    requires Run(tr) && Coupled(tr[0].db) && Gated(Last(tr))
    ensures var db := Last(tr).db;
      && |ReservedBeds(db)| == |ActiveRows(db)|
      && |MatchedReferrals(db)| == |LiveRows(db)| == |HeldBeds(db)|
      && (forall b :: b in db.beds ==>
            (db.beds[b].status == BedStatus.Reserved <==> exists i :: ActiveOn(db, i, b)))
      && (forall r :: r in db.referrals ==>
            (db.referrals[r].status == ReferralStatus.Matched <==> exists i :: LiveFor(db, i, r)))
  {
    RunKeepsCoupled(tr);
    ReservedCount(Last(tr).db);
    MatchedCount(Last(tr).db);
  }
}
