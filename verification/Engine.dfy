/** The matching engine with nobody else at work: the methods that search, allocate, apply
    events and publish, each updating the tables step by step as its transactions do. */
module Engine {
  import opened Domain
  import opened Store
  import opened Search
  import opened Submissions

  /** One call of `publish_bed_update`. */
  datatype Notice = Notice(shelter: ShelterId, bed: BedId, status: BedStatus)

  /** Where an attempt at an event is cut short by an error. */
  datatype Fault = BeforeApply | AfterApply | AfterAllocate

  function ReservedNotices(awards: seq<AllocationResult>): (out: seq<Notice>)
    ensures |out| == |awards|
    ensures forall k :: 0 <= k < |awards| ==>
      out[k] == Notice(awards[k].shelter, awards[k].bed, BedStatus.Reserved)
  {
    seq(|awards|, k requires 0 <= k < |awards| => Notice(awards[k].shelter, awards[k].bed, BedStatus.Reserved))
  }

  lemma NoticesAppend(awards: seq<AllocationResult>, a: AllocationResult)
    ensures ReservedNotices(awards + [a])
         == ReservedNotices(awards) + [Notice(a.shelter, a.bed, BedStatus.Reserved)]
  {
  }

  /** One uninterfered `apply_and_notify`, from `db` to `db'`. */
  ghost predicate Handled(db: Database, e: Event, db': Database, result: Option<AllocationResult>) {
    if ApplyEvent(db, e).0 == UnknownBed then db' == db && result == None
    else AllocationSpec(ApplyEvent(db, e).1, e.bed, db', result)
  }

  /** Where the failed attempts at one event have brought the database. */
  ghost predicate AfterFaults(db: Database, e: Event, faults: seq<Fault>, db': Database) {
    if AfterAllocate in faults then exists result :: Handled(db, e, db', result)
    else if AfterApply in faults then db' == ApplyEvent(db, e).1
    else db' == db
  }

  /** The next row of a scan in no particular order. */
  method Any<T(==)>(rows: set<T>) returns (row: T)
    requires rows != {}
    ensures row in rows
  {
    row :| row in rows;
  }

  class MatchingEngine {
    var beds: map<BedId, BedRow>
    var referrals: map<ReferralId, ReferralRow>
    var reservations: seq<ReservationRow>
    var ledger: map<EventId, BedId>
    var published: seq<Notice>

    function Db(): Database
      reads this
    {
      Database(beds, referrals, reservations, ledger)
    }

    constructor (initial: map<BedId, BedRow>)
      requires forall b :: b in initial ==> initial[b].status != BedStatus.Reserved
      ensures Db() == Database(initial, map[], [], map[]) && published == []
      ensures Valid(Db()) && Coupled(Db())
    {
      beds, referrals, reservations, ledger, published := initial, map[], [], map[], [];
    }

    /** ORDER BY vulnerability_score DESC, created_at ASC LIMIT 1; rows come in any order, so
        ties are broken arbitrarily. */
    method SelectReferral(b: BedId) returns (chosen: Option<ReferralId>)
      requires b in beds
      ensures chosen.None? ==> forall r :: !Waiting(Db(), b, r)
      ensures chosen.Some? ==> Best(Db(), b, chosen.value)
      ensures chosen.Some? ==> forall r :: Waiting(Db(), b, r) ==>
        var won, other := referrals[chosen.value], referrals[r];
        other.score < won.score || (other.score == won.score && won.createdAt <= other.createdAt)
    {
      chosen := None;
      var unread := referrals.Keys;
      while unread != {}
        invariant unread <= referrals.Keys
        invariant chosen.None? ==> forall r :: Waiting(Db(), b, r) ==> r in unread
        invariant chosen.Some? ==> Waiting(Db(), b, chosen.value)
        invariant chosen.Some? ==> forall r :: Waiting(Db(), b, r) && r !in unread ==>
                    !Outranks(referrals[r], referrals[chosen.value])
      {
        var r := Any(unread);
        unread := unread - {r};
        if AllocationFilter(beds[b], referrals[r]) {
          if chosen.None? || Outranks(referrals[r], referrals[chosen.value]) {
            chosen := Some(r);
          }
        }
      }
    }

    /** ORDER BY beds.id LIMIT 1. */
    method FindCandidate(region: Region, needs: ReferralNeeds) returns (candidate: Option<BedId>)
      ensures candidate.None? ==> forall b :: !Candidate(Db(), b, region, needs)
      ensures candidate.Some? ==> FirstCandidate(Db(), candidate.value, region, needs)
      ensures candidate.Some? ==> candidate.value in beds
      ensures forall b :: b in beds && beds[b].status == Available && beds[b].region == region ==>
        IsEligible(beds[b].attrs, needs) ==> candidate.Some? && candidate.value <= b
    {
      candidate := None;
      var unread := beds.Keys;
      while unread != {}
        invariant unread <= beds.Keys
        invariant candidate.None? ==> forall b :: Candidate(Db(), b, region, needs) ==> b in unread
        invariant candidate.Some? ==> Candidate(Db(), candidate.value, region, needs)
        invariant candidate.Some? ==>
          forall b :: Candidate(Db(), b, region, needs) && b !in unread ==> candidate.value <= b
      {
        var b := Any(unread);
        unread := unread - {b};
        if CandidateFilter(beds[b], region, needs) && (candidate.None? || b < candidate.value) {
          candidate := Some(b);
        }
      }
      forall b | b in beds && beds[b].status == Available && beds[b].region == region && IsEligible(beds[b].attrs, needs)
        ensures Candidate(Db(), b, region, needs) {
      }
    }

    method AllocateForBed(b: BedId) returns (result: Option<AllocationResult>)
      requires Valid(Db())
      modifies this`beds, this`referrals, this`reservations
      ensures AllocationSpec(old(Db()), b, Db(), result)
      ensures Valid(Db())
      ensures result.None? ==> Db() == old(Db())
      ensures result.None? && b in beds && beds[b].status == Available ==>
        forall r :: r in referrals && referrals[r].status == ReferralStatus.Pending && referrals[r].region == beds[b].region ==>
          !IsEligible(beds[b].attrs, referrals[r].needs)
      ensures result.Some? ==>
        var r := result.value.referral;
        && b in old(beds) && old(beds)[b].status == Available
        && r in old(referrals) && old(referrals)[r].status == ReferralStatus.Pending
        && old(referrals)[r].region == old(beds)[b].region && IsEligible(old(beds)[b].attrs, old(referrals)[r].needs)
        && result.value == AllocationResult(b, old(beds)[b].shelter, r)
        && beds == old(beds)[b := old(beds)[b].(status := BedStatus.Reserved)]
        && referrals == old(referrals)[r := old(referrals)[r].(status := ReferralStatus.Matched)]
        && reservations == old(reservations) + [ReservationRow(b, r, Active)]
      ensures result.Some? ==> forall r :: Waiting(old(Db()), b, r) ==>
        var won, other := old(referrals)[result.value.referral], old(referrals)[r];
        other.score < won.score || (other.score == won.score && won.createdAt <= other.createdAt)
    {
      if b !in beds || beds[b].status != Available {
        return None;
      }
      var chosen := SelectReferral(b);
      if chosen.None? {
        forall r | r in referrals ensures !AllocationFilter(beds[b], referrals[r]) {
          assert !Waiting(Db(), b, r);
        }
        return None;
      }
      var r := chosen.value;
      FiltersAgree(beds[b], referrals[r]);
      ReserveKeepsValid(Db(), b, r);
      reservations := reservations + [ReservationRow(b, r, Active)];
      beds := beds[b := beds[b].(status := BedStatus.Reserved)];
      referrals := referrals[r := referrals[r].(status := ReferralStatus.Matched)];
      return Some(AllocationResult(b, beds[b].shelter, r));
    }

    /** The answer is decided by the ledger, then by the bed's existence, then by its sequence
        number; an applied event moves the bed, checks in or releases its reservation and
        re-pends whoever is released, and nothing else; any other is rolled back in full. */
    method ApplyBedStatusEvent(e: Event) returns (outcome: ApplyOutcome)
      requires Valid(Db())
      modifies this`beds, this`referrals, this`reservations, this`ledger
      ensures (outcome, Db()) == ApplyEvent(old(Db()), e)
      ensures Valid(Db()) && Evolves(old(Db()), Db())
      ensures outcome != UnknownBed ==> Absorbed(Db(), e)
      ensures outcome.Applied? <==> !Absorbed(old(Db()), e)
      ensures outcome == Duplicate <==> e.id in old(ledger)
      ensures outcome == UnknownBed <==> e.id !in old(ledger) && e.bed !in old(beds)
      ensures outcome == Stale <==>
        e.id !in old(ledger) && e.bed in old(beds) && e.seqNo <= old(beds)[e.bed].lastSeq
      ensures !outcome.Applied? ==> Db() == old(Db())
      ensures outcome.Applied? ==>
        var was := old(beds)[e.bed];
        && outcome.shelter == was.shelter
        && (outcome.becameAvailable <==> e.status == Available && was.status != Available)
        && beds == old(beds)[e.bed := BedRow(was.shelter, was.region, was.attrs, e.status, e.seqNo)]
        && ledger == old(ledger)[e.id := e.bed]
      ensures outcome.Applied? ==>
        && |reservations| == |old(reservations)|
        && forall i :: 0 <= i < |reservations| ==>
             var was := old(reservations)[i];
             reservations[i] == ReservationRow(was.bed, was.referral,
               if was.bed != e.bed || was.status !in {Active, CheckedIn} then was.status
               else if e.status in {Available, Maintenance} then ReservationStatus.Released
               else if e.status == Occupied then CheckedIn
               else was.status)
      ensures outcome.Applied? ==>
        && referrals.Keys == old(referrals).Keys
        && forall r :: r in referrals ==>
             referrals[r] == old(referrals)[r].(status :=
               if e.status in {Available, Maintenance} && exists i :: LiveOn(old(Db()), i, e.bed) && LiveFor(old(Db()), i, r)
               then ReferralStatus.Pending else old(referrals)[r].status)
    {
      if e.id in ledger {
        return Duplicate;
      }
      ghost var before := Db();
      var rollback := ledger;
      ledger := ledger[e.id := e.bed];
      if e.bed !in beds {
        ledger := rollback;
        return UnknownBed;
      }
      var bed := beds[e.bed];
      if e.seqNo <= bed.lastSeq {
        ledger := rollback;
        return Stale;
      }
      beds := beds[e.bed := bed.(status := e.status, lastSeq := e.seqNo)];
      SettleReservation(e);
      ApplyKeepsAll(before, e);
      ApplyRowByRow(before, e);
      return Applied(bed.shelter, e.status == Available && bed.status != Available);
    }

    /** The reservation's part of an event: check-in, or release and back in line. */
    method SettleReservation(e: Event)
      modifies this`reservations, this`referrals
      ensures reservations == Settle(old(reservations), e)
      ensures referrals == Repend(old(referrals), FirstReleased(old(reservations), e))
    {
      var released := FirstReleased(reservations, e);
      reservations := Settle(reservations, e);
      if released.Some? && released.value in referrals
         && referrals[released.value].status == ReferralStatus.Matched {
        var r := released.value;
        referrals := referrals[r := referrals[r].(status := ReferralStatus.Pending)];
      }
    }

    method ResolveFinalOutcome(id: ReferralId) returns (outcome: SubmitOutcome)
      requires Valid(Db()) && id in referrals
      ensures outcome.Pending? <==> forall i :: !LiveFor(Db(), i, id)
      ensures outcome.Pending? <==> forall i :: 0 <= i < |reservations| && reservations[i].referral == id ==>
        reservations[i].status !in {Active, CheckedIn}
      ensures outcome.Pending? ==> outcome.referral == id
      ensures outcome.Matched? ==>
        outcome.result.referral == id
        && exists i :: LiveFor(Db(), i, id) && reservations[i].bed == outcome.result.bed
                       && outcome.result.shelter == beds[outcome.result.bed].shelter
    {
      var i := 0;
      while i < |reservations|
        invariant 0 <= i <= |reservations|
        invariant forall j :: 0 <= j < i ==> !LiveFor(Db(), j, id)
      {
        if reservations[i].referral == id && Live(reservations[i].status) {
          assert LiveFor(Db(), i, id);
          var b := reservations[i].bed;
          return SubmitOutcome.Matched(AllocationResult(b, beds[b].shelter, id));
        }
        i := i + 1;
      }
      return SubmitOutcome.Pending(id);
    }

    /** Inserts the referral and searches for it. */
    method SubmitReferral(id: ReferralId, region: Region, needs: ReferralNeeds, score: int, createdAt: int)
      returns (outcome: SubmitOutcome, side: seq<AllocationResult>)
      requires Valid(Db()) && id !in referrals
      modifies this`beds, this`referrals, this`reservations
      ensures Valid(Db())
      ensures var start := InsertReferral(old(Db()), id,
                             ReferralRow(region, needs, score, createdAt, ReferralStatus.Pending));
        && SearchRun(start, id, AllAwards(side, outcome))
        && SearchEnd(start, id, side, outcome)
        && Db() == Awarded(start, AllAwards(side, outcome))
      ensures |side| <= 500 && (outcome.Matched? ==> |side| < 500)
      ensures outcome.Pending? && |side| < 500 ==>
        forall b :: b in beds && beds[b].status == Available && beds[b].region == region ==>
          !IsEligible(beds[b].attrs, needs)
      ensures Submitted(old(Db()), id, ReferralRow(region, needs, score, createdAt, ReferralStatus.Pending), Db(), outcome)
    {
      var row := ReferralRow(region, needs, score, createdAt, ReferralStatus.Pending);
      InsertKeepsValid(Db(), id, row);
      referrals := referrals[id := row];
      outcome, side := SearchBed(id, region, needs);
      RunIsSubmission(old(Db()), id, row, side, outcome, Db());
    }

    /** The bounded loop: find a candidate, allocate it, go on if it went to somebody else. */
    method SearchBed(id: ReferralId, region: Region, needs: ReferralNeeds)
      returns (outcome: SubmitOutcome, side: seq<AllocationResult>)
      requires Valid(Db()) && id in referrals && referrals[id].status == ReferralStatus.Pending
      requires referrals[id].region == region && referrals[id].needs == needs
      modifies this`beds, this`referrals, this`reservations
      ensures Valid(Db())
      ensures SearchRun(old(Db()), id, AllAwards(side, outcome)) && SearchEnd(old(Db()), id, side, outcome)
      ensures Db() == Awarded(old(Db()), AllAwards(side, outcome))
      ensures |side| <= 500 && (outcome.Matched? ==> |side| < 500)
      ensures outcome.Pending? && |side| < 500 ==>
        && (forall b :: !Candidate(Db(), b, region, needs))
        && forall b :: b in beds && beds[b].status == Available && beds[b].region == region ==>
             !IsEligible(beds[b].attrs, needs)
    {
      ghost var start := Db();
      side := [];
      for i := 0 to SEARCH_LIMIT
        invariant Valid(Db()) && id in referrals
        invariant |side| == i && forall k :: 0 <= k < |side| ==> side[k].referral != id
        invariant SearchRun(start, id, side) && Db() == Awarded(start, side)
      {
        StillPending(start, id, side);
        var candidate := FindCandidate(region, needs);
        if candidate.None? {
          NoLiveRowFor(id);
          outcome := ResolveFinalOutcome(id);
          return;
        }
        assert Pair(Db(), candidate.value, id);
        ghost var now := Db();
        var result := AllocateForBed(candidate.value);
        match result {
          case None => assert false;  // happens under contention only
          case Some(a) =>
            RunAppend(start, id, side, now, Db(), a);
            if a.referral == id {
              return SubmitOutcome.Matched(a), side;
            }
            side := side + [a];
        }
      }
      StillPending(start, id, side);
      NoLiveRowFor(id);
      outcome := ResolveFinalOutcome(id);
    }

    lemma NoLiveRowFor(id: ReferralId)
      requires Valid(Db()) && id in referrals && referrals[id].status == ReferralStatus.Pending
      ensures forall i :: !LiveFor(Db(), i, id)
    {
    }

    /** Publishes every allocation the call made, one notice for each new reservation in the
        order they were made, then answers. */
    method MatchReferral(id: ReferralId, region: Region, needs: ReferralNeeds, score: int, createdAt: int)
      returns (outcome: SubmitOutcome)
      requires Valid(Db()) && id !in referrals
      modifies this
      ensures Valid(Db())
      ensures Submitted(old(Db()), id, ReferralRow(region, needs, score, createdAt, ReferralStatus.Pending), Db(), outcome)
      ensures id in referrals && referrals[id] == ReferralRow(region, needs, score, createdAt,
        if outcome.Matched? then ReferralStatus.Matched else ReferralStatus.Pending)
      ensures outcome.Pending? ==> outcome.referral == id
      ensures outcome.Matched? ==>
        var a := outcome.result;
        && a.bed in old(beds) && old(beds)[a.bed].status == Available
        && a == AllocationResult(a.bed, old(beds)[a.bed].shelter, id)
        && |reservations| > |old(reservations)|
        && reservations[|reservations| - 1] == ReservationRow(a.bed, id, Active)
      ensures outcome.Pending? && |reservations| < |old(reservations)| + 500 ==>
        forall b :: b in beds && beds[b].status == Available && beds[b].region == region ==>
          !IsEligible(beds[b].attrs, needs)
      ensures ledger == old(ledger) && |old(reservations)| <= |reservations|
      ensures old(published) <= published
      ensures var made, told := reservations[|old(reservations)|..], published[|old(published)|..];
        && |told| == |made|
        && forall k :: 0 <= k < |made| ==>
             && made[k].bed in old(beds)
             && told[k] == Notice(old(beds)[made[k].bed].shelter, made[k].bed, BedStatus.Reserved)
    {
      ghost var row := ReferralRow(region, needs, score, createdAt, ReferralStatus.Pending);
      var side: seq<AllocationResult>;
      outcome, side := SubmitReferral(id, region, needs, score, createdAt);
      SubmittedMeans(old(Db()), id, row, Db(), outcome);
      PublishAll(side, outcome);
      ghost var awards := AllAwards(side, outcome);
      NoticesTellRows(InsertReferral(old(Db()), id, row), id, awards);
      assert reservations[|old(reservations)|..] == Rows(awards);
      assert published[|old(published)|..] == ReservedNotices(awards);
    }

    method PublishAll(side: seq<AllocationResult>, outcome: SubmitOutcome)
      modifies this`published
      ensures published == old(published) + ReservedNotices(AllAwards(side, outcome))
    {
      PublishReserved(side);
      if outcome.Matched? {
        PublishBedUpdate(outcome.result.shelter, outcome.result.bed, BedStatus.Reserved);
        NoticesAppend(side, outcome.result);
      }
    }

    method PublishReserved(awards: seq<AllocationResult>)
      modifies this`published
      ensures published == old(published) + ReservedNotices(awards)
    {
      for i := 0 to |awards|
        invariant published == old(published) + ReservedNotices(awards[..i])
      {
        PublishBedUpdate(awards[i].shelter, awards[i].bed, BedStatus.Reserved);
        NoticesAppend(awards[..i], awards[i]);
        assert awards[..i + 1] == awards[..i] + [awards[i]];
      }
      assert awards[..|awards|] == awards;
    }

    method PublishBedUpdate(shelter: ShelterId, bed: BedId, status: BedStatus)
      modifies this`published
      ensures published == old(published) + [Notice(shelter, bed, status)]
    {
      published := published + [Notice(shelter, bed, status)];
    }

    /** An allocation is attempted after every event for a known bed, applied or not; if it
        succeeds that is what is published, otherwise the report is, if it was applied. */
    method ApplyAndNotify(e: Event) returns (ghost result: Option<AllocationResult>)
      requires Valid(Db())
      modifies this
      ensures Valid(Db())
      ensures Handled(old(Db()), e, Db(), result)
      ensures result.Some? ==>
        && e.bed in old(beds)
        && reservations[|old(reservations)|..] == [ReservationRow(e.bed, result.value.referral, Active)]
        && published == old(published) + [Notice(old(beds)[e.bed].shelter, e.bed, BedStatus.Reserved)]
      ensures result.None? ==> |reservations| == |old(reservations)|
      ensures result.None? && !Absorbed(old(Db()), e) ==>
        published == old(published) + [Notice(old(beds)[e.bed].shelter, e.bed, e.status)]
      ensures result.None? && Absorbed(old(Db()), e) ==> published == old(published)
      ensures forall r :: !Pair(Db(), e.bed, r)
      ensures Absorbed(Db(), e) && beds.Keys == old(beds).Keys
      ensures forall b :: b in beds && b != e.bed ==> beds[b] == old(beds)[b]
      ensures e.bed in old(beds) ==>
        var was, applied := old(beds)[e.bed], !Absorbed(old(Db()), e);
        beds[e.bed] == BedRow(was.shelter, was.region, was.attrs,
                              if result.Some? then BedStatus.Reserved else if applied then e.status else was.status,
                              if applied then e.seqNo else was.lastSeq)
    {
      result := None;
      var outcome := ApplyBedStatusEvent(e);
      if outcome == UnknownBed {
        return;
      }
      var award := AllocateForBed(e.bed);
      result := award;
      match award
      case Some(a) => PublishBedUpdate(a.shelter, a.bed, BedStatus.Reserved);
      case None =>
        if outcome.Applied? {
          PublishBedUpdate(outcome.shelter, e.bed, e.status);
        }
    }

    /** One attempt that fails: nothing done, only the event committed, or everything
        committed but the acknowledgement lost. */
    method FailedAttempt(e: Event, fault: Fault)
      requires Valid(Db())
      modifies this`beds, this`referrals, this`reservations, this`ledger
      ensures Valid(Db())
      ensures AfterFaults(old(Db()), e, [fault], Db())
    {
      if fault == BeforeApply {
        return;
      }
      var outcome := ApplyBedStatusEvent(e);
      if fault == AfterApply || outcome == UnknownBed {
        assert outcome == UnknownBed ==> Handled(old(Db()), e, Db(), None);
        return;
      }
      var result := AllocateForBed(e.bed);
      assert Handled(old(Db()), e, Db(), result);
    }

    /** The retry loop: whatever sequence of faults precedes success, the database ends as one
        clean attempt would have left it.  What is published is the allocation if there was
        one, else the report if this call applied it; but a fault after the event was committed
        loses the report, and one after the allocation was loses either. */
    method RetryInPlace(e: Event, faults: seq<Fault>)
      requires Valid(Db())
      modifies this
      ensures Valid(Db())
      ensures exists result :: Handled(old(Db()), e, Db(), result)
      ensures AfterAllocate !in faults && |reservations| > |old(reservations)| ==>
        && e.bed in old(beds)
        && published == old(published) + [Notice(old(beds)[e.bed].shelter, e.bed, BedStatus.Reserved)]
      ensures AfterAllocate !in faults && AfterApply !in faults
              && |reservations| == |old(reservations)| && !Absorbed(old(Db()), e) ==>
        published == old(published) + [Notice(old(beds)[e.bed].shelter, e.bed, e.status)]
      ensures AfterAllocate in faults
              || (|reservations| == |old(reservations)| && (AfterApply in faults || Absorbed(old(Db()), e))) ==>
        published == old(published)
      ensures |old(reservations)| <= |reservations| <= |old(reservations)| + 1
    {
      for attempt := 0 to |faults|
        invariant Valid(Db()) && published == old(published)
        invariant AfterFaults(old(Db()), e, faults[..attempt], Db())
      {
        ghost var now := Db();
        FailedAttempt(e, faults[attempt]);
        FaultsAppend(old(Db()), e, faults[..attempt], now, faults[attempt], Db());
        assert faults[..attempt + 1] == faults[..attempt] + [faults[attempt]];
      }
      assert faults[..|faults|] == faults;
      ghost var now := Db();
      ghost var result := ApplyAndNotify(e);
      RetryCompletes(old(Db()), e, faults, now, Db(), result);
    }
  }

  /** The receive loop over one partition. */
  class Consumer {
    const engine: MatchingEngine
    const log: seq<Record>
    var position: nat
    var committed: nat

    predicate InLog()
      reads this
    {
      committed <= position <= |log|
    }

    constructor (engine: MatchingEngine, log: seq<Record>, committed: nat)
      requires committed <= |log|
      ensures this.engine == engine && this.log == log
      ensures position == this.committed == committed && InLog()
    {
      this.engine, this.log, this.position, this.committed := engine, log, committed, committed;
    }

    /** One turn: a malformed record is skipped without a trace, an event is retried in place
        through any faults until it succeeds, and only then is the offset handed to the broker,
        which may or may not store it. */
    method HandleNext(faults: seq<Fault>, stored: bool) returns (attempts: nat)
      requires InLog() && position < |log| && Valid(engine.Db())
      modifies this, engine
      ensures InLog() && position == old(position) + 1
      ensures committed == if stored then position else old(committed)
      ensures Valid(engine.Db())
      ensures log[old(position)].Malformed? ==>
        engine.Db() == old(engine.Db()) && engine.published == old(engine.published) && attempts == 0
      ensures log[old(position)].Status? ==> attempts == |faults| + 1
      ensures log[old(position)].Status? ==>
        var e, rows := log[old(position)].event, |old(engine.reservations)|;
        && (exists result :: Handled(old(engine.Db()), e, engine.Db(), result))
        && (AfterAllocate !in faults && |engine.reservations| > rows ==>
              && e.bed in old(engine.beds)
              && engine.published
                 == old(engine.published) + [Notice(old(engine.beds)[e.bed].shelter, e.bed, BedStatus.Reserved)])
        && (AfterAllocate !in faults && AfterApply !in faults
            && |engine.reservations| == rows && !Absorbed(old(engine.Db()), e) ==>
              engine.published == old(engine.published) + [Notice(old(engine.beds)[e.bed].shelter, e.bed, e.status)])
        && (AfterAllocate in faults
            || (|engine.reservations| == rows && (AfterApply in faults || Absorbed(old(engine.Db()), e))) ==>
              engine.published == old(engine.published))
    {
      match log[position] {
        case Malformed =>
          attempts := 0;
        case Status(e) =>
          engine.RetryInPlace(e, faults);
          attempts := |faults| + 1;
      }
      position := position + 1;
      if stored {
        committed := position;
      }
    }
  }

  /** Repeating a handled event changes nothing: it is absorbed, and its bed has been offered. */
  lemma HandledAgain(db: Database, e: Event, now: Database, db': Database,
                     first: Option<AllocationResult>, again: Option<AllocationResult>)
    requires Valid(db) && Handled(db, e, now, first) && Handled(now, e, db', again)
    ensures db' == now
  {
  }

  lemma ApplyKeepsAll(db: Database, e: Event)
    requires Valid(db) && !Absorbed(db, e)
    ensures Valid(Apply(db, e)) && Evolves(db, Apply(db, e))
  {
    ApplyKeepsValid(db, e);
    AtomicEvolves(db, Apply(db, e), Application(e));
  }

  /** Without ties what a handled event leaves and whom it serves is determined. */
  lemma HandledOnce(db: Database, e: Event, db': Database, one: Option<AllocationResult>,
                    db'': Database, two: Option<AllocationResult>)
    requires NoTies(ApplyEvent(db, e).1) && Handled(db, e, db', one) && Handled(db, e, db'', two)
    ensures db' == db'' && one == two
  {
  }

  /** What has been committed of an event is absorbed, and applying it again changes nothing. */
  lemma AppliedAgain(db: Database, e: Event)
    requires Valid(db)
    ensures var now := ApplyEvent(db, e).1; ApplyEvent(now, e).1 == now && (Absorbed(now, e))
    ensures var now := ApplyEvent(db, e).1;
      ApplyEvent(now, e).0 == UnknownBed <==> ApplyEvent(db, e).0 == UnknownBed
  {
  }

  lemma FaultsAppend(db: Database, e: Event, faults: seq<Fault>, now: Database, fault: Fault, db': Database)
    requires Valid(db) && AfterFaults(db, e, faults, now) && AfterFaults(now, e, [fault], db')
    ensures AfterFaults(db, e, faults + [fault], db')
  {
    AppliedAgain(db, e);
    if AfterAllocate in faults {
      var first :| Handled(db, e, now, first);
      if fault == AfterAllocate {
        var again :| Handled(now, e, db', again);
        HandledAgain(db, e, now, db', first, again);
      }
    } else if fault == AfterAllocate {
      var again :| Handled(now, e, db', again);
      assert Handled(db, e, db', again);
    }
  }

  lemma RetryCompletes(db: Database, e: Event, faults: seq<Fault>, now: Database, db': Database,
                       result: Option<AllocationResult>)
    requires Valid(db) && AfterFaults(db, e, faults, now) && Handled(now, e, db', result)
    ensures exists first :: Handled(db, e, db', first)
    ensures AfterAllocate in faults ==> db' == now && result == None && Absorbed(now, e)
    ensures AfterAllocate !in faults ==>
      |now.reservations| == |db.reservations| && now.beds.Keys == db.beds.Keys
      && (e.bed in db.beds ==> now.beds[e.bed].shelter == db.beds[e.bed].shelter)
    ensures AfterApply in faults && AfterAllocate !in faults ==> Absorbed(now, e)
  {
    AppliedAgain(db, e);
    if AfterAllocate in faults {
      var first :| Handled(db, e, now, first);
      HandledAgain(db, e, now, db', first, result);
    } else {
      assert Handled(db, e, db', result);
    }
  }

  /** One notice of a reserved bed for each row a search makes, in order. */
  lemma NoticesTellRows(start: Database, id: ReferralId, awards: seq<AllocationResult>)
    requires SearchRun(start, id, awards) && start.referrals[id].status == ReferralStatus.Pending
    requires forall j :: 0 <= j < |awards| - 1 ==> awards[j].referral != id
    ensures var made, told := Rows(awards), ReservedNotices(awards);
      && |told| == |made|
      && forall k :: 0 <= k < |made| ==>
           && made[k].bed in start.beds
           && told[k] == Notice(start.beds[made[k].bed].shelter, made[k].bed, BedStatus.Reserved)
    ensures Awarded(start, awards).reservations == start.reservations + Rows(awards)
  {
    RunReservations(start, id, awards);
    forall k | 0 <= k < |awards|
      ensures awards[k].bed in start.beds && awards[k].shelter == start.beds[awards[k].bed].shelter
    {
      EachAward(start, id, awards, k);
    }
  }

  lemma RunAppend(db: Database, id: ReferralId, awards: seq<AllocationResult>,
                  now: Database, db': Database, a: AllocationResult)
    requires SearchRun(db, id, awards) && now == Awarded(db, awards)
    requires FirstCandidate(now, a.bed, db.referrals[id].region, db.referrals[id].needs)
    requires AllocationSpec(now, a.bed, db', Some(a))
    ensures SearchRun(db, id, awards + [a]) && Awarded(db, awards + [a]) == db'
  {
    var all := awards + [a];
    assert all[..|all| - 1] == awards && all[..|all|] == all;
    forall k | 0 <= k < |all| ensures AwardAt(db, id, all, k) {
      if k < |awards| {
        assert AwardAt(db, id, awards, k);
        assert all[..k] == awards[..k] && all[..k + 1] == awards[..k + 1];
      }
    }
  }
}
