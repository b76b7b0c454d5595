/** Runs of the machine in which something goes wrong that the code does not prevent. */
module Scenarios {
  import opened Domain
  import opened Store
  import opened Search
  import opened Machine
  import opened Guarantees
  import opened Ownership
  import opened Surge
  import opened Iterations

  lemma FollowsIsRun(path: seq<State>, steps: seq<Step>)
    requires Follows(path, steps) && Init(path[0])
    ensures Run(path)
  {
    forall i | 0 <= i < |path| - 1 ensures Steps(path[i], path[i + 1]) {
      assert Next(path[i], path[i + 1], steps[i]);
    }
  }

  // ----- two beds, and five hundred iterations -----

  const plainBed := BedRow(0, "north", BedAttributes(General, false, false, false), Available, 0)
  const petBed := BedRow(0, "north", BedAttributes(General, true, false, false), Available, 0)
  const urgent := ReferralRow("north", ReferralNeeds(General, false, false, false), 90, 0, ReferralStatus.Pending)
  const petOwner := ReferralRow("north", ReferralNeeds(General, true, false, false), 10, 1, ReferralStatus.Pending)

  /** The tables with referrals 7 and 8 submitted. */
  function TwoBeds(referrals: map<ReferralId, ReferralRow>): Database {
    Database(map[1 := plainBed, 2 := petBed], referrals, [], map[])
  }

  /** Both calls, the second at `p`. */
  function Rivals(p: Proc): State {
    State(TwoBeds(map[7 := urgent, 8 := petOwner]),
          map[Caller(7) := Searching(SEARCH_LIMIT, []), Caller(8) := p], map[], {}, {}, {})
  }

  function RivalAt(tx: Tx): State {
    Rivals(Attempting(SEARCH_LIMIT, [], tx))
  }

  /** Referral 8 finds bed 2, and its query chooses the more urgent referral 7 for it. */
  const rivalPath: seq<State> := [
    State(TwoBeds(map[]), map[], map[], {}, {}, {}),
    State(TwoBeds(map[7 := urgent]), map[Caller(7) := Searching(SEARCH_LIMIT, [])], map[], {}, {}, {}),
    Rivals(Searching(SEARCH_LIMIT, [])),
    RivalAt(AllocBegun(2)),
    RivalAt(AllocLocked(2)),
    RivalAt(AllocSeen(2, {7, 8})),
    RivalAt(AllocChosen(2, 7, {}))]

  const rivalSteps: seq<Step> := [
    Submit(7, urgent), Submit(8, petOwner), Pick(8, 2), Server(Caller(8), AllocLocked(2)),
    Server(Caller(8), AllocSeen(2, {7, 8})), Server(Caller(8), AllocChosen(2, 7, {}))]

  lemma RivalsSubmit()
    ensures Init(rivalPath[0])
    ensures Next(rivalPath[0], rivalPath[1], Submit(7, urgent))
    ensures Next(rivalPath[1], rivalPath[2], Submit(8, petOwner))
  {
    assert map[7 := urgent][8 := petOwner] == map[7 := urgent, 8 := petOwner];
  }

  lemma RivalMoves(tx: Tx, tx': Tx)
    requires AllocStatement(RivalAt(tx), Caller(8), tx, tx', RivalAt(tx).db)
    ensures Next(RivalAt(tx), RivalAt(tx'), Server(Caller(8), tx'))
  {
    assert RivalAt(tx').workers == RivalAt(tx).workers[Caller(8) := Attempting(SEARCH_LIMIT, [], tx')];
  }

  lemma RivalPicks()
    ensures Next(rivalPath[2], rivalPath[3], Pick(8, 2))
    ensures Next(rivalPath[3], rivalPath[4], Server(Caller(8), AllocLocked(2)))
  {
    RivalMoves(AllocBegun(2), AllocLocked(2));
  }

  lemma RivalQueries()
    ensures Next(rivalPath[4], rivalPath[5], Server(Caller(8), AllocSeen(2, {7, 8})))
  {
    assert WaitingFor(RivalAt(AllocLocked(2)).db, 2) == {7, 8};
    RivalMoves(AllocLocked(2), AllocSeen(2, {7, 8}));
  }

  lemma RivalChooses()
    ensures Next(rivalPath[5], rivalPath[6], Server(Caller(8), AllocChosen(2, 7, {})))
  {
    var s := RivalAt(AllocSeen(2, {7, 8}));
    assert forall r :: !ReferralLocked(s, Caller(8), r);
    assert Selects(s, Caller(8), 2, {7, 8}, 7, {});
    RivalMoves(AllocSeen(2, {7, 8}), AllocChosen(2, 7, {}));
  }

  lemma RivalsFollow()
    ensures Follows(rivalPath, rivalSteps)
  {
    RivalsSubmit();
    RivalPicks();
    RivalQueries();
    RivalChooses();
  }

  /** Referral 7 now sees bed 1 first, and nobody waits for it but itself. */
  lemma RivalsContend()
    ensures Contended(rivalPath[6], 7, 1)
  {
    var s := RivalAt(AllocChosen(2, 7, {}));
    assert TakenBy(s, Caller(8), 7);
    assert !BedLocked(s, Caller(7), 1);
    assert FirstCandidate(s.db, 1, "north", urgent.needs);
  }

  lemma RivalsRun()
    ensures Run(rivalPath) && Contended(Last(rivalPath), 7, 1)
  {
    RivalsSubmit();
    RivalsFollow();
    FollowsIsRun(rivalPath, rivalSteps);
    RivalsContend();
  }

  lemma RivalsEnd()
    ensures var s := CappedEnd(Last(rivalPath), 7);
      NoEvents(s) && s.muted == {} && s.db == rivalPath[2].db && Begun(s, 7) == 500 && 7 in s.capped
    ensures Candidates(rivalPath[1].db, 7) == {1, 2}
  {
  }

  /** With two beds, two calls, no events and no failures, a search uses up its five hundred
      iterations although both beds match its referral and both stay available. */
  lemma TwoBedsFiveHundredIterations()
    ensures exists tr: seq<State> ::
      && Run(tr) && |tr| > 2 && 7 !in tr[0].db.referrals && 7 in tr[1].db.referrals
      && Candidates(tr[1].db, 7) == {1, 2}
      && NoEvents(Last(tr)) && Last(tr).muted == {} && Last(tr).db == tr[2].db
      && Begun(Last(tr), 7) == 500 && 7 in Last(tr).capped
  {
    RivalsRun();
    RivalsEnd();
    ContentionCaps(rivalPath, 7, 1);
    var tr: seq<State> :| Run(tr) && rivalPath <= tr && Last(tr) == CappedEnd(Last(rivalPath), 7);
    assert tr[0] == rivalPath[0] && tr[1] == rivalPath[1] && tr[2] == rivalPath[2];
  }

  // ----- a call that fails -----

  /** A call that fails right after inserting its referral leaves it waiting beside a bed it
      could have, with nothing left to do. */
  lemma AFailedCallStrands()
    ensures exists tr: seq<State>, b: BedId, r: ReferralId ::
      Run(tr) && Quiescent(Last(tr)) && Pair(Last(tr).db, b, r) && NoEvents(Last(tr))
  {
    var s0 := State(TwoBeds(map[]), map[], map[], {}, {}, {});
    var s1 := s0.(db := TwoBeds(map[7 := urgent]), workers := map[Caller(7) := Searching(SEARCH_LIMIT, [])]);
    var s2 := s1.(workers := map[]);
    assert Next(s0, s1, Submit(7, urgent));
    assert s2.workers == s1.workers - {Caller(7)};
    assert Next(s1, s2, Fail(Caller(7)));
    FollowsIsRun([s0, s1, s2], [Submit(7, urgent), Fail(Caller(7))]);
    assert Pair(s2.db, 1, 7) && Last([s0, s1, s2]) == s2;
  }

  // ----- a holder of a bed lock that waits -----

  const report := Event(5, 1, Available, 1)

  /** Referral 7 still pending, or matched with bed 1. */
  function Placed(done: bool): Database {
    var db := TwoBeds(map[7 := urgent, 8 := petOwner]);
    if done then Reserve(db, 1, 7) else db
  }

  /** Both calls and the consumer at work. */
  function Trio(done: bool, p: Proc, q: Proc, c: Proc): State {
    State(Placed(done), map[Caller(7) := p, Caller(8) := q, Consumer(0) := c],
          map[0 := Partition([Status(report)], 0, 0, 0, {})], {}, {}, {})
  }

  function Own(tx: Tx): Proc { Attempting(SEARCH_LIMIT, [], tx) }

  const idle := Searching(SEARCH_LIMIT, [])
  const seenBoth := Own(AllocSeen(2, {7, 8}))
  const won := Own(AllocDone(Some(Award(0, AllocationResult(1, 0, 7)))))
  const keeper := Own(AllocChosen(2, 8, {7}))

  lemma MovesOf7(done: bool, done': bool, q: Proc, c: Proc, tx: Tx, tx': Tx)
    requires AllocStatement(Trio(done, Own(tx), q, c), Caller(7), tx, tx', Placed(done'))
    ensures Next(Trio(done, Own(tx), q, c), Trio(done', Own(tx'), q, c), Server(Caller(7), tx'))
  {
    var s, s' := Trio(done, Own(tx), q, c), Trio(done', Own(tx'), q, c);
    assert s'.workers == s.workers[Caller(7) := Own(tx')];
  }

  lemma MovesOf8(done: bool, p: Proc, c: Proc, tx: Tx, tx': Tx)
    requires AllocStatement(Trio(done, p, Own(tx), c), Caller(8), tx, tx', Placed(done))
    ensures Next(Trio(done, p, Own(tx), c), Trio(done, p, Own(tx'), c), Server(Caller(8), tx'))
  {
    var s, s' := Trio(done, p, Own(tx), c), Trio(done, p, Own(tx'), c);
    assert s'.workers == s.workers[Caller(8) := Own(tx')];
  }

  lemma MovesOfConsumer(done: bool, p: Proc, q: Proc, tx: Tx, tx': Tx)
    requires ApplyStatement(Trio(done, p, q, Applying(report, tx)), Consumer(0), tx, tx', Placed(done))
    ensures Next(Trio(done, p, q, Applying(report, tx)), Trio(done, p, q, Applying(report, tx')), Server(Consumer(0), tx'))
  {
    var s, s' := Trio(done, p, q, Applying(report, tx)), Trio(done, p, q, Applying(report, tx'));
    assert s'.workers == s.workers[Consumer(0) := Applying(report, tx')];
  }

  lemma TrioLocks(done: bool, p: Proc, q: Proc, c: Proc, w: Worker)
    requires w in Trio(done, p, q, c).workers
    ensures var s := Trio(done, p, q, c);
      && (forall b :: BedLocked(s, w, b) ==>
            HeldBed(TxOf(p)) == Some(b) || HeldBed(TxOf(q)) == Some(b) || HeldBed(TxOf(c)) == Some(b))
      && (forall x :: ReferralLocked(s, w, x) ==>
            || (w != Caller(7) && x in HeldReferrals(TxOf(p)))
            || (w != Caller(8) && x in HeldReferrals(TxOf(q)))
            || (w != Consumer(0) && x in HeldReferrals(TxOf(c))))
  {
    var s := Trio(done, p, q, c);
    assert forall o :: o in s.workers ==> o == Caller(7) || o == Caller(8) || o == Consumer(0);
  }

  // .. both referrals arrive, and the second call's query takes its snapshot for bed 2 ..

  const trioStart := Trio(false, idle, idle, Polling).(db := TwoBeds(map[]), workers := map[Consumer(0) := Polling])
  const trioFirst := Trio(false, idle, idle, Polling).(
    db := TwoBeds(map[7 := urgent]), workers := map[Consumer(0) := Polling, Caller(7) := idle])

  lemma FirstArrives()
    ensures Init(trioStart) && Next(trioStart, trioFirst, Submit(7, urgent))
  {
    assert trioFirst.workers == trioStart.workers[Caller(7) := idle];
  }

  lemma SecondArrives()
    ensures Next(trioFirst, Trio(false, idle, idle, Polling), Submit(8, petOwner))
  {
    assert map[7 := urgent][8 := petOwner] == map[7 := urgent, 8 := petOwner];
    assert Trio(false, idle, idle, Polling).workers == trioFirst.workers[Caller(8) := idle];
  }

  lemma Picks2()
    ensures Next(Trio(false, idle, idle, Polling), Trio(false, idle, Own(AllocBegun(2)), Polling), Pick(8, 2))
  {
    var s, s' := Trio(false, idle, idle, Polling), Trio(false, idle, Own(AllocBegun(2)), Polling);
    assert s'.workers == s.workers[Caller(8) := Own(AllocBegun(2))];
    assert FirstCandidate(s.db, 2, "north", petOwner.needs);
  }

  lemma Locks2()
    ensures Next(Trio(false, idle, Own(AllocBegun(2)), Polling), Trio(false, idle, Own(AllocLocked(2)), Polling),
                 Server(Caller(8), AllocLocked(2)))
  {
    TrioLocks(false, idle, Own(AllocBegun(2)), Polling, Caller(8));
    MovesOf8(false, idle, Polling, AllocBegun(2), AllocLocked(2));
  }

  lemma SnapshotOfBoth()
    ensures Next(Trio(false, idle, Own(AllocLocked(2)), Polling), Trio(false, idle, seenBoth, Polling),
                 Server(Caller(8), AllocSeen(2, {7, 8})))
  {
    assert WaitingFor(Placed(false), 2) == {7, 8};
    MovesOf8(false, idle, Polling, AllocLocked(2), AllocSeen(2, {7, 8}));
  }

  // .. the first call matches its referral with bed 1 ..

  lemma Picks1()
    ensures Next(Trio(false, idle, seenBoth, Polling), Trio(false, Own(AllocBegun(1)), seenBoth, Polling), Pick(7, 1))
  {
    var s, s' := Trio(false, idle, seenBoth, Polling), Trio(false, Own(AllocBegun(1)), seenBoth, Polling);
    assert s'.workers == s.workers[Caller(7) := Own(AllocBegun(1))];
    assert FirstCandidate(s.db, 1, "north", urgent.needs);
  }

  lemma Locks1()
    ensures Next(Trio(false, Own(AllocBegun(1)), seenBoth, Polling), Trio(false, Own(AllocLocked(1)), seenBoth, Polling),
                 Server(Caller(7), AllocLocked(1)))
  {
    TrioLocks(false, Own(AllocBegun(1)), seenBoth, Polling, Caller(7));
    MovesOf7(false, false, seenBoth, Polling, AllocBegun(1), AllocLocked(1));
  }

  lemma SnapshotOfFirst()
    ensures Next(Trio(false, Own(AllocLocked(1)), seenBoth, Polling), Trio(false, Own(AllocSeen(1, {7})), seenBoth, Polling),
                 Server(Caller(7), AllocSeen(1, {7})))
  {
    assert WaitingFor(Placed(false), 1) == {7};
    MovesOf7(false, false, seenBoth, Polling, AllocLocked(1), AllocSeen(1, {7}));
  }

  lemma FirstIsChosen()
    ensures Next(Trio(false, Own(AllocSeen(1, {7})), seenBoth, Polling),
                 Trio(false, Own(AllocChosen(1, 7, {})), seenBoth, Polling), Server(Caller(7), AllocChosen(1, 7, {})))
  {
    TrioLocks(false, Own(AllocSeen(1, {7})), seenBoth, Polling, Caller(7));
    assert Selects(Trio(false, Own(AllocSeen(1, {7})), seenBoth, Polling), Caller(7), 1, {7}, 7, {});
    MovesOf7(false, false, seenBoth, Polling, AllocSeen(1, {7}), AllocChosen(1, 7, {}));
  }

  lemma FirstIsWritten()
    ensures Next(Trio(false, Own(AllocChosen(1, 7, {})), seenBoth, Polling),
                 Trio(false, Own(AllocWritten(1, 7, {})), seenBoth, Polling), Server(Caller(7), AllocWritten(1, 7, {})))
  {
    MovesOf7(false, false, seenBoth, Polling, AllocChosen(1, 7, {}), AllocWritten(1, 7, {}));
  }

  lemma FirstIsMatched()
    ensures Next(Trio(false, Own(AllocWritten(1, 7, {})), seenBoth, Polling),
                 Trio(true, won, seenBoth, Polling), Server(Caller(7), TxOf(won)))
  {
    MovesOf7(false, true, seenBoth, Polling, AllocWritten(1, 7, {}), TxOf(won));
  }

  // .. the second call meets it in its snapshot and keeps its lock ..

  lemma SecondStumbles()
    ensures Selects(Trio(true, won, seenBoth, Polling), Caller(8), 2, {7, 8}, 8, {7})
  {
    var s := Trio(true, won, seenBoth, Polling);
    TrioLocks(true, won, seenBoth, Polling, Caller(8));
    assert s.db.referrals == map[7 := urgent.(status := ReferralStatus.Matched), 8 := petOwner];
    assert Stumbles(s, Caller(8), 2, {7, 8}, 7) && !Stumbles(s, Caller(8), 2, {7, 8}, 8);
    assert Selectable(s, Caller(8), 2, {7, 8}, 8);
  }

  lemma LockIsKept()
    ensures Next(Trio(true, won, seenBoth, Polling), Trio(true, won, keeper, Polling), Server(Caller(8), TxOf(keeper)))
  {
    SecondStumbles();
    MovesOf8(true, won, Polling, AllocSeen(2, {7, 8}), AllocChosen(2, 8, {7}));
  }

  // .. and the consumer locks bed 1 and releases its reservation.

  function Reporting(tx: Tx): State {
    Trio(true, won, keeper, Applying(report, tx))
  }

  lemma EventIsPolled()
    ensures Next(Trio(true, won, keeper, Polling), Reporting(ApplyBegun(report)), Poll(0))
  {
    var s, s' := Trio(true, won, keeper, Polling), Reporting(ApplyBegun(report));
    assert s'.workers == s.workers[Consumer(0) := Applying(report, ApplyBegun(report))];
  }

  lemma EventIsInserted()
    ensures Next(Reporting(ApplyBegun(report)), Reporting(ApplyInserted(report)), Server(Consumer(0), ApplyInserted(report)))
  {
    MovesOfConsumer(true, won, keeper, ApplyBegun(report), ApplyInserted(report));
  }

  lemma BedIsLocked()
    ensures Next(Reporting(ApplyInserted(report)), Reporting(ApplyLocked(report)), Server(Consumer(0), ApplyLocked(report)))
  {
    TrioLocks(true, won, keeper, Applying(report, ApplyInserted(report)), Consumer(0));
    MovesOfConsumer(true, won, keeper, ApplyInserted(report), ApplyLocked(report));
  }

  lemma BedIsReleased()
    ensures Next(Reporting(ApplyLocked(report)), Reporting(ApplyUpdated(report, {0}, Some(7))),
                 Server(Consumer(0), ApplyUpdated(report, {0}, Some(7))))
  {
    var rows := Placed(true).reservations;
    assert rows == [ReservationRow(1, 7, Active)];
    assert Touches(rows[0], report) && FirstReleased(rows, report) == Some(7);
    assert Hit(Placed(true), report) == {0};
    MovesOfConsumer(true, won, keeper, ApplyLocked(report), ApplyUpdated(report, {0}, Some(7)));
  }

  lemma BothArrive() returns (tr: seq<State>)
    ensures Run(tr) && Last(tr) == Trio(false, idle, idle, Polling)
  {
    FirstArrives();
    SecondArrives();
    tr := [trioStart, trioFirst, Trio(false, idle, idle, Polling)];
    FollowsIsRun(tr, [Submit(7, urgent), Submit(8, petOwner)]);
  }

  lemma SecondLooks(tr: seq<State>) returns (tr': seq<State>)
    requires Run(tr) && Last(tr) == Trio(false, idle, idle, Polling)
    ensures Run(tr') && Last(tr') == Trio(false, idle, seenBoth, Polling)
  {
    Picks2();
    Locks2();
    SnapshotOfBoth();
    var path := [Trio(false, idle, idle, Polling),
                 Trio(false, idle, Own(AllocBegun(2)), Polling),
                 Trio(false, idle, Own(AllocLocked(2)), Polling),
                 Trio(false, idle, seenBoth, Polling)];
    RunExtends(tr, path, [Pick(8, 2), Server(Caller(8), AllocLocked(2)), Server(Caller(8), AllocSeen(2, {7, 8}))]);
    tr' := tr + path[1..];
  }

  lemma FirstLooks(tr: seq<State>) returns (tr': seq<State>)
    requires Run(tr) && Last(tr) == Trio(false, idle, seenBoth, Polling)
    ensures Run(tr') && Last(tr') == Trio(false, Own(AllocSeen(1, {7})), seenBoth, Polling)
  {
    Picks1();
    Locks1();
    SnapshotOfFirst();
    var path := [Trio(false, idle, seenBoth, Polling),
                 Trio(false, Own(AllocBegun(1)), seenBoth, Polling),
                 Trio(false, Own(AllocLocked(1)), seenBoth, Polling),
                 Trio(false, Own(AllocSeen(1, {7})), seenBoth, Polling)];
    RunExtends(tr, path, [Pick(7, 1), Server(Caller(7), AllocLocked(1)), Server(Caller(7), AllocSeen(1, {7}))]);
    tr' := tr + path[1..];
  }

  lemma FirstWins(tr: seq<State>) returns (tr': seq<State>)
    requires Run(tr) && Last(tr) == Trio(false, Own(AllocSeen(1, {7})), seenBoth, Polling)
    ensures Run(tr') && Last(tr') == Trio(true, won, seenBoth, Polling)
  {
    FirstIsChosen();
    FirstIsWritten();
    FirstIsMatched();
    var path := [Trio(false, Own(AllocSeen(1, {7})), seenBoth, Polling),
                 Trio(false, Own(AllocChosen(1, 7, {})), seenBoth, Polling),
                 Trio(false, Own(AllocWritten(1, 7, {})), seenBoth, Polling),
                 Trio(true, won, seenBoth, Polling)];
    RunExtends(tr, path, [Server(Caller(7), AllocChosen(1, 7, {})), Server(Caller(7), AllocWritten(1, 7, {})), Server(Caller(7), TxOf(won))]);
    tr' := tr + path[1..];
  }

  lemma EventBegins(tr: seq<State>) returns (tr': seq<State>)
    requires Run(tr) && Last(tr) == Trio(true, won, seenBoth, Polling)
    ensures Run(tr') && Last(tr') == Reporting(ApplyBegun(report))
  {
    LockIsKept();
    EventIsPolled();
    var path := [Trio(true, won, seenBoth, Polling),
                 Trio(true, won, keeper, Polling),
                 Reporting(ApplyBegun(report))];
    RunExtends(tr, path, [Server(Caller(8), TxOf(keeper)), Poll(0)]);
    tr' := tr + path[1..];
  }

  lemma EventReleases(tr: seq<State>) returns (tr': seq<State>)
    requires Run(tr) && Last(tr) == Reporting(ApplyBegun(report))
    ensures Run(tr') && Last(tr') == Reporting(ApplyUpdated(report, {0}, Some(7)))
  {
    EventIsInserted();
    BedIsLocked();
    BedIsReleased();
    var path := [Reporting(ApplyBegun(report)),
                 Reporting(ApplyInserted(report)),
                 Reporting(ApplyLocked(report)),
                 Reporting(ApplyUpdated(report, {0}, Some(7)))];
    RunExtends(tr, path, [Server(Consumer(0), ApplyInserted(report)), Server(Consumer(0), ApplyLocked(report)), Server(Consumer(0), ApplyUpdated(report, {0}, Some(7)))]);
    tr' := tr + path[1..];
  }

  lemma FirstHalf() returns (tr: seq<State>)
    ensures Run(tr) && Last(tr) == Trio(true, won, seenBoth, Polling)
  {
    tr := BothArrive();
    tr := SecondLooks(tr);
    tr := FirstLooks(tr);
    tr := FirstWins(tr);
  }

  lemma SecondHalf() returns (tr: seq<State>)
    ensures Run(tr) && Last(tr) == Reporting(ApplyUpdated(report, {0}, Some(7)))
  {
    tr := FirstHalf();
    tr := EventBegins(tr);
    tr := EventReleases(tr);
  }

  /** A transaction that holds a bed can be made to wait: an event re-pends a referral whose row
      an allocation keeps locked after its second check failed. */
  lemma ABedHolderWaits()
    ensures exists tr: seq<State>, w, o ::
      && Run(tr) && w in Last(tr).workers && o in Last(tr).workers
      && HeldBed(TxOf(Last(tr).workers[w])).Some? && WaitsFor(Last(tr), w, o)
  {
    var tr := SecondHalf();
    var s := Reporting(ApplyUpdated(report, {0}, Some(7)));
    assert WaitsFor(s, Consumer(0), Caller(8));
    assert Last(tr) == s;
  }
}
