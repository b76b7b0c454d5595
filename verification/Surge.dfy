/** The concurrency test for any number of beds and callers: with no status events about, M
    simultaneous referrals for N beds that suit them all end in exactly min(N, M) matches,
    as many callers are told so, and every answer is exact and final. */
module Surge {
  import opened Domain
  import opened Store
  import opened Search
  import opened Coupling
  import opened Machine
  import opened Locking
  import opened Offsets
  import opened Awards
  import opened Ownership
  import opened Registers
  import opened Answers

  /** Nothing has been logged. */
  ghost predicate NoEvents(s: State) {
    forall p :: p in s.logs ==> s.logs[p].log == []
  }

  ghost predicate Calm(s: State) {
    LockInv(s) && OffsetInv(s) && AwardInv(s) && NoEvents(s)
  }

  lemma NoApplication(s: State, s': State, step: Step)
    requires Calm(s) && Next(s, s', step)
    ensures !ChangeOf(s, step).Application?
  {
    if ChangeOf(s, step).Application? {
      AppliedAtHead(s, s', step);
    }
  }

  lemma NoEventsBefore(s: State, s': State, step: Step)
    requires LockInv(s) && Next(s, s', step) && NoEvents(s')
    ensures NoEvents(s)
  {
    NextLogsGrow(s, s', step);
    forall p | p in s.logs ensures s.logs[p].log == [] {
      assert s.logs[p].log <= s'.logs[p].log;
    }
  }

  lemma CalmFront(tr: seq<State>)
    requires Run(tr) && |tr| > 1 && NoEvents(Last(tr))
    ensures Run(Front(tr)) && Calm(Last(Front(tr))) && Steps(Last(Front(tr)), Last(tr))
  {
    RunFront(tr);
    RunKeepsOffsets(Front(tr));
    RunKeepsAwards(Front(tr));
    var step :| Next(Last(Front(tr)), Last(tr), step);
    NoEventsBefore(Last(Front(tr)), Last(tr), step);
  }

  // ----- exact answers -----

  /** No available bed suits `r` any more. */
  ghost predicate Sated(db: Database, r: ReferralId) {
    r in db.referrals && forall b :: !Candidate(db, b, db.referrals[r].region, db.referrals[r].needs)
  }

  /** A settled answer is true now, and one of `pending` came with no bed left, unless the
      iterations had run out; so did the end of a search. */
  ghost predicate CallExact(s: State, r: ReferralId, p: Proc) {
    && (p.Resolving? ==> r in s.capped || Sated(s.db, r))
    && (Decided(p, r).Some? ==>
          var answer := Decided(p, r).value;
          || (answer.Matched? && True(s.db, r, answer))
          || (answer.Pending? && (r in s.capped || (True(s.db, r, answer) && Sated(s.db, r)))))
  }

  ghost predicate CallsExact(s: State) {
    forall r :: Caller(r) in s.workers ==> CallExact(s, r, s.workers[Caller(r)])
  }

  lemma SatedStays(db: Database, db': Database, c: Change, r: ReferralId)
    requires Atomic(db, db', c) && !c.Application? && Sated(db, r)
    ensures Sated(db', r)
  {
    forall b ensures !Candidate(db', b, db'.referrals[r].region, db'.referrals[r].needs) {
      assert !Candidate(db, b, db.referrals[r].region, db.referrals[r].needs);
    }
  }

  lemma MatchedStays(db: Database, db': Database, c: Change, r: ReferralId, answer: SubmitOutcome)
    requires Atomic(db, db', c) && !c.Application? && answer.Matched? && True(db, r, answer)
    ensures True(db', r, answer)
  {
    var i :| LiveFor(db, i, r) && LiveOn(db, i, answer.result.bed);
    assert LiveFor(db', i, r) && LiveOn(db', i, answer.result.bed);
  }

  lemma PendingStays(db: Database, db': Database, c: Change, r: ReferralId, answer: SubmitOutcome)
    requires Atomic(db, db', c) && !c.Application? && answer.Pending? && True(db, r, answer) && Sated(db, r)
    ensures True(db', r, answer)
  {
    if c.Allocation? {
      assert !Candidate(db, c.b, db.referrals[r].region, db.referrals[r].needs);
      FiltersAgree(db.beds[c.b], db.referrals[r]);
    }
    forall i ensures !LiveFor(db', i, r) {
      assert !LiveFor(db, i, r);
    }
  }

  /** What a call has settled survives any change but an event. */
  lemma ExactStays(s: State, s': State, c: Change, r: ReferralId, p: Proc)
    requires Atomic(s.db, s'.db, c) && !c.Application? && s.capped <= s'.capped
    requires CallExact(s, r, p)
    ensures CallExact(s', r, p)
  {
    if Sated(s.db, r) {
      SatedStays(s.db, s'.db, c, r);
    }
    if Decided(p, r).Some? && True(s.db, r, Decided(p, r).value) {
      if Decided(p, r).value.Matched? {
        MatchedStays(s.db, s'.db, c, r, Decided(p, r).value);
      } else if Sated(s.db, r) {
        PendingStays(s.db, s'.db, c, r, Decided(p, r).value);
      }
    }
  }

  lemma CappedGrows(s: State, s': State, step: Step)
    requires LockInv(s) && Next(s, s', step)
    ensures s.capped <= s'.capped
  {
    if step.Receive? {
      assert Shape(s, step.w, s.workers[step.w]);
    }
  }

  /** How a call reaches the end of its search. */
  lemma ReachesResolving(s: State, s': State, step: Step, r: ReferralId)
    requires Calm(s) && Next(s, s', step) && Actor(step) == Caller(r)
    requires Caller(r) in s'.workers && s'.workers[Caller(r)].Resolving?
    ensures r in s'.capped || Sated(s'.db, r)
  {
    assert Caller(r) in s.workers ==> Shape(s, Caller(r), s.workers[Caller(r)]);
  }

  lemma SettlesPending(s: State, s': State, step: Step, r: ReferralId)
    requires Calm(s) && Next(s, s', step) && Actor(step) == Caller(r) && Caller(r) in s'.workers
    requires Caller(r) in s.workers ==> Decided(s.workers[Caller(r)], r) == None
    requires Decided(s'.workers[Caller(r)], r).Some? && Decided(s'.workers[Caller(r)], r).value.Pending?
    ensures step.Resolve? && Caller(r) in s.workers && s.workers[Caller(r)].Resolving?
  {
    assert Caller(r) in s.workers ==> Shape(s, Caller(r), s.workers[Caller(r)]);
  }

  lemma OwnStep(s: State, s': State, step: Step, r: ReferralId)
    requires Calm(s) && CallsExact(s) && Next(s, s', step) && Actor(step) == Caller(r) && Caller(r) in s'.workers
    ensures CallExact(s', r, s'.workers[Caller(r)])
  {
    StepIsAtomic(s, s', step);
    NoApplication(s, s', step);
    CappedGrows(s, s', step);
    var p' := s'.workers[Caller(r)];
    if p'.Resolving? {
      ReachesResolving(s, s', step, r);
    }
    if Decided(p', r).Some? {
      if Caller(r) in s.workers && Decided(s.workers[Caller(r)], r).Some? {
        AnswerStands(s, s', step, r);
        ExactStays(s, s', ChangeOf(s, step), r, s.workers[Caller(r)]);
      } else {
        SettledTruly(s, s', step, r);
        if Decided(p', r).value.Pending? {
          SettlesPending(s, s', step, r);
          QuietDatabase(s, s', step);
        }
      }
    }
  }

  lemma NextKeepsCalls(s: State, s': State, step: Step)
    requires Calm(s) && CallsExact(s) && Next(s, s', step)
    ensures CallsExact(s')
  {
    StepIsAtomic(s, s', step);
    NoApplication(s, s', step);
    CappedGrows(s, s', step);
    forall r | Caller(r) in s'.workers ensures CallExact(s', r, s'.workers[Caller(r)]) {
      if Caller(r) == Actor(step) {
        OwnStep(s, s', step, r);
      } else {
        OthersUntouched(s, s', step, Caller(r));
        ExactStays(s, s', ChangeOf(s, step), r, s.workers[Caller(r)]);
      }
    }
  }

  lemma {:induction false} RunKeepsCalls(tr: seq<State>)
    requires Run(tr) && NoEvents(Last(tr))
    ensures CallsExact(Last(tr))
  {
    if |tr| > 1 {
      CalmFront(tr);
      RunKeepsCalls(Front(tr));
      var step :| Next(Last(Front(tr)), Last(tr), step);
      NextKeepsCalls(Last(Front(tr)), Last(tr), step);
    }
  }

  /** From any start and with any failures about, as long as nothing is logged: an answer, once
      given, stays exactly what the database says; only one of `pending` given after the
      iterations ran out may not. */
  lemma AnswersAreExact(tr: seq<State>, r: ReferralId)
    requires Run(tr) && NoEvents(Last(tr))
    requires Caller(r) in Last(tr).workers && Last(tr).workers[Caller(r)].Answered?
    requires Last(tr).workers[Caller(r)].outcome.Matched? || r !in Last(tr).capped
    ensures True(Last(tr).db, r, Last(tr).workers[Caller(r)].outcome)
  {
    RunKeepsCalls(tr);
  }

  // ----- nobody is dropped -----

  /** No search has run out, and every referral's call is there, so none has failed. */
  ghost predicate AllThere(s: State) {
    s.capped == {} && forall r :: r in s.db.referrals ==> Caller(r) in s.workers
  }

  lemma AllThereBefore(s: State, s': State, step: Step)
    requires LockInv(s) && Next(s, s', step) && AllThere(s')
    ensures AllThere(s)
  {
    CappedGrows(s, s', step);
    StepIsAtomic(s, s', step);
    forall r | r in s.db.referrals ensures Caller(r) in s.workers {
      assert Caller(r) in s'.workers;
      if Actor(step) != Caller(r) {
        OthersUntouched(s, s', step, Caller(r));
      }
    }
  }

  lemma ConsumersIdle(s: State, p: PartitionId)
    requires Calm(s) && p in s.logs
    ensures Consumer(p) in s.workers && s.workers[Consumer(p)].Polling?
  {
    assert ConsumerInv(s.db, s.logs[p], s.workers[Consumer(p)]);
  }

  lemma FailDropsNobody(s: State, s': State, w: Worker, r: ReferralId)
    requires Calm(s) && Next(s, s', Fail(w)) && AllThere(s')
    ensures !Drops(s, Fail(w), r)
  {
    assert Shape(s, w, s.workers[w]);
    assert forall x :: x in s.db.referrals ==> Caller(x) in s'.workers;
    if w.Consumer? {
      ConsumersIdle(s, w.partition);
    }
  }

  lemma StepDropsNobody(s: State, s': State, step: Step, r: ReferralId)
    requires Calm(s) && Next(s, s', step) && AllThere(s')
    ensures !Drops(s, step, r)
  {
    match step
    case Server(_, _) => NoApplication(s, s', step);
    case Fail(w) => FailDropsNobody(s, s', w, r);
    case Crash(p) => ConsumersIdle(s, p);
    case _ =>
  }

  lemma {:induction false} NobodyDropped(tr: seq<State>, k: int, r: ReferralId)
    requires Run(tr) && NoEvents(Last(tr)) && AllThere(Last(tr)) && 0 <= k < |tr| - 1
    ensures !Dropped(tr[k], tr[k + 1], r)
  {
    CalmFront(tr);
    var s, s' := Last(Front(tr)), Last(tr);
    if k == |tr| - 2 {
      forall step | Next(s, s', step) ensures !Drops(s, step, r) {
        StepDropsNobody(s, s', step, r);
      }
    } else {
      var step :| Next(s, s', step);
      AllThereBefore(s, s', step);
      NobodyDropped(Front(tr), k, r);
      assert Front(tr)[k] == tr[k] && Front(tr)[k + 1] == tr[k + 1];
    }
  }

  // ----- the counts -----

  /** Before the first referral. */
  ghost predicate Empty(db: Database) {
    db.referrals == map[] && db.reservations == []
  }

  /** Without events beds only go from available to reserved, each with its active row, and
      nothing is ever released. */
  ghost predicate OnlyGrants(db: Database, base: BedTable) {
    && db.beds.Keys == base.Keys
    && (forall i :: 0 <= i < |db.reservations| ==>
          && db.reservations[i].status == Active && db.reservations[i].bed in base
          && base[db.reservations[i].bed].status == Available)
    && (forall b :: b in base ==>
          || db.beds[b] == base[b]
          || (base[b].status == Available && db.beds[b] == base[b].(status := BedStatus.Reserved)
              && exists i :: ActiveOn(db, i, b)))
    && (forall r :: r in db.referrals ==>
          db.referrals[r].status in {ReferralStatus.Pending, ReferralStatus.Matched})
  }

  lemma GrantsOnly(db: Database, db': Database, c: Change, base: BedTable)
    requires OnlyGrants(db, base) && Atomic(db, db', c) && !c.Application?
    ensures OnlyGrants(db', base)
  {
    forall b | b in base
      ensures db'.beds[b] == base[b]
              || (base[b].status == Available && db'.beds[b] == base[b].(status := BedStatus.Reserved)
                  && exists i :: ActiveOn(db', i, b))
    {
      if c.Allocation? && c.b == b {
        assert ActiveOn(db', |db.reservations|, b);
      } else if db.beds[b] != base[b] {
        var i :| ActiveOn(db, i, b);
        assert ActiveOn(db', i, b);
      }
    }
  }

  lemma {:induction false} RunOnlyGrants(tr: seq<State>)
    requires Run(tr) && Empty(tr[0].db) && NoEvents(Last(tr))
    ensures OnlyGrants(Last(tr).db, tr[0].db.beds)
  {
    if |tr| > 1 {
      CalmFront(tr);
      RunOnlyGrants(Front(tr));
      var s, s' := Last(Front(tr)), Last(tr);
      var step :| Next(s, s', step);
      StepIsAtomic(s, s', step);
      NoApplication(s, s', step);
      GrantsOnly(s.db, s'.db, ChangeOf(s, step), tr[0].db.beds);
    }
  }

  /** Every call has returned without an error and without using up its iterations. */
  ghost predicate AllReturned(s: State) {
    AllThere(s) && forall r :: Caller(r) in s.workers ==> s.workers[Caller(r)].Answered?
  }

  lemma CalmIsQuiet(s: State)
    requires Calm(s) && AllReturned(s)
    ensures Quiescent(s)
  {
    forall p | p in s.logs
      ensures s.logs[p].sent == |s.logs[p].log| && Consumer(p) in s.workers && s.workers[Consumer(p)].Polling?
    {
      ConsumersIdle(s, p);
    }
  }

  lemma NobodyLeft(tr: seq<State>, b: BedId, r: ReferralId)
    requires Run(tr) && NoEvents(Last(tr)) && AllReturned(Last(tr))
    ensures !Pair(Last(tr).db, b, r)
  {
    RunKeepsOffsets(tr);
    RunKeepsAwards(tr);
    CalmIsQuiet(Last(tr));
    forall k | 0 <= k < |tr| - 1 ensures !Dropped(tr[k], tr[k + 1], r) {
      NobodyDropped(tr, k, r);
    }
    UndroppedMeansMatched(tr, b, r);
  }

  function AvailableBeds(db: Database): set<BedId> {
    set b | b in db.beds && db.beds[b].status == Available
  }

  function PendingReferrals(db: Database): set<ReferralId> {
    set r | r in db.referrals && db.referrals[r].status == ReferralStatus.Pending
  }

  /** The callers told that they have a bed, and those told that they have none. */
  function ToldMatched(s: State): set<ReferralId> {
    set r | r in s.db.referrals && Caller(r) in s.workers
            && s.workers[Caller(r)].Answered? && s.workers[Caller(r)].outcome.Matched?
  }

  function ToldPending(s: State): set<ReferralId> {
    set r | r in s.db.referrals && Caller(r) in s.workers
            && s.workers[Caller(r)].Answered? && s.workers[Caller(r)].outcome.Pending?
  }

  /** Beds on offer at the start are now on offer or held. */
  lemma BedTally(db: Database, start: Database)
    requires Valid(db) && OnlyGrants(db, start.beds)
    ensures |AvailableBeds(start)| == |AvailableBeds(db)| + |HeldBeds(db)|
  {
    var avail, held := AvailableBeds(db), HeldBeds(db);
    forall b | b in AvailableBeds(start) ensures b in avail + held {
      if db.beds[b] != start.beds[b] {
        var i :| ActiveOn(db, i, b);
        assert i in LiveRows(db);
      }
    }
    HeldWereAvailable(db, start);
    forall b | b in avail ensures b in AvailableBeds(start) {
      assert b in start.beds;
    }
    assert AvailableBeds(start) == avail + held;
    DisjointUnionSize(avail, held);
  }

  lemma HeldWereAvailable(db: Database, start: Database)
    requires Valid(db) && OnlyGrants(db, start.beds)
    ensures forall b :: b in HeldBeds(db) ==> b in AvailableBeds(start) && b !in AvailableBeds(db)
  {
    forall b | b in HeldBeds(db) ensures b in AvailableBeds(start) && b !in AvailableBeds(db) {
      var i :| i in LiveRows(db) && db.reservations[i].bed == b;
    }
  }

  lemma ReferralTally(db: Database)
    requires forall r :: r in db.referrals ==>
      db.referrals[r].status == ReferralStatus.Pending || db.referrals[r].status == ReferralStatus.Matched
    ensures |db.referrals| == |PendingReferrals(db)| + |MatchedReferrals(db)|
  {
    var waiting, placed := PendingReferrals(db), MatchedReferrals(db);
    forall r | r in db.referrals ensures r in waiting + placed {
      assert db.referrals[r].status == ReferralStatus.Pending || db.referrals[r].status == ReferralStatus.Matched;
    }
    assert db.referrals.Keys == waiting + placed;
    DisjointUnionSize(waiting, placed);
  }

  lemma DisjointUnionSize<T>(xs: set<T>, ys: set<T>)
    requires forall x :: x in xs ==> x !in ys
    ensures |xs + ys| == |xs| + |ys|
  {
  }

  function Min(a: nat, b: nat): nat { if a < b then a else b }

  /** The callers' own answers are the referrals' final states. */
  lemma ToldIsSo(tr: seq<State>)
    requires Run(tr) && Empty(tr[0].db) && NoEvents(Last(tr)) && AllReturned(Last(tr))
    ensures ToldMatched(Last(tr)) == MatchedReferrals(Last(tr).db)
    ensures ToldPending(Last(tr)) == PendingReferrals(Last(tr).db)
  {
    RunOnlyGrants(tr);
    var s := Last(tr);
    forall r | r in s.db.referrals
      ensures r in ToldMatched(s) <==> s.db.referrals[r].status == ReferralStatus.Matched
      ensures r in ToldPending(s) <==> s.db.referrals[r].status == ReferralStatus.Pending
    {
      AnswersAreExact(tr, r);
    }
  }

  /** The generalised concurrency test. */
  lemma ExactlyMinMatched(tr: seq<State>)
    requires Run(tr) && Empty(tr[0].db) && NoEvents(Last(tr)) && AllReturned(Last(tr))
    requires forall b, r :: b in tr[0].db.beds && tr[0].db.beds[b].status == Available && r in Last(tr).db.referrals ==>
      Suits(tr[0].db.beds[b], Last(tr).db.referrals[r])
    ensures var n, m := |AvailableBeds(tr[0].db)|, |Last(tr).db.referrals|;
      && |MatchedReferrals(Last(tr).db)| == |LiveRows(Last(tr).db)| == |HeldBeds(Last(tr).db)| == Min(n, m)
      && |ToldMatched(Last(tr))| == Min(n, m)
      && |ToldPending(Last(tr))| == m - Min(n, m)
  {
    RunKeepsLocks(tr);
    RunOnlyGrants(tr);
    ToldIsSo(tr);
    var db, start := Last(tr).db, tr[0].db;
    BedTally(db, start);
    ReferralTally(db);
    MatchedCount(db);
    forall b, r | b in AvailableBeds(db) ensures r !in PendingReferrals(db) {
      NobodyLeft(tr, b, r);
      if r in db.referrals {
        FiltersAgree(db.beds[b], db.referrals[r]);
      }
    }
    OneIsEmpty(AvailableBeds(db), PendingReferrals(db));
  }

  lemma OneIsEmpty<A, B>(xs: set<A>, ys: set<B>)
    requires forall x, y :: x in xs ==> y !in ys
    ensures xs == {} || ys == {}
  {
  }
}
