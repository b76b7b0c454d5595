/** How many iterations a search takes among any number of other workers: at most one for each
    time a matching bed comes on offer, plus one for each attempt that finds everybody waiting
    for its bed in other hands; and nothing bounds the latter but the limit of the loop. */
module Iterations {
  import opened Domain
  import opened Store
  import opened Search
  import opened Machine
  import opened Locking
  import opened Guarantees
  import opened Awards
  import opened Ownership
  import opened Surge

  // ----- attempts that come back empty -----

  /** An attempt ends without a referral exactly if its bed is not available when it is locked,
      or everybody in the query's snapshot who still waits for it is taken by another. */
  lemma EmptyMeansGoneOrTaken(s: State, s': State, w: Worker, tx: Tx)
    requires LockInv(s) && Next(s, s', Server(w, tx))
    ensures var t := TxOf(s.workers[w]);
      && (t.AllocBegun? ==>
            (tx == AllocDone(None) <==> !(t.bed in s.db.beds && s.db.beds[t.bed].status == Available)))
      && (t.AllocSeen? ==>
            (tx.AllocEmpty? <==>
              forall x :: x in t.seen && Waiting(s.db, t.bed, x) ==> exists o :: o != w && TakenBy(s, o, x)))
  {
    var t := TxOf(s.workers[w]);
    if t.AllocSeen? && tx.AllocEmpty? {
      forall x | x in t.seen && Waiting(s.db, t.bed, x) ensures exists o :: o != w && TakenBy(s, o, x) {
        assert !Selectable(s, w, t.bed, t.seen, x);
        PendingLocksAreAllocations(s, w, x);
      }
    }
    assert t.AllocSeen? && tx.AllocChosen? ==> Selectable(s, w, t.bed, t.seen, tx.referral);
  }

  // ----- the bound -----

  /** The beds a search for `r` ranges over. */
  function OnOffer(db: Database, r: ReferralId): set<BedId> {
    if r in db.referrals then Candidates(db, r) else {}
  }

  /** How often a bed has come on offer to `r` so far, those there at its submission included. */
  ghost function Offers(tr: seq<State>, r: ReferralId): nat {
    if |tr| <= 1 then 0
    else Offers(Front(tr), r) + |OnOffer(Last(tr).db, r) - OnOffer(Last(Front(tr)).db, r)|
  }

  /** A query of `r`'s own search that finds nobody. */
  predicate EmptyHanded(s: State, s': State, r: ReferralId) {
    && Caller(r) in s.workers && TxOf(s.workers[Caller(r)]).AllocSeen?
    && Caller(r) in s'.workers && TxOf(s'.workers[Caller(r)]).AllocEmpty?
  }

  ghost function Spins(tr: seq<State>, r: ReferralId): nat {
    if |tr| <= 1 then 0
    else Spins(Front(tr), r) + if EmptyHanded(Last(Front(tr)), Last(tr), r) then 1 else 0
  }

  /** The iterations begun, or over without a bed, and the beds still on offer. */
  function Cost(db: Database, r: ReferralId, p: Proc): int {
    match p
    case Searching(left, _) => SEARCH_LIMIT - left + |OnOffer(db, r)|
    case Attempting(left, _, tx) =>
      SEARCH_LIMIT - left + (match AttemptedBed(tx)
                             case Some(b) => |OnOffer(db, r) + {b}|
                             case None => |OnOffer(db, r)| + 1)
    case _ => 0
  }

  predicate Pace(s: State, r: ReferralId, credit: nat) {
    && (r in s.capped ==> SEARCH_LIMIT <= credit)
    && (Caller(r) in s.workers ==> Cost(s.db, r, s.workers[Caller(r)]) <= credit)
  }

  /** The bed of an attempt that may still succeed. */
  function AttemptedBed(tx: Tx): Option<BedId> {
    match tx
    case AllocBegun(b) => Some(b)
    case AllocLocked(b) => Some(b)
    case AllocSeen(b, _) => Some(b)
    case AllocChosen(b, _, _) => Some(b)
    case AllocWritten(b, _, _) => Some(b)
    case _ => None
  }

  lemma NewOffers(xs: set<BedId>, ys: set<BedId>, extra: set<BedId>)
    ensures |ys + extra| <= |xs + extra| + |ys - xs|
    ensures |ys| <= |xs| + |ys - xs|
  {
    SubsetSize(ys + extra, (xs + extra) + (ys - xs));
    SubsetSize(ys, xs + (ys - xs));
    UnionSize(xs + extra, ys - xs);
    UnionSize(xs, ys - xs);
  }

  lemma UnionSize<T>(xs: set<T>, ys: set<T>)
    ensures |xs + ys| <= |xs| + |ys|
  {
    assert xs + ys == xs + (ys - xs);
    SubsetSize(ys - xs, ys);
  }

  lemma OthersKeepPace(s: State, s': State, step: Step, r: ReferralId, credit: nat)
    requires LockInv(s) && Next(s, s', step) && Actor(step) != Caller(r) && Pace(s, r, credit)
    ensures Pace(s', r, credit + |OnOffer(s'.db, r) - OnOffer(s.db, r)|)
  {
    OthersUntouched(s, s', step, Caller(r));
    CappedByOthers(s, s', step, r);
    var xs, ys := OnOffer(s.db, r), OnOffer(s'.db, r);
    if Caller(r) in s.workers && s.workers[Caller(r)].Attempting? && AttemptedBed(s.workers[Caller(r)].tx).Some? {
      NewOffers(xs, ys, {AttemptedBed(s.workers[Caller(r)].tx).value});
    } else {
      NewOffers(xs, ys, {});
    }
  }

  lemma CappedByOthers(s: State, s': State, step: Step, r: ReferralId)
    requires LockInv(s) && Next(s, s', step) && Actor(step) != Caller(r)
    ensures r in s'.capped ==> r in s.capped
  {
    assert step.Receive? ==> Shape(s, step.w, s.workers[step.w]);
  }

  /** What a statement does for an attempt, and when it takes the bed out of its reach. */
  lemma StatementEffect(s: State, w: Worker, t: Tx, tx: Tx, db': Database)
    requires AllocStatement(s, w, t, tx, db')
    ensures AttemptedBed(tx) == AttemptedBed(t) || AttemptedBed(tx) == None
    ensures AttemptedBed(tx) == AttemptedBed(t) ==> db' == s.db
    ensures tx.AllocSeen? ==> t.AllocLocked? && tx.seen == WaitingFor(s.db, t.bed)
    ensures t.AllocWritten? ==> tx.AllocDone? && tx.award.Some? && tx.award.value.result.referral == t.referral
    ensures AttemptedBed(tx) == None && AttemptedBed(t).Some? ==>
      var b := AttemptedBed(t).value;
      || (t.AllocBegun? && db' == s.db && !(b in s.db.beds && s.db.beds[b].status == Available))
      || (t.AllocSeen? && tx.AllocEmpty? && db' == s.db)
      || (t.AllocWritten? && b in s.db.beds && t.referral in s.db.referrals && db' == Reserve(s.db, b, t.referral))
  {
  }

  /** Its own steps: a statement of its attempt .. */
  lemma StatementCost(s: State, t: Tx, tx: Tx, db': Database, r: ReferralId, left: nat, side: seq<Award>)
    requires AllocStatement(s, Caller(r), t, tx, db')
    ensures Cost(db', r, Attempting(left, side, tx))
         <= Cost(s.db, r, Attempting(left, side, t)) + if t.AllocSeen? && tx.AllocEmpty? then 1 else 0
  {
    StatementEffect(s, Caller(r), t, tx, db');
    if AttemptedBed(tx) != AttemptedBed(t) {
      var b := AttemptedBed(t).value;
      GoneCost(s.db, b, r);
      SubsetSize(OnOffer(s.db, r), OnOffer(s.db, r) + {b});
      if t.AllocWritten? {
        GrantCost(s.db, b, t.referral, r);
      }
    }
  }

  lemma GoneCost(db: Database, b: BedId, r: ReferralId)
    ensures !(b in db.beds && db.beds[b].status == Available) ==> |OnOffer(db, r)| + 1 == |OnOffer(db, r) + {b}|
  {
    assert b in OnOffer(db, r) ==> b in db.beds && db.beds[b].status == Available;
  }

  /** A bed that is given away is no longer on offer. */
  lemma GrantCost(db: Database, b: BedId, x: ReferralId, r: ReferralId)
    requires b in db.beds && x in db.referrals
    ensures |OnOffer(Reserve(db, b, x), r)| + 1 <= |OnOffer(db, r) + {b}|
  {
    var db' := Reserve(db, b, x);
    assert r in db'.referrals ==> r in db.referrals && db'.referrals[r].needs == db.referrals[r].needs
                                  && db'.referrals[r].region == db.referrals[r].region;
    assert OnOffer(db', r) + {b} <= OnOffer(db, r) + {b};
    assert b !in OnOffer(db', r);
    SubsetSize(OnOffer(db', r) + {b}, OnOffer(db, r) + {b});
  }

  lemma OwnStatementKeepsPace(s: State, s': State, tx: Tx, r: ReferralId, credit: nat)
    requires LockInv(s) && Next(s, s', Server(Caller(r), tx)) && Pace(s, r, credit)
    ensures Pace(s', r, credit + if EmptyHanded(s, s', r) then 1 else 0)
  {
    var p := s.workers[Caller(r)];
    assert Shape(s, Caller(r), p);
    StatementCost(s, p.tx, tx, s'.db, r, p.left, p.side);
  }

  /** .. or a step of the loop around it. */
  lemma OwnLoopKeepsPace(s: State, s': State, step: Step, r: ReferralId, credit: nat)
    requires LockInv(s) && Next(s, s', step) && Actor(step) == Caller(r) && !step.Server? && Pace(s, r, credit)
    ensures Pace(s', r, credit + |OnOffer(s'.db, r) - OnOffer(s.db, r)|)
  {
    if step.Submit? {
      assert OnOffer(s'.db, r) - OnOffer(s.db, r) == OnOffer(s'.db, r);
    } else {
      LoopCost(s, s', step, r);
    }
  }

  lemma LoopCost(s: State, s': State, step: Step, r: ReferralId)
    requires LockInv(s) && Next(s, s', step) && Actor(step) == Caller(r) && !step.Server? && !step.Submit?
    ensures s'.db == s.db && Caller(r) in s.workers
    ensures Caller(r) in s'.workers ==>
      var cost := Cost(s'.db, r, s'.workers[Caller(r)]);
      cost <= Cost(s.db, r, s.workers[Caller(r)]) || cost == 0
    ensures r in s'.capped && r !in s.capped ==> SEARCH_LIMIT <= Cost(s.db, r, s.workers[Caller(r)])
  {
    QuietDatabase(s, s', step);
    match step
    case Receive(w) => assert Shape(s, w, s.workers[w]);
    case Pick(_, b) => assert OnOffer(s.db, r) + {b} == OnOffer(s.db, r);
    case _ =>
  }

  lemma NextKeepsPace(s: State, s': State, step: Step, r: ReferralId, credit: nat)
    requires LockInv(s) && Next(s, s', step) && Pace(s, r, credit)
    ensures Pace(s', r, credit + |OnOffer(s'.db, r) - OnOffer(s.db, r)| + if EmptyHanded(s, s', r) then 1 else 0)
  {
    if Actor(step) != Caller(r) {
      OthersKeepPace(s, s', step, r, credit);
    } else if step.Server? {
      OwnStatementKeepsPace(s, s', step.tx, r, credit);
    } else {
      OwnLoopKeepsPace(s, s', step, r, credit);
    }
  }

  lemma {:induction false} RunKeepsPace(tr: seq<State>, r: ReferralId)
    requires Run(tr)
    ensures Pace(Last(tr), r, Offers(tr, r) + Spins(tr, r))
  {
    if |tr| > 1 {
      RunFront(tr);
      RunKeepsPace(Front(tr), r);
      RunKeepsLocks(Front(tr));
      var step :| Next(Last(Front(tr)), Last(tr), step);
      NextKeepsPace(Last(Front(tr)), Last(tr), step, r, Offers(Front(tr), r) + Spins(Front(tr), r));
    }
  }

  /** The iterations a search has begun; all of them once it is capped. */
  function Begun(s: State, r: ReferralId): int {
    if r in s.capped then SEARCH_LIMIT
    else if Caller(r) !in s.workers then 0
    else match s.workers[Caller(r)]
         case Searching(left, _) => SEARCH_LIMIT - left
         case Attempting(left, _, _) => SEARCH_LIMIT - left + 1
         case _ => 0
  }

  /** Over every run, events and failures included: a search begins at most one iteration for
      each time a matching bed comes on offer to it, and one for each of its own queries that
      finds nobody. */
  lemma IterationsAreBounded(tr: seq<State>, r: ReferralId)
    requires Run(tr)
    ensures Begun(Last(tr), r) <= Offers(tr, r) + Spins(tr, r)
  {
    RunKeepsPace(tr, r);
    if Caller(r) in Last(tr).workers && Last(tr).workers[Caller(r)].Attempting? {
      var tx := Last(tr).workers[Caller(r)].tx;
      if AttemptedBed(tx).Some? {
        SubsetSize({AttemptedBed(tx).value}, OnOffer(Last(tr).db, r) + {AttemptedBed(tx).value});
      }
    }
  }

  /** .. in particular only a search with that many of them runs into the limit. */
  lemma CapMeansFiveHundred(tr: seq<State>, r: ReferralId)
    requires Run(tr) && r in Last(tr).capped
    ensures 500 <= Offers(tr, r) + Spins(tr, r)
  {
    RunKeepsPace(tr, r);
  }

  /** Without events the only beds ever on offer are those at the submission. */
  lemma {:induction false} OffersWithoutEvents(tr: seq<State>, k: int, r: ReferralId)
    requires Run(tr) && NoEvents(Last(tr)) && 0 < k < |tr|
    requires r !in tr[k - 1].db.referrals && r in tr[k].db.referrals
    ensures Offers(tr, r) == |OnOffer(tr[k].db, r)| && OnOffer(Last(tr).db, r) <= OnOffer(tr[k].db, r)
    ensures r in Last(tr).db.referrals
  {
    CalmFront(tr);
    var front := Front(tr);
    if k == |tr| - 1 {
      NoOffersBefore(front, r);
      assert OnOffer(Last(tr).db, r) - OnOffer(Last(front).db, r) == OnOffer(tr[k].db, r);
    } else {
      OffersWithoutEvents(front, k, r);
      assert front[k - 1] == tr[k - 1] && front[k] == tr[k];
      var step :| Next(Last(front), Last(tr), step);
      NoNewOffers(Last(front), Last(tr), step, r);
      assert OnOffer(Last(tr).db, r) - OnOffer(Last(front).db, r) == {};
    }
  }

  lemma NoNewOffers(s: State, s': State, step: Step, r: ReferralId)
    requires Calm(s) && Next(s, s', step) && r in s.db.referrals
    ensures OnOffer(s'.db, r) <= OnOffer(s.db, r) && r in s'.db.referrals
  {
    StepIsAtomic(s, s', step);
    NoApplication(s, s', step);
  }

  lemma {:induction false} NoOffersBefore(tr: seq<State>, r: ReferralId)
    requires Run(tr) && r !in Last(tr).db.referrals
    ensures Offers(tr, r) == 0
  {
    if |tr| > 1 {
      RunFront(tr);
      RunKeepsLocks(Front(tr));
      var step :| Next(Last(Front(tr)), Last(tr), step);
      StepIsAtomic(Last(Front(tr)), Last(tr), step);
      NoOffersBefore(Front(tr), r);
      assert OnOffer(Last(tr).db, r) == {};
    }
  }

  // ----- a search that nobody else has in hand -----

  ghost predicate OnlyOwn(s: State, r: ReferralId) {
    forall o :: TakenBy(s, o, r) ==> o == Caller(r)
  }

  /** The search still holds its own referral out to the bed it attempts. */
  predicate InHand(s: State, r: ReferralId) {
    Caller(r) in s.workers && StillSearching(s.workers[Caller(r)], r) ==>
      && r in s.db.referrals && s.db.referrals[r].status == ReferralStatus.Pending
      && var tx := TxOf(s.workers[Caller(r)]);
         && (AttemptedBed(tx).Some? ==>
               AttemptedBed(tx).value in s.db.beds && Suits(s.db.beds[AttemptedBed(tx).value], s.db.referrals[r]))
         && (tx.AllocSeen? ==> r in tx.seen)
  }

  lemma SpinMeansTaken(s: State, s': State, step: Step, r: ReferralId)
    requires LockInv(s) && Next(s, s', step) && InHand(s, r) && EmptyHanded(s, s', r)
    ensures !OnlyOwn(s, r)
  {
    var w := Caller(r);
    assert Shape(s, w, s.workers[w]) && TxInv(s.db, TxOf(s.workers[w]));
    if Actor(step) != w {
      OthersUntouched(s, s', step, w);
    }
    var t := TxOf(s.workers[w]);
    EmptyMeansGoneOrTaken(s, s', w, step.tx);
    FiltersAgree(s.db.beds[t.bed], s.db.referrals[r]);
    assert Waiting(s.db, t.bed, r);
  }

  lemma StatementKeepsHand(s: State, s': State, tx: Tx, r: ReferralId)
    requires LockInv(s) && Next(s, s', Server(Caller(r), tx)) && InHand(s, r)
    ensures InHand(s', r)
  {
    var w := Caller(r);
    assert Shape(s, w, s.workers[w]);
    var t := TxOf(s.workers[w]);
    StatementEffect(s, w, t, tx, s'.db);
    if tx.AllocSeen? && t.bed in s.db.beds && r in s.db.referrals {
      FiltersAgree(s.db.beds[t.bed], s.db.referrals[r]);
    }
  }

  lemma OnlyItsAllocationMatches(db: Database, db': Database, c: Change, r: ReferralId)
    requires Atomic(db, db', c) && r in db.referrals && db.referrals[r].status == ReferralStatus.Pending
    requires c.Allocation? ==> c.r != r
    ensures r in db'.referrals && db'.referrals[r] == db.referrals[r]
  {
  }

  lemma StaysPending(s: State, s': State, step: Step, r: ReferralId)
    requires LockInv(s) && Next(s, s', step) && OnlyOwn(s, r) && Actor(step) != Caller(r)
    requires r in s.db.referrals && s.db.referrals[r].status == ReferralStatus.Pending
    ensures r in s'.db.referrals && s'.db.referrals[r] == s.db.referrals[r]
  {
    StepIsAtomic(s, s', step);
    assert ChangeOf(s, step) == Nothing || step.Submit? || !TakenBy(s, Actor(step), r);
    OnlyItsAllocationMatches(s.db, s'.db, ChangeOf(s, step), r);
  }

  lemma OthersKeepHand(s: State, s': State, step: Step, r: ReferralId)
    requires LockInv(s) && Next(s, s', step) && InHand(s, r) && OnlyOwn(s, r) && Actor(step) != Caller(r)
    ensures InHand(s', r)
  {
    OthersUntouched(s, s', step, Caller(r));
    if Caller(r) in s.workers && StillSearching(s.workers[Caller(r)], r) {
      StaysPending(s, s', step, r);
      StepIsAtomic(s, s', step);
    }
  }

  lemma LoopKeepsHand(s: State, s': State, step: Step, r: ReferralId)
    requires LockInv(s) && Next(s, s', step) && InHand(s, r) && Actor(step) == Caller(r) && !step.Server?
    ensures InHand(s', r)
  {
    assert Caller(r) in s.workers ==> Shape(s, Caller(r), s.workers[Caller(r)]);
    if step.Pick? {
      FiltersAgree(s.db.beds[step.b], s.db.referrals[r]);
    }
  }

  lemma NextKeepsHand(s: State, s': State, step: Step, r: ReferralId)
    requires LockInv(s) && Next(s, s', step) && InHand(s, r) && OnlyOwn(s, r)
    ensures InHand(s', r)
  {
    if Actor(step) != Caller(r) {
      OthersKeepHand(s, s', step, r);
    } else if step.Server? {
      StatementKeepsHand(s, s', step.tx, r);
    } else {
      LoopKeepsHand(s, s', step, r);
    }
  }

  lemma {:induction false} UntakenNeverSpins(tr: seq<State>, r: ReferralId)
    requires Run(tr) && forall j :: 0 <= j < |tr| - 1 ==> OnlyOwn(tr[j], r)
    ensures Spins(tr, r) == 0 && InHand(Last(tr), r)
  {
    if |tr| > 1 {
      RunFront(tr);
      var front := Front(tr);
      assert forall j :: 0 <= j < |front| ==> front[j] == tr[j];
      UntakenNeverSpins(front, r);
      RunKeepsLocks(front);
      var step :| Next(Last(front), Last(tr), step);
      NextKeepsHand(Last(front), Last(tr), step, r);
      if EmptyHanded(Last(front), Last(tr), r) {
        SpinMeansTaken(Last(front), Last(tr), step, r);
      }
    }
  }

  /** The bound of the comment, among any number of other workers: as long as no other
      allocation takes the referral, its search begins at most one iteration for each time a
      matching bed comes on offer, which is, if no events are logged, for each bed that matched
      at its submission. */
  lemma ConcurrentSearchIsBounded(tr: seq<State>, k: int, r: ReferralId)
    requires Run(tr) && 0 < k < |tr|
    requires r !in tr[k - 1].db.referrals && r in tr[k].db.referrals
    requires forall j :: 0 <= j < |tr| - 1 ==> OnlyOwn(tr[j], r)
    ensures Begun(Last(tr), r) <= Offers(tr, r)
    ensures NoEvents(Last(tr)) ==> Begun(Last(tr), r) <= |Candidates(tr[k].db, r)|
  {
    IterationsAreBounded(tr, r);
    UntakenNeverSpins(tr, r);
    if NoEvents(Last(tr)) {
      OffersWithoutEvents(tr, k, r);
    }
  }

  // ----- and one that somebody else has -----

  /** The first bed on offer to the search is free, and everybody waiting for it is taken. */
  ghost predicate Contended(s: State, r: ReferralId, b: BedId) {
    && r in s.db.referrals && FirstCandidate(s.db, b, s.db.referrals[r].region, s.db.referrals[r].needs)
    && !BedLocked(s, Caller(r), b)
    && forall x :: Waiting(s.db, b, x) ==> exists o :: o != Caller(r) && TakenBy(s, o, x)
  }

  /** `t` with the call of `r` at `p`. */
  function At(s: State, r: ReferralId, p: Proc): State {
    s.(workers := s.workers[Caller(r) := p])
  }

  /** A stretch of a run, with its steps. */
  ghost predicate Follows(path: seq<State>, steps: seq<Step>) {
    && |path| == |steps| + 1
    && forall i :: 0 <= i < |steps| ==> Next(path[i], path[i + 1], steps[i])
  }

  /** An iteration that finds nobody: bed picked, locked and found available, snapshot, scan,
      rollback, reply. */
  function SpinSteps(r: ReferralId, b: BedId, seen: set<ReferralId>, kept: set<ReferralId>): seq<Step> {
    var w := Caller(r);
    [Pick(r, b), Server(w, AllocLocked(b)), Server(w, AllocSeen(b, seen)), Server(w, AllocEmpty(b, kept)),
     Server(w, AllocDone(None)), Receive(w)]
  }

  /** .. with nobody else moving meanwhile. */
  ghost predicate Spin(path: seq<State>, r: ReferralId, b: BedId, kept: set<ReferralId>) {
    path != [] && Follows(path, SpinSteps(r, b, WaitingFor(path[0].db, b), kept))
  }

  function SpinPath(s: State, r: ReferralId, b: BedId): seq<State>
    requires Caller(r) in s.workers && s.workers[Caller(r)].Searching? && s.workers[Caller(r)].left > 0
  {
    var (left, side) := (s.workers[Caller(r)].left, s.workers[Caller(r)].side);
    [s,
     At(s, r, Attempting(left, side, AllocBegun(b))),
     At(s, r, Attempting(left, side, AllocLocked(b))),
     At(s, r, Attempting(left, side, AllocSeen(b, WaitingFor(s.db, b)))),
     At(s, r, Attempting(left, side, AllocEmpty(b, {}))),
     At(s, r, Attempting(left, side, AllocDone(None))),
     At(s, r, Searching(left - 1, side))]
  }

  lemma LocksOfOthers(s: State, r: ReferralId, p: Proc)
    ensures forall b :: BedLocked(At(s, r, p), Caller(r), b) <==> BedLocked(s, Caller(r), b)
    ensures forall x :: ReferralLocked(At(s, r, p), Caller(r), x) <==> ReferralLocked(s, Caller(r), x)
  {
    var s', w := At(s, r, p), Caller(r);
    assert forall o :: o != w ==> (o in s'.workers <==> o in s.workers);
    assert forall o :: o != w && o in s.workers ==> s'.workers[o] == s.workers[o];
  }

  lemma Moves(s: State, r: ReferralId, left: nat, side: seq<Award>, tx: Tx, tx': Tx)
    requires AllocStatement(At(s, r, Attempting(left, side, tx)), Caller(r), tx, tx', s.db)
    ensures Next(At(s, r, Attempting(left, side, tx)), At(s, r, Attempting(left, side, tx')), Server(Caller(r), tx'))
  {
    var s0, s1 := At(s, r, Attempting(left, side, tx)), At(s, r, Attempting(left, side, tx'));
    assert s1.workers == s0.workers[Caller(r) := Attempting(left, side, tx')];
  }

  /** The scan of an uninterrupted iteration finds nobody. */
  lemma SpinScan(s: State, r: ReferralId, b: BedId, p: Proc)
    requires Contended(s, r, b)
    ensures AllocStatement(At(s, r, p), Caller(r), AllocSeen(b, WaitingFor(s.db, b)), AllocEmpty(b, {}), s.db)
  {
    var w, seen, s' := Caller(r), WaitingFor(s.db, b), At(s, r, p);
    LocksOfOthers(s, r, p);
    forall x ensures !Selectable(s', w, b, seen, x) && !Stumbles(s', w, b, seen, x) {
      if Waiting(s.db, b, x) {
        var o :| o != w && TakenBy(s, o, x);
        assert ReferralLocked(s, w, x);
      }
    }
  }

  lemma SpinPicks(s: State, r: ReferralId, b: BedId)
    requires Contended(s, r, b)
    requires Caller(r) in s.workers && s.workers[Caller(r)].Searching? && s.workers[Caller(r)].left > 0
    ensures var path := SpinPath(s, r, b);
      Next(path[0], path[1], Pick(r, b)) && Next(path[1], path[2], Server(Caller(r), AllocLocked(b)))
  {
    var (left, side) := (s.workers[Caller(r)].left, s.workers[Caller(r)].side);
    LocksOfOthers(s, r, Attempting(left, side, AllocBegun(b)));
    Moves(s, r, left, side, AllocBegun(b), AllocLocked(b));
  }

  lemma SpinQueries(s: State, r: ReferralId, b: BedId)
    requires Contended(s, r, b)
    requires Caller(r) in s.workers && s.workers[Caller(r)].Searching? && s.workers[Caller(r)].left > 0
    ensures var path, w := SpinPath(s, r, b), Caller(r);
      && Next(path[2], path[3], Server(w, AllocSeen(b, WaitingFor(s.db, b))))
      && Next(path[3], path[4], Server(w, AllocEmpty(b, {})))
  {
    var (left, side) := (s.workers[Caller(r)].left, s.workers[Caller(r)].side);
    var seen := WaitingFor(s.db, b);
    Moves(s, r, left, side, AllocLocked(b), AllocSeen(b, seen));
    SpinScan(s, r, b, Attempting(left, side, AllocSeen(b, seen)));
    Moves(s, r, left, side, AllocSeen(b, seen), AllocEmpty(b, {}));
  }

  lemma SpinEnds(s: State, r: ReferralId, b: BedId)
    requires Caller(r) in s.workers && s.workers[Caller(r)].Searching? && s.workers[Caller(r)].left > 0
    ensures var path, w := SpinPath(s, r, b), Caller(r);
      && Next(path[4], path[5], Server(w, AllocDone(None)))
      && Next(path[5], path[6], Receive(w))
  {
    var (left, side) := (s.workers[Caller(r)].left, s.workers[Caller(r)].side);
    Moves(s, r, left, side, AllocEmpty(b, {}), AllocDone(None));
    var s0 := At(s, r, Attempting(left, side, AllocDone(None)));
    assert At(s, r, Searching(left - 1, side)).workers == s0.workers[Caller(r) := Searching(left - 1, side)];
  }

  lemma SpinPathIsSpin(s: State, r: ReferralId, b: BedId)
    requires Contended(s, r, b)
    requires Caller(r) in s.workers && s.workers[Caller(r)].Searching? && s.workers[Caller(r)].left > 0
    ensures Spin(SpinPath(s, r, b), r, b, {})
  {
    SpinPicks(s, r, b);
    SpinQueries(s, r, b);
    SpinEnds(s, r, b);
  }

  lemma Moved(s: State, r: ReferralId, left: nat, side: seq<Award>, tx: Tx, s': State, tx': Tx)
    requires Next(At(s, r, Attempting(left, side, tx)), s', Server(Caller(r), tx'))
    requires tx.AllocBegun? || tx.AllocLocked?
    ensures s' == At(s, r, Attempting(left, side, tx'))
    ensures AllocStatement(At(s, r, Attempting(left, side, tx)), Caller(r), tx, tx', s.db)
  {
    assert At(At(s, r, Attempting(left, side, tx)), r, Attempting(left, side, tx')) == At(s, r, Attempting(left, side, tx'));
  }

  /** How an uninterrupted empty iteration begins. */
  lemma SpinBegins(s: State, path: seq<State>, r: ReferralId, b: BedId, kept: set<ReferralId>)
    requires Spin(path, r, b, kept) && path[0] == s
    ensures Caller(r) in s.workers && s.workers[Caller(r)].Searching?
    ensures r in s.db.referrals && FirstCandidate(s.db, b, s.db.referrals[r].region, s.db.referrals[r].needs)
    ensures !BedLocked(s, Caller(r), b)
    ensures var p := s.workers[Caller(r)];
      path[3] == At(s, r, Attempting(p.left, p.side, AllocSeen(b, WaitingFor(s.db, b))))
  {
    var steps := SpinSteps(r, b, WaitingFor(s.db, b), kept);
    assert Next(path[0], path[1], steps[0]) && Next(path[1], path[2], steps[1]) && Next(path[2], path[3], steps[2]);
    var (left, side) := (s.workers[Caller(r)].left, s.workers[Caller(r)].side);
    Moved(s, r, left, side, AllocBegun(b), path[2], AllocLocked(b));
    Moved(s, r, left, side, AllocLocked(b), path[3], AllocSeen(b, WaitingFor(s.db, b)));
    LocksOfOthers(s, r, Attempting(left, side, AllocBegun(b)));
  }

  lemma SpinKeepsLocks(path: seq<State>, r: ReferralId, b: BedId, kept: set<ReferralId>)
    requires Spin(path, r, b, kept) && LockInv(path[0])
    ensures LockInv(path[3])
  {
    var steps := SpinSteps(r, b, WaitingFor(path[0].db, b), kept);
    forall i | 0 <= i < 3 ensures Next(path[i], path[i + 1], steps[i]) {
    }
    NextKeepsLocks(path[0], path[1], steps[0]);
    NextKeepsLocks(path[1], path[2], steps[1]);
    NextKeepsLocks(path[2], path[3], steps[2]);
  }

  /** What an uninterrupted empty iteration shows about the state it starts from. */
  lemma SpinIsContended(s: State, path: seq<State>, r: ReferralId, b: BedId, kept: set<ReferralId>)
    requires LockInv(s) && Spin(path, r, b, kept) && path[0] == s
    ensures Contended(s, r, b)
  {
    var w := Caller(r);
    SpinBegins(s, path, r, b, kept);
    SpinKeepsLocks(path, r, b, kept);
    assert Next(path[3], path[4], SpinSteps(r, b, WaitingFor(s.db, b), kept)[3]);
    EmptyMeansGoneOrTaken(path[3], path[4], w, AllocEmpty(b, kept));
    forall x | Waiting(s.db, b, x) ensures exists o :: o != w && TakenBy(s, o, x) {
      var o :| o != w && TakenBy(path[3], o, x);
      assert TakenBy(s, o, x);
    }
  }

  /** Exactly when an uninterrupted iteration of the search finds a bed on offer and comes back
      with nothing: if and only if the bed is unlocked and everybody waiting for it is taken. */
  lemma SpinsIffContended(s: State, r: ReferralId, b: BedId)
    requires LockInv(s) && Caller(r) in s.workers
    requires s.workers[Caller(r)].Searching? && s.workers[Caller(r)].left > 0
    ensures Contended(s, r, b) <==> exists path, kept :: Spin(path, r, b, kept) && path[0] == s
  {
    if Contended(s, r, b) {
      SpinPathIsSpin(s, r, b);
    }
    forall path, kept | Spin(path, r, b, kept) && path[0] == s ensures Contended(s, r, b) {
      SpinIsContended(s, path, r, b, kept);
    }
  }

  lemma RunExtends(tr: seq<State>, path: seq<State>, steps: seq<Step>)
    requires Run(tr) && path != [] && path[0] == Last(tr) && Follows(path, steps)
    ensures Run(tr + path[1..]) && Last(tr + path[1..]) == path[|path| - 1]
  {
    var all, n := tr + path[1..], |tr| - 1;
    forall i | 0 <= i < |all| - 1 ensures Steps(all[i], all[i + 1]) {
      if i < n {
        assert Steps(tr[i], tr[i + 1]);
      } else {
        assert Next(path[i - n], path[i - n + 1], steps[i - n]);
      }
    }
  }

  lemma StaysContended(s: State, r: ReferralId, b: BedId, p: Proc)
    requires Contended(s, r, b)
    ensures Contended(At(s, r, p), r, b)
  {
    LocksOfOthers(s, r, p);
    forall x | Waiting(s.db, b, x) ensures exists o :: o != Caller(r) && TakenBy(At(s, r, p), o, x) {
      var o :| o != Caller(r) && TakenBy(s, o, x);
      assert TakenBy(At(s, r, p), o, x);
    }
  }

  function CappedEnd(s: State, r: ReferralId): State
    requires Caller(r) in s.workers && s.workers[Caller(r)].Searching?
  {
    At(s, r, Resolving(s.workers[Caller(r)].side)).(capped := s.capped + {r})
  }

  /** While others hold on to all who wait for a free bed, a search burns every iteration it has
      left on that one bed, with nothing else happening anywhere. */
  lemma {:induction false} ContentionCaps(tr: seq<State>, r: ReferralId, b: BedId)
    requires Run(tr) && Contended(Last(tr), r, b)
    requires Caller(r) in Last(tr).workers && Last(tr).workers[Caller(r)].Searching?
    ensures exists tr' :: Run(tr') && tr <= tr' && Last(tr') == CappedEnd(Last(tr), r)
    decreases Last(tr).workers[Caller(r)].left
  {
    var s := Last(tr);
    var (left, side) := (s.workers[Caller(r)].left, s.workers[Caller(r)].side);
    if left == 0 {
      CapStep(s, r);
      RunExtends(tr, [s, CappedEnd(s, r)], [CapOut(r)]);
      assert tr <= tr + [s, CappedEnd(s, r)][1..];
    } else {
      SpinOnce(tr, r, b);
      var next := At(s, r, Searching(left - 1, side));
      var more :| Run(more) && tr <= more && Last(more) == next;
      StaysContended(s, r, b, Searching(left - 1, side));
      ContentionCaps(more, r, b);
      assert CappedEnd(next, r).workers == CappedEnd(s, r).workers;
    }
  }

  lemma SpinOnce(tr: seq<State>, r: ReferralId, b: BedId)
    requires Run(tr) && Contended(Last(tr), r, b) && Caller(r) in Last(tr).workers
    requires Last(tr).workers[Caller(r)].Searching? && Last(tr).workers[Caller(r)].left > 0
    ensures var p := Last(tr).workers[Caller(r)];
      exists more :: Run(more) && tr <= more && Last(more) == At(Last(tr), r, Searching(p.left - 1, p.side))
  {
    var path := SpinPath(Last(tr), r, b);
    SpinPathIsSpin(Last(tr), r, b);
    RunExtends(tr, path, SpinSteps(r, b, WaitingFor(Last(tr).db, b), {}));
    assert tr <= tr + path[1..];
  }

  lemma CapStep(s: State, r: ReferralId)
    requires Caller(r) in s.workers && s.workers[Caller(r)].Searching? && s.workers[Caller(r)].left == 0
    ensures Follows([s, CappedEnd(s, r)], [CapOut(r)])
  {
    assert Next(s, CappedEnd(s, r), CapOut(r));
  }
}
