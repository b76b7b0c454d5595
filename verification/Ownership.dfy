/** No lost match: in every interleaving, crashes and errors included, somebody still looks
    after each available bed and pending referral that could be matched, or else the two have
    stood side by side without a break since the referral was dropped. */
module Ownership {
  import opened Domain
  import opened Store
  import opened Search
  import opened Machine
  import opened Locking
  import opened Guarantees
  import opened Offsets
  import opened Awards

  // ----- who looks after a pair -----

  /** The call that submitted `r` is still looking for a bed. */
  predicate StillSearching(p: Proc, r: ReferralId) {
    || p.Searching?
    || (p.Attempting?
        && !(p.tx.AllocDone? && p.tx.award.Some? && p.tx.award.value.result.referral == r))
  }

  ghost predicate Searches(s: State, r: ReferralId) {
    Caller(r) in s.workers && StillSearching(s.workers[Caller(r)], r)
  }

  /** The attempt at the consumer's current event has nothing more to offer `r`: it is over,
      or its query does not have `r` in its snapshot. */
  ghost predicate Passed(s: State, p: PartitionId, r: ReferralId) {
    && Consumer(p) in s.workers && s.workers[Consumer(p)].Offering?
    && var tx := s.workers[Consumer(p)].tx;
       tx.AllocDone? || tx.AllocEmpty? || (tx.AllocSeen? && r !in tx.seen)
  }

  /** Record `i` of partition `p` is an event for `b` whose allocation attempt may still pick `r`. */
  ghost predicate ToCome(s: State, p: PartitionId, i: int, b: BedId, r: ReferralId) {
    && p in s.logs && s.logs[p].sent <= i < |s.logs[p].log|
    && s.logs[p].log[i].Status? && s.logs[p].log[i].event.bed == b
    && !(i == s.logs[p].position && Passed(s, p, r))
  }

  ghost predicate Owned(s: State, b: BedId, r: ReferralId) {
    || Searches(s, r)
    || (exists p, i :: ToCome(s, p, i, b, r))
    || (exists o :: TakenBy(s, o, r))
  }

  // ----- how a referral is dropped -----

  /** A step that leaves `r` pending without whoever was looking after it: an event takes its
      bed back, its search runs out of iterations, or an error or crash hits its search or an
      allocation that has taken it. */
  ghost predicate Drops(s: State, step: Step, r: ReferralId) {
    match step
    case CapOut(x) => x == r
    case Server(w, _) =>
      && w in s.workers && Commits(TxOf(s.workers[w])).Application?
      && FirstReleased(s.db.reservations, Commits(TxOf(s.workers[w])).e) == Some(r)
    case Fail(w) =>
      && w in s.workers
      && (r in Chosen(TxOf(s.workers[w])) || (w == Caller(r) && StillSearching(s.workers[w], r)))
    case Crash(p) => Consumer(p) in s.workers && r in Chosen(TxOf(s.workers[Consumer(p)]))
    case _ => false
  }

  ghost predicate Dropped(s: State, s': State, r: ReferralId) {
    exists step :: Next(s, s', step) && Drops(s, step, r)
  }

  /** `r` was dropped at step `k`, and the pair has been there in every state since. */
  ghost predicate DroppedAt(tr: seq<State>, k: int, b: BedId, r: ReferralId) {
    && 0 <= k < |tr| - 1 && Dropped(tr[k], tr[k + 1], r)
    && forall j :: k < j < |tr| ==> Pair(tr[j].db, b, r)
  }

  ghost predicate Excused(tr: seq<State>, b: BedId, r: ReferralId) {
    exists k :: DroppedAt(tr, k, b, r)
  }

  ghost predicate OwnInv(tr: seq<State>)
    requires |tr| > 0
  {
    forall b, r :: Pair(Last(tr).db, b, r) ==> Owned(Last(tr), b, r) || Excused(tr, b, r)
  }

  // ----- steps that leave the database alone -----

  lemma SearchKept(s: State, s': State, step: Step, b: BedId, r: ReferralId)
    requires LockInv(s) && Next(s, s', step) && !step.Server? && !step.Submit?
    requires Pair(s.db, b, r) && Searches(s, r)
    ensures Searches(s', r) || Drops(s, step, r)
  {
    if Actor(step) != Caller(r) {
      OthersUntouched(s, s', step, Caller(r));
    } else {
      FiltersAgree(s.db.beds[b], s.db.referrals[r]);
      assert Candidate(s.db, b, s.db.referrals[r].region, s.db.referrals[r].needs);
      assert Shape(s, Caller(r), s.workers[Caller(r)]);
    }
  }

  lemma ToComeKept(s: State, s': State, step: Step, p: PartitionId, i: int, b: BedId, r: ReferralId)
    requires LockInv(s) && OffsetInv(s) && Next(s, s', step) && !step.Server? && !step.Submit?
    requires b in s.db.beds && ToCome(s, p, i, b, r)
    ensures ToCome(s', p, i, b, r)
  {
    if Actor(step).Caller? {
      CallStepIsAside(s, s', step);
    } else {
      ConsumerStepIsLocal(s, s', step);
      if Actor(step) == Consumer(p) {
        HeadToCome(s, s', step, p, i, b, r);
      }
    }
  }

  /** Only the end of the attempt itself takes a record off a consumer's hands. */
  lemma HeadToCome(s: State, s': State, step: Step, p: PartitionId, i: int, b: BedId, r: ReferralId)
    requires LockInv(s) && OffsetInv(s) && Next(s, s', step) && !step.Server? && Actor(step) == Consumer(p)
    requires b in s.db.beds && ToCome(s, p, i, b, r)
    ensures ToCome(s', p, i, b, r)
  {
    assert LogInv(s.db, s.logs[p]) && ConsumerInv(s.db, s.logs[p], s.workers[Consumer(p)]);
    if step.Receive? {
      assert Shape(s, step.w, s.workers[step.w]);
    }
  }

  lemma TakenKept(s: State, s': State, step: Step, o: Worker, r: ReferralId)
    requires LockInv(s) && Next(s, s', step) && !step.Server? && !step.Submit?
    requires TakenBy(s, o, r)
    ensures TakenBy(s', o, r) || Drops(s, step, r)
  {
    if Actor(step) != o {
      OthersUntouched(s, s', step, o);
    } else {
      assert Shape(s, o, s.workers[o]);
    }
  }

  lemma QuietKeepsOwned(s: State, s': State, step: Step, b: BedId, r: ReferralId)
    requires LockInv(s) && OffsetInv(s) && Next(s, s', step) && !step.Server? && !step.Submit?
    requires Pair(s.db, b, r) && Owned(s, b, r)
    ensures Owned(s', b, r) || Drops(s, step, r)
  {
    if Searches(s, r) {
      SearchKept(s, s', step, b, r);
    } else if exists p, i :: ToCome(s, p, i, b, r) {
      var p, i :| ToCome(s, p, i, b, r);
      ToComeKept(s, s', step, p, i, b, r);
    } else {
      var o :| TakenBy(s, o, r);
      TakenKept(s, s', step, o, r);
    }
  }

  // ----- steps of the transactions -----

  lemma ServerSearches(s: State, s': State, w: Worker, tx: Tx, b: BedId, r: ReferralId)
    requires LockInv(s) && Next(s, s', Server(w, tx)) && Searches(s, r) && Pair(s'.db, b, r)
    ensures Searches(s', r)
  {
    if w == Caller(r) {
      assert Shape(s, w, s.workers[w]);
    }
  }

  /** A consumer's query that ends without `r`, though `r` is in its snapshot and waiting,
      found `r` in other hands. */
  lemma AttemptEnds(s: State, s': State, p: PartitionId, tx: Tx, b: BedId, r: ReferralId)
    requires LockInv(s) && Next(s, s', Server(Consumer(p), tx)) && p in s.logs
    requires s.workers[Consumer(p)].Offering? && s.workers[Consumer(p)].event.bed == b
    requires !Passed(s, p, r) && Passed(s', p, r)
    requires Pair(s.db, b, r) && Pair(s'.db, b, r)
    ensures exists o :: o != Consumer(p) && TakenBy(s, o, r)
  {
    var w := Consumer(p);
    assert Shape(s, w, s.workers[w]);
    assert TxInv(s.db, TxOf(s.workers[w]));
    assert !Selectable(s, w, b, TxOf(s.workers[w]).seen, r);
    PendingLocksAreAllocations(s, w, r);
  }

  lemma ServerToCome(s: State, s': State, w: Worker, tx: Tx, p: PartitionId, i: int, b: BedId, r: ReferralId)
    requires LockInv(s) && OffsetInv(s) && Next(s, s', Server(w, tx))
    requires Pair(s.db, b, r) && Pair(s'.db, b, r) && ToCome(s, p, i, b, r)
    ensures ToCome(s', p, i, b, r) || exists o :: TakenBy(s', o, r)
  {
    if w == Consumer(p) && i == s.logs[p].position && Passed(s', p, r) {
      assert ConsumerInv(s.db, s.logs[p], s.workers[w]);
      AttemptEnds(s, s', p, tx, b, r);
      var o :| o != w && TakenBy(s, o, r);
      assert TakenBy(s', o, r);
    }
  }

  lemma ServerTaken(s: State, s': State, w: Worker, tx: Tx, o: Worker, b: BedId, r: ReferralId)
    requires LockInv(s) && Next(s, s', Server(w, tx))
    requires TakenBy(s, o, r) && Pair(s'.db, b, r)
    ensures TakenBy(s', o, r)
  {
  }

  /** Apart from new referrals only an event makes new pairs: with its own bed, or with the
      referral it displaces. */
  lemma AtomicNewPair(db: Database, db': Database, c: Change, b: BedId, r: ReferralId)
    requires Atomic(db, db', c) && !c.Insertion? && !Pair(db, b, r) && Pair(db', b, r)
    ensures c.Application? && (b == c.e.bed || FirstReleased(db.reservations, c.e) == Some(r))
  {
  }

  /** The record whose event is about to be committed is still to come, for its bed. */
  lemma CommittingIsToCome(s: State, p: PartitionId, e: Event, r: ReferralId)
    requires OffsetInv(s) && p in s.logs && Consumer(p) in s.workers
    requires s.workers[Consumer(p)].Applying? && s.workers[Consumer(p)].event == e && !Absorbed(s.db, e)
    ensures ToCome(s, p, s.logs[p].position, e.bed, r)
  {
    assert LogInv(s.db, s.logs[p]) && ConsumerInv(s.db, s.logs[p], s.workers[Consumer(p)]);
    assert s.logs[p].position >= s.logs[p].sent;
  }

  /** A pair that an event makes is looked after by the consumer, or was displaced by it. */
  lemma NewPair(s: State, s': State, w: Worker, tx: Tx, b: BedId, r: ReferralId)
    requires LockInv(s) && OffsetInv(s) && Next(s, s', Server(w, tx))
    requires !Pair(s.db, b, r) && Pair(s'.db, b, r)
    ensures Owned(s', b, r) || Drops(s, Server(w, tx), r)
  {
    ServerStep(s, s', w, tx);
    var c := Commits(TxOf(s.workers[w]));
    AtomicNewPair(s.db, s'.db, c, b, r);
    if b == c.e.bed {
      assert Shape(s, w, s.workers[w]) && TxInv(s.db, TxOf(s.workers[w]));
      CommittingIsToCome(s, w.partition, c.e, r);
      assert ToCome(s', w.partition, s.logs[w.partition].position, b, r);
    }
  }

  lemma ServerKeepsOwned(s: State, s': State, w: Worker, tx: Tx, b: BedId, r: ReferralId)
    requires LockInv(s) && OffsetInv(s) && Next(s, s', Server(w, tx))
    requires Pair(s.db, b, r) && Pair(s'.db, b, r) && Owned(s, b, r)
    ensures Owned(s', b, r)
  {
    if Searches(s, r) {
      ServerSearches(s, s', w, tx, b, r);
    } else if exists p, i :: ToCome(s, p, i, b, r) {
      var p, i :| ToCome(s, p, i, b, r);
      ServerToCome(s, s', w, tx, p, i, b, r);
    } else {
      var o :| TakenBy(s, o, r);
      ServerTaken(s, s', w, tx, o, b, r);
    }
  }

  lemma SubmitKeepsOwned(s: State, s': State, q: ReferralId, row: ReferralRow, b: BedId, r: ReferralId)
    requires LockInv(s) && Next(s, s', Submit(q, row)) && Pair(s'.db, b, r)
    requires Pair(s.db, b, r) ==> Owned(s, b, r)
    ensures Owned(s', b, r)
  {
    if r != q {
      assert Pair(s.db, b, r);
      if exists p, i :: ToCome(s, p, i, b, r) {
        var p, i :| ToCome(s, p, i, b, r);
        assert ToCome(s', p, i, b, r);
      } else if exists o :: TakenBy(s, o, r) {
        var o :| TakenBy(s, o, r);
        assert TakenBy(s', o, r);
      }
    }
  }

  /** In one step a pair keeps or gets an owner, unless that very step drops the referral. */
  lemma NextKeepsOwned(s: State, s': State, step: Step, b: BedId, r: ReferralId)
    requires LockInv(s) && OffsetInv(s) && Next(s, s', step) && Pair(s'.db, b, r)
    requires Pair(s.db, b, r) ==> Owned(s, b, r)
    ensures Owned(s', b, r) || Drops(s, step, r)
  {
    if step.Submit? {
      SubmitKeepsOwned(s, s', step.r, step.row, b, r);
    } else if step.Server? {
      if Pair(s.db, b, r) {
        ServerKeepsOwned(s, s', step.w, step.tx, b, r);
      } else {
        NewPair(s, s', step.w, step.tx, b, r);
      }
    } else {
      QuietDatabase(s, s', step);
      QuietKeepsOwned(s, s', step, b, r);
    }
  }

  /** An excuse lasts only as long as the pair does. */
  lemma ExcuseExtends(tr: seq<State>, b: BedId, r: ReferralId)
    requires |tr| > 1 && Excused(Front(tr), b, r) && Pair(Last(tr).db, b, r)
    ensures Excused(tr, b, r)
  {
    var front := Front(tr);
    var k :| DroppedAt(front, k, b, r);
    forall j | k < j < |tr| ensures Pair(tr[j].db, b, r) {
      if j < |front| {
        assert tr[j] == front[j];
      }
    }
    assert Dropped(tr[k], tr[k + 1], r);
    assert DroppedAt(tr, k, b, r);
  }

  /** No lost match.  In every reachable state an available bed and a pending referral that
      suits it have an owner: the referral's own search, an event for the bed whose attempt may
      still pick it, or an allocation in flight that has taken it; unless the referral was
      dropped and the pair has stood without a break ever since. */
  lemma {:induction false} NoLostMatch(tr: seq<State>)
    requires Run(tr)
    ensures LockInv(Last(tr)) && OffsetInv(Last(tr)) && OwnInv(tr)
  {
    RunKeepsOffsets(tr);
    if |tr| > 1 {
      RunFront(tr);
      NoLostMatch(Front(tr));
      var s, s' := Last(Front(tr)), Last(tr);
      var step :| Next(s, s', step);
      forall b, r | Pair(s'.db, b, r) ensures Owned(s', b, r) || Excused(tr, b, r) {
        if Pair(s.db, b, r) && !Owned(s, b, r) {
          ExcuseExtends(tr, b, r);
        } else {
          NextKeepsOwned(s, s', step, b, r);
          if !Owned(s', b, r) {
            DroppedNow(tr, step, b, r);
          }
        }
      }
    }
  }

  lemma DroppedNow(tr: seq<State>, step: Step, b: BedId, r: ReferralId)
    requires |tr| > 1 && Next(Last(Front(tr)), Last(tr), step) && Drops(Last(Front(tr)), step, r)
    requires Pair(Last(tr).db, b, r)
    ensures Excused(tr, b, r)
  {
    var k := |tr| - 2;
    assert Dropped(tr[k], tr[k + 1], r);
    assert DroppedAt(tr, k, b, r);
  }

  /** Nothing left to do: every search has ended and every record has been processed. */
  ghost predicate Quiescent(s: State) {
    && (forall r :: Caller(r) in s.workers ==> s.workers[Caller(r)].Answered?)
    && (forall p :: p in s.logs ==> s.logs[p].sent == |s.logs[p].log|
                                    && Consumer(p) in s.workers && s.workers[Consumer(p)].Polling?)
  }

  lemma QuietOwnsNothing(s: State, b: BedId, r: ReferralId)
    requires LockInv(s) && Quiescent(s)
    ensures !Owned(s, b, r)
  {
    forall o | o in s.workers ensures !TakenBy(s, o, r) {
      assert Shape(s, o, s.workers[o]);
    }
  }

  /** When all is quiet, whatever bed came on offer since a referral was last dropped has been
      tried for it: a pair is left only if it has stood without a break since. */
  lemma QuietMeansMatched(tr: seq<State>, b: BedId, r: ReferralId)
    requires Run(tr) && Quiescent(Last(tr)) && Pair(Last(tr).db, b, r)
    ensures Excused(tr, b, r)
  {
    NoLostMatch(tr);
    QuietOwnsNothing(Last(tr), b, r);
  }

  /** .. in particular, if nobody is ever dropped nobody is ever left beside a bed. */
  lemma UndroppedMeansMatched(tr: seq<State>, b: BedId, r: ReferralId)
    requires Run(tr) && Quiescent(Last(tr))
    requires forall k :: 0 <= k < |tr| - 1 ==> !Dropped(tr[k], tr[k + 1], r)
    ensures !Pair(Last(tr).db, b, r)
  {
    if Pair(Last(tr).db, b, r) {
      QuietMeansMatched(tr, b, r);
    }
  }
}
