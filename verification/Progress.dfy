/** Waiting is the only thing that can hold a worker up, and never everybody waits: in every
    reachable state with work left some worker can take its next step. */
module Progress {
  import opened Domain
  import opened Store
  import opened Search
  import opened Machine
  import opened Locking
  import opened Guarantees

  /** Nothing left to do: the call has answered and published, the log is read to its end. */
  ghost predicate Finished(s: State, w: Worker)
    requires w in s.workers
  {
    match w
    case Caller(_) => s.workers[w].Answered? && s.workers[w].unpublished == []
    case Consumer(p) => s.workers[w].Polling? && p in s.logs && s.logs[p].position >= |s.logs[p].log|
  }

  /** A step of the worker's own code, neither a failure nor anything the world outside does. */
  predicate Own(step: Step) {
    !step.Submit? && !step.Fail? && !step.Crash? && !step.Ack? && !step.Intake?
  }

  ghost predicate Moves(s: State, w: Worker, step: Step) {
    Own(step) && Actor(step) == w && exists s' :: Next(s, s', step)
  }

  ghost predicate CanMove(s: State, w: Worker) {
    exists step :: Moves(s, w, step)
  }

  ghost predicate Waits(s: State, w: Worker)
    requires w in s.workers
  {
    exists o :: o in s.workers && WaitsFor(s, w, o)
  }

  // ----- statements -----

  ghost predicate HasStatement(s: State, w: Worker, tx: Tx) {
    exists tx', db' :: AllocStatement(s, w, tx, tx', db') || ApplyStatement(s, w, tx, tx', db')
  }

  /** The scan of the snapshot always comes to an end, with a referral or without. */
  lemma ScanEnds(s: State, w: Worker, b: BedId, seen: set<ReferralId>)
    ensures HasStatement(s, w, AllocSeen(b, seen))
  {
    var open := set r | r in seen && Selectable(s, w, b, seen, r);
    var over := set x | x in seen && Stumbles(s, w, b, seen, x);
    if exists r :: r in open {
      assert open <= s.db.referrals.Keys;
      SomeMaximum(s.db.referrals, open);
      var m :| Top(s.db.referrals, open, m);
      var kept := set x | x in over && Outranks(s.db.referrals[x], s.db.referrals[m]);
      assert Selects(s, w, b, seen, m, kept);
      assert AllocStatement(s, w, AllocSeen(b, seen), AllocChosen(b, m, kept), s.db);
    } else {
      forall r ensures !Selectable(s, w, b, seen, r) {
        assert r !in open;
      }
      assert AllocStatement(s, w, AllocSeen(b, seen), AllocEmpty(b, over), s.db);
    }
  }

  lemma AllocGoesOn(s: State, w: Worker)
    requires LockInv(s) && w in s.workers && !Waits(s, w)
    requires AllocTx(TxOf(s.workers[w])) && !TxOf(s.workers[w]).AllocDone?
    ensures HasStatement(s, w, TxOf(s.workers[w]))
  {
    var t := TxOf(s.workers[w]);
    assert TxInv(s.db, t);
    match t
    case AllocBegun(b) =>
      assert forall o :: o in s.workers ==> !WaitsFor(s, w, o);
      assert AllocStatement(s, w, t, if b in s.db.beds && s.db.beds[b].status == Available then AllocLocked(b)
                                     else AllocDone(None), s.db);
    case AllocLocked(b) => assert AllocStatement(s, w, t, AllocSeen(b, WaitingFor(s.db, b)), s.db);
    case AllocSeen(b, seen) => ScanEnds(s, w, b, seen);
    case AllocChosen(b, r, kept) =>
      UniqueIndexesNeverFire(s, w);
      assert AllocStatement(s, w, t, AllocWritten(b, r, kept), s.db);
    case AllocWritten(b, r, _) =>
      var award := Award(|s.db.reservations|, AllocationResult(b, s.db.beds[b].shelter, r));
      assert AllocStatement(s, w, t, AllocDone(Some(award)), Reserve(s.db, b, r));
    case AllocEmpty(_, _) => assert AllocStatement(s, w, t, AllocDone(None), s.db);
  }

  lemma ApplyGoesOn(s: State, w: Worker, e: Event)
    requires LockInv(s) && w in s.workers && !Waits(s, w)
    requires ApplyTx(TxOf(s.workers[w]), e) && !TxOf(s.workers[w]).ApplyDone?
    ensures HasStatement(s, w, TxOf(s.workers[w]))
  {
    var t := TxOf(s.workers[w]);
    assert TxInv(s.db, t);
    assert forall o :: o in s.workers ==> !WaitsFor(s, w, o);
    match t
    case ApplyBegun(_) =>
      assert ApplyStatement(s, w, t, if e.id in s.db.ledger then ApplyDone(Duplicate) else ApplyInserted(e), s.db);
    case ApplyInserted(_) =>
      assert ApplyStatement(s, w, t, if e.bed !in s.db.beds then ApplyDone(UnknownBed)
                                     else if e.seqNo <= s.db.beds[e.bed].lastSeq then ApplyDone(Stale)
                                     else ApplyLocked(e), s.db);
    case ApplyLocked(_) =>
      assert ApplyStatement(s, w, t, ApplyUpdated(e, Hit(s.db, e), FirstReleased(s.db.reservations, e)), s.db);
    case ApplyUpdated(_, rows, released) =>
      assert ApplyStatement(s, w, t, ApplyReady(e, rows,
        if released.Some? && released.value in s.db.referrals
           && s.db.referrals[released.value].status == ReferralStatus.Matched then released else None), s.db);
    case ApplyReady(_, rows, repended) =>
      assert ApplyStatement(s, w, t, ApplyDone(Applied(s.db.beds[e.bed].shelter,
        e.status == Available && s.db.beds[e.bed].status != Available)), Publish(s.db, e, rows, repended));
  }

  lemma StatementIsMove(s: State, w: Worker)
    requires w in s.workers && HasStatement(s, w, TxOf(s.workers[w]))
    requires s.workers[w].Attempting? || s.workers[w].Applying? || s.workers[w].Offering?
    ensures CanMove(s, w)
  {
    var p := s.workers[w];
    var tx, db' :| AllocStatement(s, w, TxOf(p), tx, db') || ApplyStatement(s, w, TxOf(p), tx, db');
    var s' := s.(db := db', workers := s.workers[w := WithTx(p, tx)]);
    assert Next(s, s', Server(w, tx));
    assert Moves(s, w, Server(w, tx));
  }

  // ----- the loops around them -----

  lemma {:induction false} SomeLeast(beds: set<BedId>)
    requires exists b :: b in beds
    ensures exists b :: b in beds && forall x :: x in beds ==> b <= x
    decreases beds
  {
    var y :| y in beds;
    var rest := beds - {y};
    assert forall x :: x in beds ==> x == y || x in rest;
    if exists x :: x in rest {
      SomeLeast(rest);
      var b :| b in rest && forall x :: x in rest ==> b <= x;
      var least := if y < b then y else b;
      assert least in beds && forall x :: x in beds ==> least <= x;
    } else {
      assert forall x :: x in beds ==> y <= x;
    }
  }

  lemma SearchGoesOn(s: State, r: ReferralId)
    requires Caller(r) in s.workers && s.workers[Caller(r)].Searching? && r in s.db.referrals
    ensures CanMove(s, Caller(r))
  {
    var w, row := Caller(r), s.db.referrals[r];
    var (left, side) := (s.workers[w].left, s.workers[w].side);
    if left == 0 {
      var s' := s.(workers := s.workers[w := Resolving(side)], capped := s.capped + {r});
      assert Next(s, s', CapOut(r));
      assert Moves(s, w, CapOut(r));
    } else if exists b :: b in Candidates(s.db, r) {
      SomeLeast(Candidates(s.db, r));
      var b :| b in Candidates(s.db, r) && forall x :: x in Candidates(s.db, r) ==> b <= x;
      assert forall x :: Candidate(s.db, x, row.region, row.needs) ==> x in Candidates(s.db, r);
      var s' := s.(workers := s.workers[w := Attempting(left, side, AllocBegun(b))]);
      assert Next(s, s', Pick(r, b));
      assert Moves(s, w, Pick(r, b));
    } else {
      assert forall x :: Candidate(s.db, x, row.region, row.needs) ==> x in Candidates(s.db, r);
      var s' := s.(workers := s.workers[w := Resolving(side)]);
      assert Next(s, s', Exhaust(r));
      assert Moves(s, w, Exhaust(r));
    }
  }

  lemma ResolveGoesOn(s: State, r: ReferralId)
    requires Valid(s.db) && Caller(r) in s.workers && s.workers[Caller(r)].Resolving?
    ensures CanMove(s, Caller(r))
  {
    var w := Caller(r);
    var side := s.workers[w].side;
    if exists i :: LiveFor(s.db, i, r) {
      var i :| LiveFor(s.db, i, r);
      var b := s.db.reservations[i].bed;
      var result := AllocationResult(b, s.db.beds[b].shelter, r);
      var s' := s.(workers := s.workers[w := Answered(side + [Award(i, result)], SubmitOutcome.Matched(result))]);
      assert Next(s, s', Resolve(r, Some(i)));
      assert Moves(s, w, Resolve(r, Some(i)));
    } else {
      var s' := s.(workers := s.workers[w := Answered(side, SubmitOutcome.Pending(r))]);
      assert Next(s, s', Resolve(r, None));
      assert Moves(s, w, Resolve(r, None));
    }
  }

  lemma AnswerGoesOn(s: State, r: ReferralId)
    requires Caller(r) in s.workers && s.workers[Caller(r)].Answered? && s.workers[Caller(r)].unpublished != []
    ensures CanMove(s, Caller(r))
  {
    var p := s.workers[Caller(r)];
    var s' := s.(workers := s.workers[Caller(r) := Answered(p.unpublished[1..], p.outcome)],
                 announced := s.announced + {p.unpublished[0].row});
    assert Next(s, s', Announce(r));
    assert Moves(s, Caller(r), Announce(r));
  }

  lemma PollGoesOn(s: State, p: PartitionId)
    requires p in s.logs && Consumer(p) in s.workers && s.workers[Consumer(p)].Polling?
    requires s.logs[p].position < |s.logs[p].log|
    ensures CanMove(s, Consumer(p))
  {
    var w := Consumer(p);
    match s.logs[p].log[s.logs[p].position]
    case Status(e) =>
      assert Next(s, s.(workers := s.workers[w := Applying(e, ApplyBegun(e))]), Poll(p));
      assert Moves(s, w, Poll(p));
    case Malformed =>
      assert Next(s, s.(logs := s.logs[p := Advance(s.logs[p])]), Skip(p));
      assert Moves(s, w, Skip(p));
  }

  lemma CallHears(s: State, r: ReferralId)
    requires Caller(r) in s.workers && s.workers[Caller(r)].Attempting? && s.workers[Caller(r)].tx.AllocDone?
    ensures CanMove(s, Caller(r))
  {
    var w := Caller(r);
    var (left, side, award) := (s.workers[w].left, s.workers[w].side, s.workers[w].tx.award);
    var less := if left > 0 then left - 1 else 0;
    var p := if award.None? then Searching(less, side)
             else if award.value.result.referral == r
             then Answered(side + [award.value], SubmitOutcome.Matched(award.value.result))
             else Searching(less, side + [award.value]);
    assert Next(s, s.(workers := s.workers[w := p]), Receive(w));
    assert Moves(s, w, Receive(w));
  }

  lemma ConsumerHears(s: State, q: PartitionId)
    requires q in s.logs && Consumer(q) in s.workers
    requires (s.workers[Consumer(q)].Applying? && s.workers[Consumer(q)].tx.ApplyDone?)
             || (s.workers[Consumer(q)].Offering? && s.workers[Consumer(q)].tx.AllocDone?)
    ensures CanMove(s, Consumer(q))
  {
    var w, l := Consumer(q), s.logs[q];
    match s.workers[w] {
      case Applying(e, ApplyDone(outcome)) =>
        var s' := if outcome == UnknownBed
                  then s.(workers := s.workers[w := Polling], logs := s.logs[q := Advance(l)])
                  else s.(workers := s.workers[w := Offering(e, AllocBegun(e.bed), Absorbed(s.db, e))]);
        assert Next(s, s', Receive(w));
      case Offering(e, AllocDone(award), absorbed) =>
        var s' := s.(workers := s.workers[w := Polling],
                     logs := s.logs[q := Advance(l).(offered := if absorbed then l.offered + {l.position as int}
                                                                else l.offered)],
                     announced := s.announced + OwesTx(AllocDone(award)));
        assert Next(s, s', Receive(w));
    }
    assert Moves(s, w, Receive(w));
  }

  // ----- the theorem -----

  lemma CallGoesOn(s: State, r: ReferralId)
    requires LockInv(s) && Caller(r) in s.workers && !Finished(s, Caller(r)) && !Waits(s, Caller(r))
    ensures CanMove(s, Caller(r))
  {
    var w := Caller(r);
    assert Shape(s, w, s.workers[w]);
    match s.workers[w]
    case Searching(_, _) => SearchGoesOn(s, r);
    case Attempting(_, _, tx) =>
      if tx.AllocDone? {
        CallHears(s, r);
      } else {
        AllocGoesOn(s, w);
        StatementIsMove(s, w);
      }
    case Resolving(_) => ResolveGoesOn(s, r);
    case Answered(_, _) => AnswerGoesOn(s, r);
  }

  lemma ConsumerGoesOn(s: State, q: PartitionId)
    requires LockInv(s) && Consumer(q) in s.workers && !Finished(s, Consumer(q)) && !Waits(s, Consumer(q))
    ensures CanMove(s, Consumer(q))
  {
    var w := Consumer(q);
    assert Shape(s, w, s.workers[w]);
    match s.workers[w]
    case Polling => PollGoesOn(s, q);
    case Applying(e, tx) =>
      if tx.ApplyDone? {
        ConsumerHears(s, q);
      } else {
        ApplyGoesOn(s, w, e);
        StatementIsMove(s, w);
      }
    case Offering(_, tx, _) =>
      if tx.AllocDone? {
        ConsumerHears(s, q);
      } else {
        AllocGoesOn(s, w);
        StatementIsMove(s, w);
      }
  }

  lemma WaitersAreStuck(s: State, w: Worker, o: Worker, step: Step)
    requires w in s.workers && o in s.workers && WaitsFor(s, w, o)
    requires Own(step) && Actor(step) == w
    ensures !exists s' :: Next(s, s', step)
  {
    forall s' ensures !Next(s, s', step) {
      if Next(s, s', step) {
        WaiterHasNoStatement(s, w, o);
      }
    }
  }

  lemma WaiterHasNoStatement(s: State, w: Worker, o: Worker)
    requires w in s.workers && o in s.workers && WaitsFor(s, w, o)
    ensures !HasStatement(s, w, TxOf(s.workers[w]))
  {
  }

  /** Exactly what holds a worker up: one with work left cannot take its next step if and only
      if it waits for a lock or a key that another holds. */
  lemma StuckMeansWaiting(s: State, w: Worker)
    requires LockInv(s) && w in s.workers && !Finished(s, w)
    ensures CanMove(s, w) <==> !Waits(s, w)
  {
    if Waits(s, w) {
      var o :| o in s.workers && WaitsFor(s, w, o);
      forall step ensures !Moves(s, w, step) {
        if Own(step) && Actor(step) == w {
          WaitersAreStuck(s, w, o, step);
        }
      }
    } else {
      match w
      case Caller(r) => CallGoesOn(s, r);
      case Consumer(q) => ConsumerGoesOn(s, q);
    }
  }

  /** Somebody at the end of the chain of waits can move. */
  lemma {:induction false} EndOfChainMoves(s: State, w: Worker)
    requires LockInv(s) && w in s.workers && !Finished(s, w)
    ensures exists o :: o in s.workers && CanMove(s, o)
    decreases Rank(TxOf(s.workers[w]))
  {
    StuckMeansWaiting(s, w);
    if Waits(s, w) {
      var o :| o in s.workers && WaitsFor(s, w, o);
      WaitingDescends(s, w, o);
      EndOfChainMoves(s, o);
    }
  }

  /** In every reachable state, failures and crashes behind it included, if anybody has work left
      then somebody can go on with theirs. */
  lemma NeverAllStuck(tr: seq<State>, w: Worker)
    requires Run(tr) && w in Last(tr).workers && !Finished(Last(tr), w)
    ensures exists o :: o in Last(tr).workers && CanMove(Last(tr), o)
  {
    RunKeepsLocks(tr);
    EndOfChainMoves(Last(tr), w);
  }
}
