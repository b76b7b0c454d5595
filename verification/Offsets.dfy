/** The consumer's offsets: a high-water mark is safe because an offset is passed only once
    its event is absorbed and an allocation on its bed has been attempted since. */
module Offsets {
  import opened Domain
  import opened Store
  import opened Machine
  import opened Locking

  /** The event being handled is the record at the consumer's position. */
  ghost predicate AtHead(l: Partition, e: Event) {
    l.position < |l.log| && l.log[l.position] == Status(e)
  }

  ghost predicate ConsumerInv(db: Database, l: Partition, p: Proc) {
    match p
    case Polling => true
    case Applying(e, tx) =>
      && AtHead(l, e) && ApplyTx(tx, e)
      && (tx.ApplyDone? ==> Absorbed(db, e) && (tx.outcome == UnknownBed ==> e.bed !in db.beds))
    case Offering(e, tx, absorbed) => AtHead(l, e) && OfferTx(tx, e.bed) && absorbed && Absorbed(db, e)
    case _ => false
  }

  /** Everything below `sent` has been processed for good. */
  ghost predicate LogInv(db: Database, l: Partition) {
    && l.committed <= l.sent <= |l.log| && l.position <= l.sent
    && forall i, e :: 0 <= i < l.sent && l.log[i] == Status(e) ==>
         Absorbed(db, e) && (e.bed in db.beds ==> i in l.offered)
  }

  ghost predicate OffsetInv(s: State) {
    forall p :: p in s.logs ==>
      && Consumer(p) in s.workers
      && LogInv(s.db, s.logs[p])
      && ConsumerInv(s.db, s.logs[p], s.workers[Consumer(p)])
  }

  lemma LogStable(db: Database, db': Database, l: Partition, p: Proc)
    requires Evolves(db, db') && LogInv(db, l) && ConsumerInv(db, l, p)
    ensures LogInv(db', l) && ConsumerInv(db', l, p)
  {
  }

  lemma AdvanceKeepsLog(db: Database, l: Partition, e: Event)
    requires LogInv(db, l) && AtHead(l, e) && Absorbed(db, e)
    ensures LogInv(db, Advance(l).(offered := l.offered + {l.position as int}))
    ensures e.bed !in db.beds ==> LogInv(db, Advance(l))
  {
  }

  lemma ServerConsumer(s: State, s': State, p: PartitionId, tx: Tx)
    requires LockInv(s) && OffsetInv(s) && p in s.logs && Next(s, s', Server(Consumer(p), tx))
    ensures ConsumerInv(s'.db, s'.logs[p], s'.workers[Consumer(p)])
  {
  }

  lemma ServerKeepsOffsets(s: State, s': State, w: Worker, tx: Tx)
    requires LockInv(s) && OffsetInv(s) && Next(s, s', Server(w, tx))
    ensures OffsetInv(s')
  {
    StepIsAtomic(s, s', Server(w, tx));
    forall p | p in s'.logs
      ensures Consumer(p) in s'.workers && LogInv(s'.db, s'.logs[p])
              && ConsumerInv(s'.db, s'.logs[p], s'.workers[Consumer(p)])
    {
      LogStable(s.db, s'.db, s.logs[p], s.workers[Consumer(p)]);
      if w == Consumer(p) {
        ServerConsumer(s, s', p, tx);
      }
    }
  }

  /** A step that concerns one partition and its consumer only. */
  ghost predicate Local(s: State, s': State, p: PartitionId) {
    && s'.db == s.db && s'.logs.Keys == s.logs.Keys && p in s.logs
    && (forall q :: q in s.logs && q != p ==> s'.logs[q] == s.logs[q])
    && (forall w :: w != Consumer(p) ==>
          (w in s'.workers <==> w in s.workers) && (w in s.workers ==> s'.workers[w] == s.workers[w]))
    && Consumer(p) in s'.workers
    && LogInv(s'.db, s'.logs[p]) && ConsumerInv(s'.db, s'.logs[p], s'.workers[Consumer(p)])
  }

  lemma LocalKeepsOffsets(s: State, s': State, p: PartitionId)
    requires OffsetInv(s) && Local(s, s', p)
    ensures OffsetInv(s')
  {
  }

  lemma ReceiveIsLocal(s: State, s': State, p: PartitionId)
    requires LockInv(s) && OffsetInv(s) && Next(s, s', Receive(Consumer(p)))
    ensures Local(s, s', p)
  {
    assert Shape(s, Consumer(p), s.workers[Consumer(p)]);
    AdvanceKeepsLog(s.db, s.logs[p], s.workers[Consumer(p)].event);
  }

  lemma PollIsLocal(s: State, s': State, step: Step)
    requires OffsetInv(s) && Next(s, s', step) && (step.Poll? || step.Skip?)
    ensures Local(s, s', step.p)
  {
  }

  lemma BrokerIsLocal(s: State, s': State, step: Step)
    requires OffsetInv(s) && Next(s, s', step) && (step.Ack? || step.Intake?)
    ensures Local(s, s', step.p)
  {
  }

  lemma CrashIsLocal(s: State, s': State, p: PartitionId)
    requires OffsetInv(s) && Next(s, s', Crash(p))
    ensures Local(s, s', p)
  {
  }

  lemma FailIsLocal(s: State, s': State, p: PartitionId)
    requires LockInv(s) && OffsetInv(s) && Next(s, s', Fail(Consumer(p)))
    ensures Local(s, s', p)
  {
  }

  lemma ConsumerStepIsLocal(s: State, s': State, step: Step)
    requires LockInv(s) && OffsetInv(s) && Next(s, s', step) && Actor(step).Consumer? && !step.Server?
    ensures Local(s, s', Actor(step).partition)
  {
    match step {
      case Receive(w) => ReceiveIsLocal(s, s', w.partition);
      case Poll(_) => PollIsLocal(s, s', step);
      case Skip(_) => PollIsLocal(s, s', step);
      case Ack(_, _) => BrokerIsLocal(s, s', step);
      case Intake(_, _) => BrokerIsLocal(s, s', step);
      case Crash(p) => CrashIsLocal(s, s', p);
      case Fail(w) => FailIsLocal(s, s', w.partition);
    }
  }

  /** A step of a caller leaves the logs alone and every consumer where it was. */
  ghost predicate Aside(s: State, s': State) {
    && s'.logs == s.logs
    && forall p :: Consumer(p) in s.workers ==>
         Consumer(p) in s'.workers && s'.workers[Consumer(p)] == s.workers[Consumer(p)]
  }

  lemma AsideKeepsOffsets(s: State, s': State)
    requires OffsetInv(s) && Evolves(s.db, s'.db) && Aside(s, s')
    ensures OffsetInv(s')
  {
  }

  lemma CallerReceiveIsAside(s: State, s': State, r: ReferralId)
    requires LockInv(s) && Next(s, s', Receive(Caller(r)))
    ensures Aside(s, s')
  {
  }

  lemma CallStepIsAside(s: State, s': State, step: Step)
    requires LockInv(s) && Next(s, s', step) && Actor(step).Caller? && !step.Server?
    ensures Aside(s, s')
  {
    if step.Receive? {
      CallerReceiveIsAside(s, s', step.w.id);
    }
  }

  lemma NextKeepsOffsets(s: State, s': State, step: Step)
    requires LockInv(s) && OffsetInv(s) && Next(s, s', step)
    ensures OffsetInv(s')
  {
    StepIsAtomic(s, s', step);
    if step.Server? {
      ServerKeepsOffsets(s, s', step.w, step.tx);
    } else if Actor(step).Caller? {
      CallStepIsAside(s, s', step);
      AsideKeepsOffsets(s, s');
    } else {
      ConsumerStepIsLocal(s, s', step);
      LocalKeepsOffsets(s, s', Actor(step).partition);
    }
  }

  lemma {:induction false} RunKeepsOffsets(tr: seq<State>)
    requires Run(tr)
    ensures LockInv(Last(tr)) && OffsetInv(Last(tr))
  {
    RunKeepsLocks(tr);
    if |tr| > 1 {
      RunFront(tr);
      RunKeepsOffsets(Front(tr));
      var step :| Next(Last(Front(tr)), Last(tr), step);
      NextKeepsOffsets(Last(Front(tr)), Last(tr), step);
    }
  }

  /** High-water-mark safety: below the stored offset every well-formed event is absorbed,
      and if its bed exists an allocation begun after that absorption has run to its end,
      whatever retries, lost acknowledgements and crashes there were. */
  lemma CommittedOffsetsAreSafe(tr: seq<State>, p: PartitionId, i: int)
    requires Run(tr) && p in Last(tr).logs && 0 <= i < Last(tr).logs[p].committed
    ensures var l := Last(tr).logs[p];
      && i < |l.log|
      && (l.log[i].Status? ==>
            && Absorbed(Last(tr).db, l.log[i].event)
            && (l.log[i].event.bed in Last(tr).db.beds ==> i in l.offered))
  {
    RunKeepsOffsets(tr);
    assert LogInv(Last(tr).db, Last(tr).logs[p]);
  }

  /** After a crash a consumer starts again from the stored offset: whatever it does next is for
      the record there. */
  lemma CrashResumes(s: State, s': State, s'': State, p: PartitionId, step: Step)
    requires LockInv(s) && Next(s, s', Crash(p)) && Next(s', s'', step) && Actor(step) == Consumer(p)
    requires step.Poll? || step.Skip? || step.Server? || step.Receive?
    ensures p in s.logs && s.logs[p].committed < |s.logs[p].log|
    ensures match s.logs[p].log[s.logs[p].committed]
            case Status(e) => step.Poll? && s''.workers[Consumer(p)] == Applying(e, ApplyBegun(e))
            case Malformed => step.Skip? && s''.logs[p].position == s.logs[p].committed + 1
  {
    NextKeepsLocks(s, s', Crash(p));
  }

  /** After an error the consumer stays with its event: what is rolled back is tried again, with
      no record passed over. */
  lemma FailureStays(s: State, s': State, p: PartitionId, e: Event)
    requires LockInv(s) && OffsetInv(s) && Next(s, s', Fail(Consumer(p))) && p in s.logs
    requires s.workers[Consumer(p)] != Polling && AtHead(s.logs[p], e)
    ensures s'.db == s.db && s'.logs == s.logs && Consumer(p) in s'.workers
    ensures TxOf(s'.workers[Consumer(p)]) == ApplyBegun(e)
  {
    assert ConsumerInv(s.db, s.logs[p], s.workers[Consumer(p)]);
  }
}
