/** Each bed row is a last-writer-wins register over the logged events, and the ledger is a
    function of the logs, whatever the schedule of deliveries, retries, crashes and
    allocations was. */
module Registers {
  import opened Domain
  import opened Store
  import opened Machine
  import opened Locking
  import opened Offsets

  type BedTable = map<BedId, BedRow>

  ghost predicate LogsGrow(s: State, s': State) {
    && s'.logs.Keys == s.logs.Keys
    && forall p :: p in s.logs ==> s.logs[p].log <= s'.logs[p].log && s.logs[p].sent <= s'.logs[p].sent
  }

  lemma ReceiveLogsGrow(s: State, s': State, w: Worker)
    requires LockInv(s) && Next(s, s', Receive(w))
    ensures LogsGrow(s, s')
  {
  }

  lemma NextLogsGrow(s: State, s': State, step: Step)
    requires LockInv(s) && Next(s, s', step)
    ensures LogsGrow(s, s')
  {
    if step.Receive? {
      ReceiveLogsGrow(s, s', step.w);
    }
  }

  ghost predicate LoggedAt(s: State, p: PartitionId, i: int, e: Event) {
    p in s.logs && 0 <= i < |s.logs[p].log| && s.logs[p].log[i] == Status(e)
  }

  ghost predicate Logged(s: State, e: Event) {
    exists p, i :: LoggedAt(s, p, i, e)
  }

  /** Event ids identify events; exact duplicates may be logged any number of times. */
  ghost predicate Identified(s: State) {
    forall d, e :: Logged(s, d) && Logged(s, e) && d.id == e.id ==> d == e
  }

  /** A terminal does not use one sequence number of a bed for two different reports. */
  ghost predicate Sequenced(s: State) {
    forall d, e :: Logged(s, d) && Logged(s, e) && d.bed == e.bed && d.seqNo == e.seqNo ==>
      Reported(d.status) == Reported(e.status)
  }

  lemma LoggedGrows(s: State, s': State)
    requires LogsGrow(s, s')
    ensures forall p, i, e :: LoggedAt(s, p, i, e) ==> LoggedAt(s', p, i, e)
    ensures forall e :: Logged(s, e) ==> Logged(s', e)
    ensures Identified(s') ==> Identified(s)
  {
  }

  // ----- the bed rows -----

  /** Record `i` of `p` is the event whose report bed `b` now shows. */
  ghost predicate Wrote(s: State, p: PartitionId, i: int, e: Event, b: BedId)
    requires b in s.db.beds
  {
    && LoggedAt(s, p, i, e) && i <= s.logs[p].sent && e.id in s.db.ledger
    && e.bed == b && e.seqNo == s.db.beds[b].lastSeq && Reported(e.status) == Reported(s.db.beds[b].status)
  }

  ghost predicate Untouched(s: State, base: BedTable, b: BedId)
    requires b in s.db.beds && b in base
  {
    s.db.beds[b].lastSeq == base[b].lastSeq && Reported(s.db.beds[b].status) == Reported(base[b].status)
  }

  ghost predicate RowInv(s: State, base: BedTable) {
    && s.db.beds.Keys == base.Keys
    && forall b :: b in base ==>
         || Untouched(s, base, b)
         || (base[b].lastSeq < s.db.beds[b].lastSeq && exists p, i, e :: Wrote(s, p, i, e, b))
  }

  /** A ledger entry comes from a logged event that the bed row has caught up with. */
  ghost predicate Noted(s: State, p: PartitionId, i: int, e: Event, id: EventId) {
    LoggedAt(s, p, i, e) && e.id == id && e.bed in s.db.beds && e.seqNo <= s.db.beds[e.bed].lastSeq
  }

  ghost predicate LedgerInv(s: State) {
    forall id :: id in s.db.ledger ==> exists p, i, e :: Noted(s, p, i, e, id)
  }

  ghost predicate Base(s: State) {
    LockInv(s) && OffsetInv(s)
  }

  /** Whoever is about to commit an event is the consumer at whose head it is. */
  lemma ReadyAtHead(s: State, w: Worker)
    requires Base(s) && w in s.workers && TxOf(s.workers[w]).ApplyReady?
    ensures w.Consumer? && w.partition in s.logs
    ensures var l, e := s.logs[w.partition], TxOf(s.workers[w]).event;
      AtHead(l, e) && l.position == l.sent && !Absorbed(s.db, e)
  {
    assert Shape(s, w, s.workers[w]) && TxInv(s.db, TxOf(s.workers[w]));
    assert LogInv(s.db, s.logs[w.partition]) && ConsumerInv(s.db, s.logs[w.partition], s.workers[w]);
  }

  /** The event a step applies is the one at its consumer's head, for the first time. */
  lemma AppliedAtHead(s: State, s': State, step: Step)
    requires Base(s) && Next(s, s', step) && ChangeOf(s, step).Application?
    ensures step.Server? && step.w.Consumer? && step.w.partition in s.logs
    ensures var l, e := s.logs[step.w.partition], ChangeOf(s, step).e;
      AtHead(l, e) && l.position == l.sent && s'.db.ledger == s.db.ledger[e.id := e.bed]
      && !Absorbed(s.db, e)
    ensures s'.logs == s.logs
  {
    ReadyAtHead(s, step.w);
    ServerStep(s, s', step.w, step.tx);
  }

  /** Only an event for the bed changes what its row reports. */
  lemma RowUnmoved(db: Database, db': Database, c: Change, b: BedId)
    requires Atomic(db, db', c) && b in db.beds && !(c.Application? && c.e.bed == b)
    ensures b in db'.beds && db'.beds[b].lastSeq == db.beds[b].lastSeq
    ensures Reported(db'.beds[b].status) == Reported(db.beds[b].status)
  {
  }

  lemma RowKept(s: State, s': State, base: BedTable, b: BedId)
    requires LogsGrow(s, s') && RowInv(s, base) && b in base && b in s'.db.beds
    requires s.db.ledger.Keys <= s'.db.ledger.Keys
    requires s'.db.beds[b].lastSeq == s.db.beds[b].lastSeq
    requires Reported(s'.db.beds[b].status) == Reported(s.db.beds[b].status)
    ensures Untouched(s', base, b)
            || (base[b].lastSeq < s'.db.beds[b].lastSeq && exists p, i, e :: Wrote(s', p, i, e, b))
  {
    LoggedGrows(s, s');
    if !Untouched(s, base, b) {
      var p, i, e :| Wrote(s, p, i, e, b);
      assert Wrote(s', p, i, e, b);
    }
  }

  lemma RowWritten(s: State, s': State, step: Step, base: BedTable)
    requires Base(s) && RowInv(s, base) && Next(s, s', step) && ChangeOf(s, step).Application?
    ensures var b := ChangeOf(s, step).e.bed;
      b in base && b in s'.db.beds && base[b].lastSeq < s'.db.beds[b].lastSeq
      && exists p, i, e :: Wrote(s', p, i, e, b)
  {
    StepIsAtomic(s, s', step);
    AppliedAtHead(s, s', step);
    var p, e := step.w.partition, ChangeOf(s, step).e;
    var i := s.logs[p].position;
    assert LoggedAt(s', p, i, e);
    assert Wrote(s', p, i, e, e.bed);
  }

  lemma NextKeepsRows(s: State, s': State, step: Step, base: BedTable)
    requires Base(s) && RowInv(s, base) && Next(s, s', step)
    ensures RowInv(s', base)
  {
    StepIsAtomic(s, s', step);
    NextLogsGrow(s, s', step);
    var c := ChangeOf(s, step);
    forall b | b in base
      ensures Untouched(s', base, b)
              || (base[b].lastSeq < s'.db.beds[b].lastSeq && exists p, i, e :: Wrote(s', p, i, e, b))
    {
      if c.Application? && c.e.bed == b {
        RowWritten(s, s', step, base);
      } else {
        RowUnmoved(s.db, s'.db, c, b);
        RowKept(s, s', base, b);
      }
    }
  }

  lemma NextKeepsLedger(s: State, s': State, step: Step)
    requires Base(s) && LedgerInv(s) && Next(s, s', step)
    ensures LedgerInv(s')
  {
    StepIsAtomic(s, s', step);
    NextLogsGrow(s, s', step);
    LoggedGrows(s, s');
    var c := ChangeOf(s, step);
    forall id | id in s'.db.ledger ensures exists p, i, e :: Noted(s', p, i, e, id) {
      if id in s.db.ledger {
        var p, i, e :| Noted(s, p, i, e, id);
        assert Noted(s', p, i, e, id);
      } else {
        AppliedAtHead(s, s', step);
        var p := step.w.partition;
        assert LoggedAt(s', p, s.logs[p].position, c.e);
        assert Noted(s', p, s.logs[p].position, c.e, id);
      }
    }
  }

  lemma {:induction false} RunKeepsRegisters(tr: seq<State>)
    requires Run(tr)
    ensures Base(Last(tr)) && RowInv(Last(tr), tr[0].db.beds) && LedgerInv(Last(tr))
  {
    RunKeepsOffsets(tr);
    if |tr| > 1 {
      RunFront(tr);
      RunKeepsRegisters(Front(tr));
      var step :| Next(Last(Front(tr)), Last(tr), step);
      NextKeepsRows(Last(Front(tr)), Last(tr), step, tr[0].db.beds);
      NextKeepsLedger(Last(Front(tr)), Last(tr), step);
    }
  }

  /** A processed event never outruns its bed's row. */
  lemma ProcessedBelow(s: State, p: PartitionId, i: int, e: Event)
    requires Base(s) && LedgerInv(s) && Identified(s)
    requires LoggedAt(s, p, i, e) && i < s.logs[p].sent && e.bed in s.db.beds
    ensures e.seqNo <= s.db.beds[e.bed].lastSeq
  {
  }

  /** The two idempotence checks agree: when ids identify events, whatever the ledger rejects
      as a duplicate the sequence check would have rejected as stale. */
  lemma DuplicatesAreStale(tr: seq<State>, e: Event)
    requires Run(tr) && Identified(Last(tr)) && Logged(Last(tr), e) && e.id in Last(tr).db.ledger
    ensures e.bed in Last(tr).db.beds && e.seqNo <= Last(tr).db.beds[e.bed].lastSeq
  {
    RunKeepsRegisters(tr);
    var s := Last(tr);
    var p, i, d :| Noted(s, p, i, d, e.id);
    assert Logged(s, d);
  }

  ghost predicate Drained(s: State) {
    forall p :: p in s.logs ==> s.logs[p].sent == |s.logs[p].log|
  }

  /** The row shows the highest sequence number among the initial one and the logged ones,
      and the report that came with it. */
  ghost predicate ShowsLatest(s: State, base: BedTable, b: BedId)
    requires b in s.db.beds && b in base
  {
    && base[b].lastSeq <= s.db.beds[b].lastSeq
    && (forall e :: Logged(s, e) && e.bed == b ==> e.seqNo <= s.db.beds[b].lastSeq)
    && ((s.db.beds[b].lastSeq == base[b].lastSeq && Shows(s.db.beds[b].status, base[b].status))
        || exists e :: Logged(s, e) && e.bed == b && e.seqNo == s.db.beds[b].lastSeq > base[b].lastSeq
                       && Shows(s.db.beds[b].status, e.status))
  }

  lemma DrainedBelow(s: State, b: BedId)
    requires Base(s) && LedgerInv(s) && Identified(s) && Drained(s) && b in s.db.beds
    ensures forall e :: Logged(s, e) && e.bed == b ==> e.seqNo <= s.db.beds[b].lastSeq
  {
    forall e | Logged(s, e) && e.bed == b ensures e.seqNo <= s.db.beds[b].lastSeq {
      var p, i :| LoggedAt(s, p, i, e);
      ProcessedBelow(s, p, i, e);
    }
  }

  /** Once the logs are drained every bed row is the last-writer-wins register of its events,
      out of order, duplicated, redelivered or interleaved with allocations as they were. */
  lemma DrainedShowsLatest(tr: seq<State>, b: BedId)
    requires Run(tr) && Drained(Last(tr)) && Identified(Last(tr)) && b in tr[0].db.beds
    ensures b in Last(tr).db.beds && ShowsLatest(Last(tr), tr[0].db.beds, b)
  {
    RunKeepsRegisters(tr);
    var s, base := Last(tr), tr[0].db.beds;
    DrainedBelow(s, b);
    SameReport(s.db.beds[b].status, base[b].status);
    if !Untouched(s, base, b) {
      var p, i, e :| Wrote(s, p, i, e, b);
      assert Logged(s, e);
      SameReport(s.db.beds[b].status, e.status);
    }
  }

  /** Two runs over the same events, however logged, delivered, crashed and interleaved, leave
      every bed with the same report and the same sequence number. */
  lemma ScheduleIndependence(tr: seq<State>, tr': seq<State>, b: BedId)
    requires Run(tr) && Run(tr') && tr[0].db.beds == tr'[0].db.beds && b in tr[0].db.beds
    requires Drained(Last(tr)) && Drained(Last(tr'))
    requires forall e :: Logged(Last(tr), e) <==> Logged(Last(tr'), e)
    requires Identified(Last(tr)) && Sequenced(Last(tr))
    ensures b in Last(tr).db.beds && b in Last(tr').db.beds
    ensures Last(tr).db.beds[b].lastSeq == Last(tr').db.beds[b].lastSeq
    ensures Reported(Last(tr).db.beds[b].status) == Reported(Last(tr').db.beds[b].status)
    ensures Shows(Last(tr).db.beds[b].status, Last(tr').db.beds[b].status)
  {
    DrainedShowsLatest(tr, b);
    DrainedShowsLatest(tr', b);
    SameReport(Last(tr).db.beds[b].status, Last(tr').db.beds[b].status);
  }

  // ----- the ledger -----

  /** A bed's events are all in one partition. */
  ghost predicate Homed(s: State) {
    forall p, i, d, q, j, e :: LoggedAt(s, p, i, d) && LoggedAt(s, q, j, e) && d.bed == e.bed ==> p == q
  }

  /** Record `i` beats the initial sequence number and every earlier one of its bed: a single
      pass over the log would apply exactly these. */
  ghost predicate Beats(log: seq<Record>, i: int, base: BedTable) {
    && 0 <= i < |log| && log[i].Status?
    && var e := log[i].event;
    && e.bed in base && base[e.bed].lastSeq < e.seqNo
    && forall j :: 0 <= j < i && log[j].Status? && log[j].event.bed == e.bed ==> log[j].event.seqNo < e.seqNo
  }

  ghost predicate BeatsAt(s: State, p: PartitionId, i: int, base: BedTable, id: EventId) {
    p in s.logs && Beats(s.logs[p].log, i, base) && s.logs[p].log[i].event.id == id
  }

  ghost predicate LedgerExact(s: State, base: BedTable) {
    && (forall id :: id in s.db.ledger ==> exists p, i :: BeatsAt(s, p, i, base, id))
    && (forall p, i, id :: BeatsAt(s, p, i, base, id) && i < s.logs[p].sent ==> id in s.db.ledger)
  }

  lemma BeatsGrows(s: State, s': State, base: BedTable)
    requires LogsGrow(s, s')
    ensures forall p, i, id :: BeatsAt(s, p, i, base, id) ==> BeatsAt(s', p, i, base, id)
    ensures forall p, i, id :: BeatsAt(s', p, i, base, id) && i < |s.logs[p].log| ==> BeatsAt(s, p, i, base, id)
  {
  }

  ghost predicate LedgerContext(s: State, base: BedTable) {
    Base(s) && RowInv(s, base) && LedgerInv(s) && Identified(s) && Homed(s)
  }

  /** An event that is applied beats everything before it. */
  lemma AppliedBeats(s: State, base: BedTable, p: PartitionId, e: Event)
    requires LedgerContext(s, base) && p in s.logs && AtHead(s.logs[p], e)
    requires s.logs[p].position == s.logs[p].sent && !Absorbed(s.db, e)
    ensures BeatsAt(s, p, s.logs[p].position, base, e.id)
  {
    var l := s.logs[p];
    forall j | 0 <= j < l.position && l.log[j].Status? && l.log[j].event.bed == e.bed
      ensures l.log[j].event.seqNo < e.seqNo
    {
      assert LoggedAt(s, p, j, l.log[j].event);
      ProcessedBelow(s, p, j, l.log[j].event);
    }
    assert base[e.bed].lastSeq <= s.db.beds[e.bed].lastSeq;
  }

  /** An absorbed event that beats everything before it was the one applied. */
  lemma BeatingIsNoted(s: State, base: BedTable, p: PartitionId, e: Event)
    requires LedgerContext(s, base) && p in s.logs && AtHead(s.logs[p], e)
    requires s.logs[p].position == s.logs[p].sent && Absorbed(s.db, e)
    requires BeatsAt(s, p, s.logs[p].position, base, e.id)
    ensures e.id in s.db.ledger
  {
    var l := s.logs[p];
    assert LoggedAt(s, p, l.position, e);
    if !Untouched(s, base, e.bed) {
      var q, i, d :| Wrote(s, q, i, d, e.bed);
      assert q == p;
      assert l.log[i].event == d;
    }
  }

  lemma NextKeepsExact(s: State, s': State, step: Step, base: BedTable)
    requires LedgerContext(s, base) && LedgerExact(s, base) && Next(s, s', step)
    ensures LedgerExact(s', base)
  {
    StepIsAtomic(s, s', step);
    NextLogsGrow(s, s', step);
    BeatsGrows(s, s', base);
    var c := ChangeOf(s, step);
    forall id | id in s'.db.ledger ensures exists p, i :: BeatsAt(s', p, i, base, id) {
      if id in s.db.ledger {
        var p, i :| BeatsAt(s, p, i, base, id);
        assert BeatsAt(s', p, i, base, id);
      } else {
        AppliedAtHead(s, s', step);
        var p := step.w.partition;
        AppliedBeats(s, base, p, c.e);
        assert BeatsAt(s', p, s.logs[p].position, base, id);
      }
    }
    forall p, i, id | BeatsAt(s', p, i, base, id) && i < s'.logs[p].sent ensures id in s'.db.ledger {
      if i >= s.logs[p].sent {
        SentAdvances(s, s', step, p, i);
        BeatingIsNoted(s, base, p, s.logs[p].log[i].event);
      }
    }
  }

  /** An offset is passed for the first time only at the head, by an event that is absorbed. */
  lemma SentAdvances(s: State, s': State, step: Step, p: PartitionId, i: int)
    requires Base(s) && Next(s, s', step) && p in s.logs && p in s'.logs
    requires s.logs[p].sent <= i < s'.logs[p].sent && i < |s'.logs[p].log| && s'.logs[p].log[i].Status?
    ensures i < |s.logs[p].log| && i == s.logs[p].position == s.logs[p].sent
    ensures s.logs[p].log[i].Status? && AtHead(s.logs[p], s.logs[p].log[i].event)
    ensures Absorbed(s.db, s.logs[p].log[i].event)
    ensures s'.logs[p].log == s.logs[p].log
  {
    if Actor(step).Caller? && !step.Server? {
      CallStepIsAside(s, s', step);
    } else if step.Receive? {
      assert Shape(s, step.w, s.workers[step.w]);
      assert LogInv(s.db, s.logs[p]) && ConsumerInv(s.db, s.logs[p], s.workers[Consumer(p)]);
    }
  }

  lemma {:induction false} RunKeepsExact(tr: seq<State>)
    requires Run(tr) && Identified(Last(tr)) && Homed(Last(tr))
    ensures LedgerContext(Last(tr), tr[0].db.beds) && LedgerExact(Last(tr), tr[0].db.beds)
  {
    RunKeepsRegisters(tr);
    if |tr| > 1 {
      RunFront(tr);
      RunKeepsRegisters(Front(tr));
      var s, s' := Last(Front(tr)), Last(tr);
      var step :| Next(s, s', step);
      NextLogsGrow(s, s', step);
      LoggedGrows(s, s');
      RunKeepsExact(Front(tr));
      NextKeepsExact(s, s', step, tr[0].db.beds);
    }
  }

  /** Once drained, the ledger holds exactly the ids one crash-free pass would have applied. */
  lemma DrainedLedger(tr: seq<State>, id: EventId)
    requires Run(tr) && Drained(Last(tr)) && Identified(Last(tr)) && Homed(Last(tr))
    ensures id in Last(tr).db.ledger <==> exists p, i :: BeatsAt(Last(tr), p, i, tr[0].db.beds, id)
  {
    RunKeepsExact(tr);
  }

  /** .. so crashes, rewinds and lost commits leave no trace in it. */
  lemma LedgerIndependence(tr: seq<State>, tr': seq<State>)
    requires Run(tr) && Run(tr') && tr[0].db.beds == tr'[0].db.beds
    requires Drained(Last(tr)) && Drained(Last(tr')) && Identified(Last(tr)) && Homed(Last(tr))
    requires Last(tr).logs.Keys == Last(tr').logs.Keys
    requires forall p :: p in Last(tr).logs ==> Last(tr).logs[p].log == Last(tr').logs[p].log
    ensures Last(tr).db.ledger.Keys == Last(tr').db.ledger.Keys
  {
    var s, s', base := Last(tr), Last(tr'), tr[0].db.beds;
    assert forall p, i, e :: LoggedAt(s, p, i, e) <==> LoggedAt(s', p, i, e);
    assert forall p, i, id :: BeatsAt(s, p, i, base, id) <==> BeatsAt(s', p, i, base, id);
    assert forall e :: Logged(s, e) <==> Logged(s', e);
    forall id ensures id in s.db.ledger <==> id in s'.db.ledger {
      DrainedLedger(tr, id);
      DrainedLedger(tr', id);
    }
  }
}
