/** When an acked entry's record says finished: the exact condition, checkable before dispatching. */
module DispatcherAcks {
  import opened Common
  import opened RunStates
  import Recs = RunRecords
  import Stores = RunStores
  import opened RunGate
  import opened Dispatcher
  import opened DispatcherDelivery
  import Slots = DispatcherSlots
  import Gate = GateSystem

  predicate RecordIsFinished(m: Recs.Records, id: string) {
    id in m && m[id].state == Finished
  }

  /** The run has no record yet, or one on its way to the terminal update. */
  predicate IsUnderway(m: Recs.Records, id: string) {
    id !in m || m[id].state in {Queued, AdmittedToDag, Running}
  }

  /** No other entry still to be delivered carries x's run id. */
  predicate IsUnshared(st: Stream, x: string)
    requires x in st.runOf
  {
    forall y :: y in st.undelivered && y in st.runOf && st.runOf[y] == st.runOf[x] ==> y == x
  }

  predicate DispatchesOne(cfg: Config) {
    cfg.once || cfg.maxRuns == 1
  }

  /** What can be checked before dispatch is called. */
  predicate AckIsSafe(s: State, x: string)
    requires x in s.stream.runOf
  {
    var m, id := s.gate.records, s.stream.runOf[x];
    || s.cfg.cap == 0
    || RecordIsFinished(m, id)
    || (IsUnderway(m, id) && (DispatchesOne(s.cfg) || IsUnshared(s.stream, x)))
  }

  // Safe entries.

  lemma {:induction false} NoSlotNoWorker(s: State, es: seq<Event>)
    requires Init(s) && s.cfg.cap == 0 && IsRun(s, es)
    ensures After(s, es).workers == []
  {
    if es != [] {
      var n := |es| - 1;
      var before := After(s, es[..n]);
      NoSlotNoWorker(s, es[..n]);
      Slots.SlotInvariant(s, es[..n]);
      if IsWorkerEvent(es[n]) { WorkerFrame(before, es[n]); } else { MainFrame(before, es[n]); }
    }
  }

  /** With an entry's run id to itself, or one entry dispatched in all, no two goroutines share it. */
  lemma {:induction false} SoleWorker(s: State, es: seq<Event>, x: string, i: nat, j: nat)
    requires Init(s) && IsRun(s, es) && x in s.stream.runOf
    requires DispatchesOne(s.cfg) || IsUnshared(s.stream, x)
    requires var cs, id := After(s, es).gate.callers, s.stream.runOf[x];
      i < |cs| && j < |cs| && cs[i].runId == id && cs[j].runId == id
    ensures i == j
  {
    var t := After(s, es);
    DeliveryInvariant(s, es);
    Slots.SlotInvariant(s, es);
    Slots.LimitInvariant(s, es);
    assert WorkerMatchesCaller(t, i) && WorkerMatchesCaller(t, j);
  }

  lemma {:induction false} AckedRecordIsFinished(s: State, es: seq<Event>, x: string)
    requires Init(s) && IsRun(s, es) && x in s.stream.runOf && AckIsSafe(s, x)
    requires x in After(s, es).stream.acked - s.stream.acked
    ensures RecordIsFinished(After(s, es).gate.records, s.stream.runOf[x])
  {
    var t, id := After(s, es), s.stream.runOf[x];
    var i := AckHasAdmit(s, es, x);
    if s.cfg.cap == 0 {
      NoSlotNoWorker(s, es);
    } else if RecordIsFinished(s.gate.records, id) {
      AckedMeansTerminal(s, es, x);
    } else {
      var gs := GateProjection(s, es);
      if Gate.HasReturned(t.gate, id, false) {
        var j :| 0 <= j < |t.gate.callers| && t.gate.callers[j] == Gate.Caller(id, Gate.Returned(false));
        SoleWorker(s, es, x, i, j);
      }
      Gate.SoleReturnDecides(s.gate, gs, id, i);
    }
  }
  /** At-least-once with truthful records. Of a safe entry: once it is acked, by an Admit that
      returned nil, its record is finished; and if no other entry carries the run id, a record that
      has changed means this entry has been delivered, so one changed and not finished means it is
      pending. */
  lemma {:induction false} AckedMeansFinished(s: State, es: seq<Event>, x: string)
    requires Init(s) && IsRun(s, es) && x in s.stream.runOf && x in s.stream.undelivered && AckIsSafe(s, x)
    ensures var t, id := After(s, es), s.stream.runOf[x];
      var changed := Recs.Get(t.gate.records, id) != Recs.Get(s.gate.records, id);
      && IsPartition(Entries(s.stream), t.stream)
      && (x in t.stream.acked ==> RecordIsFinished(t.gate.records, id))
      && (x in t.stream.acked ==> exists i: nat :: AckedBy(t, i, x))
      && (IsUnshared(s.stream, x) && changed ==>
            x in t.stream.pending || (x in t.stream.acked && RecordIsFinished(t.gate.records, id)))
  {
    DeliveryInvariant(s, es);
    var t, id := After(s, es), s.stream.runOf[x];
    if x in t.stream.acked {
      AckedRecordIsFinished(s, es, x);
    }
    if IsUnshared(s.stream, x) && Recs.Get(t.gate.records, id) != Recs.Get(s.gate.records, id) {
      var y := ChangeHasEntry(s, es, id);
    }
  }

  // Entries that are not safe.

  function NoFaults(): Faults {
    Faults(Stores.NoFault, Stores.NoFault, Stores.NoFault, Stores.NoFault)
  }

  /** The records after one Admit call with nobody else at work and no failures. */
  function AdmitAlone(m: Recs.Records, id: string, ok: bool): Recs.Records {
    AfterAdmit(Stores.Durable(m, Stores.Absent), id, ok, NoFaults()).memory
  }

  /** Main is at the top of its loop and free to take x. */
  ghost predicate CanServe(a: State, x: string) {
    && a.main.LoopTop? && !a.ctxDone && !LimitReached(a) && a.tokens < a.cfg.cap
    && |a.workers| == |a.gate.callers| && x in a.stream.undelivered && x in a.stream.runOf
  }

  /** Since a, x has been consumed, its goroutine is at w and its Admit call at c. */
  ghost predicate Serving(a: State, t: State, x: string, w: WorkerPc, c: Gate.Pc, m: Recs.Records) {
    && x in a.stream.runOf
    && t.cfg == a.cfg && !t.ctxDone && t.main == (if a.cfg.once then WaitingForAll else LoopTop)
    && t.dispatched == a.dispatched + 1 && t.tokens == a.tokens + 1
    && t.workers == a.workers + [Worker(x, w)]
    && t.gate.callers == a.gate.callers + [Gate.Caller(a.stream.runOf[x], c)] && t.gate.records == m
    && t.stream.runOf == a.stream.runOf && t.stream.undelivered == a.stream.undelivered - {x}
  }

  lemma {:induction false} TakesSlot(s: State, es: seq<Event>) returns (more: seq<Event>)
    requires IsRun(s, es)
    requires var a := After(s, es); a.main.Selecting? && !a.ctxDone && !LimitReached(a) && a.tokens < a.cfg.cap
    ensures IsRun(s, more)
    ensures After(s, more) == After(s, es).(main := Consuming, tokens := After(s, es).tokens + 1)
  {
    more := Extend(s, es, TakeSlot);
    more := Extend(s, more, MainGoes);
  }

  lemma {:induction false} SelectsAndChecks(s: State, es: seq<Event>, x: string) returns (more: seq<Event>)
    requires IsRun(s, es) && CanServe(After(s, es), x)
    ensures IsRun(s, more)
    ensures After(s, more) == After(s, es).(main := Consuming, tokens := After(s, es).tokens + 1)
  {
    more := Extend(s, es, MainGoes);
    assert After(s, more) == After(s, es).(main := Selecting);
    more := TakesSlot(s, more);
  }

  lemma {:induction false} Serves(s: State, es: seq<Event>, x: string) returns (more: seq<Event>)
    requires IsRun(s, es) && CanServe(After(s, es), x)
    ensures IsRun(s, more)
    ensures Serving(After(s, es), After(s, more), x, Admitting, Gate.AtEnqueue, After(s, es).gate.records)
  {
    var mid := SelectsAndChecks(s, es, x);
    more := Extend(s, mid, ConsumeEntry(x));
  }

  lemma {:induction false} StoreGoes(s: State, es: seq<Event>, a: State, x: string, c: Gate.Pc, m: Recs.Records) returns (more: seq<Event>)
    requires IsRun(s, es) && Serving(a, After(s, es), x, Admitting, c, m) && Gate.AtStore(c)
    requires |a.workers| == |a.gate.callers|
    ensures IsRun(s, more)
    ensures var op := Gate.OpOf(Gate.Caller(a.stream.runOf[x], c));
      Recs.ReplyTo(m, op).Answer? &&
      Serving(a, After(s, more), x, Admitting, Gate.Resume(c, Recs.ReplyTo(m, op).error), Recs.Apply(m, op))
  {
    var n := |a.workers|;
    assert After(s, es).gate.callers[n] == Gate.Caller(a.stream.runOf[x], c) && After(s, es).workers[n].pc == Admitting;
    more := Extend(s, es, GateMove(Gate.StoreCall(n, Stores.NoFault)));
  }

  lemma {:induction false} RunGoes(s: State, es: seq<Event>, a: State, x: string, m: Recs.Records, ok: bool) returns (more: seq<Event>)
    requires IsRun(s, es) && Serving(a, After(s, es), x, Admitting, Gate.InRun, m)
    requires |a.workers| == |a.gate.callers|
    ensures IsRun(s, more) && Serving(a, After(s, more), x, Admitting, Gate.AtTerminal(ok), m)
  {
    var n := |a.workers|;
    assert After(s, es).gate.callers[n].pc == Gate.InRun && After(s, es).workers[n].pc == Admitting;
    more := Extend(s, es, GateMove(Gate.RunDone(n, ok)));
  }

  /** One Admit call from its beginning to its end while everybody else rests. */
  lemma {:induction false} Admits(s: State, es: seq<Event>, x: string, ok: bool) returns (more: seq<Event>)
    requires IsRun(s, es) && CanServe(After(s, es), x)
    ensures IsRun(s, more)
    ensures var a := After(s, es);
      Serving(a, After(s, more), x, Admitting, Gate.Returned(ok), AdmitAlone(a.gate.records, a.stream.runOf[x], ok))
  {
    var a := After(s, es);
    var id, m := a.stream.runOf[x], a.gate.records;
    more := Serves(s, es, x);
    more := StoreGoes(s, more, a, x, Gate.AtEnqueue, m);
    m := Recs.Apply(m, Gate.OpOf(Gate.Caller(id, Gate.AtEnqueue)));
    more := StoreGoes(s, more, a, x, Gate.AtAdmitted, m);
    m := Recs.Apply(m, Gate.OpOf(Gate.Caller(id, Gate.AtAdmitted)));
    more := StoreGoes(s, more, a, x, Gate.AtRunning, m);
    m := Recs.Apply(m, Gate.OpOf(Gate.Caller(id, Gate.AtRunning)));
    more := RunGoes(s, more, a, x, m, ok);
    more := StoreGoes(s, more, a, x, Gate.AtTerminal(ok), m);
  }

  lemma {:induction false} Acks(s: State, es: seq<Event>, a: State, x: string, m: Recs.Records) returns (more: seq<Event>)
    requires IsRun(s, es) && Serving(a, After(s, es), x, Admitting, Gate.Returned(true), m)
    requires |a.workers| == |a.gate.callers|
    ensures IsRun(s, more) && x in After(s, more).stream.acked && After(s, more).gate.records == m
  {
    var n := |a.workers|;
    assert After(s, es).gate.callers[n].pc == Gate.Returned(true) && After(s, es).workers[n] == Worker(x, Admitting);
    more := Extend(s, es, AdmitReturns(n));
    assert After(s, more).workers[n] == Worker(x, Acking);
    more := Extend(s, more, AckReturns(n, true, true));
  }

  /** After a failed Admit the slot is free again. */
  lemma {:induction false} FailsAndReleases(s: State, es: seq<Event>, a: State, x: string, m: Recs.Records, y: string) returns (more: seq<Event>)
    requires IsRun(s, es) && Serving(a, After(s, es), x, Admitting, Gate.Returned(false), m)
    requires CanServe(a, x) && CanServe(a, y) && x != y && !DispatchesOne(a.cfg) && a.dispatched == 0
    ensures IsRun(s, more) && CanServe(After(s, more), y)
    ensures After(s, more).gate.records == m && After(s, more).stream.runOf == a.stream.runOf
  {
    var n := |a.workers|;
    assert After(s, es).gate.callers[n].pc == Gate.Returned(false) && After(s, es).workers[n] == Worker(x, Admitting);
    more := Extend(s, es, AdmitReturns(n));
    assert After(s, more).workers[n].pc == Settled(AdmitFailed);
    more := Extend(s, more, Release(n));
  }

  lemma AloneOutcome(m: Recs.Records, id: string, ok: bool)
    ensures var m' := AdmitAlone(m, id, ok);
      && id in m'
      && (IsUnderway(m, id) ==> m'[id].state == EndState(ok))
      && (!IsUnderway(m, id) ==> m'[id].state == m[id].state)
  {
    AdmitMovesUnparkedRuns(Stores.Durable(m, Stores.Absent), id, ok, NoFaults());
  }

  /** Every entry that is not safe can be acked with its record not finished: if the record is
      canceled or parked, by its own Admit, which finds nothing to change; if another entry carries
      the run id, by an Admit after the other entry's has failed. */
  lemma {:induction false} UnsafeIsAckedUnfinished(s: State, x: string) returns (es: seq<Event>)
    requires Init(s) && x in s.stream.undelivered && x in s.stream.runOf && !AckIsSafe(s, x)
    ensures IsRun(s, es) && x in After(s, es).stream.acked
    ensures var m, m', id := s.gate.records, After(s, es).gate.records, s.stream.runOf[x];
      && id in m' && m'[id].state != Finished
      && m'[id].state == if IsUnderway(m, id) then Canceled else m[id].state
  {
    var id := s.stream.runOf[x];
    es := [];
    if IsUnderway(s.gate.records, id) {
      var y :| y in s.stream.undelivered && y in s.stream.runOf && s.stream.runOf[y] == id && y != x;
      es := Admits(s, [], y, false);
      AloneOutcome(s.gate.records, id, false);
      es := FailsAndReleases(s, es, s, y, AdmitAlone(s.gate.records, id, false), x);
    }
    var a := After(s, es);
    es := Admits(s, es, x, true);
    AloneOutcome(a.gate.records, id, true);
    es := Acks(s, es, a, x, AdmitAlone(a.gate.records, id, true));
  }

  /** If es is a run and acks x, x's record is finished. */
  ghost predicate AckTells(s: State, x: string, es: seq<Event>)
    requires x in s.stream.runOf
  {
    IsRun(s, es) && x in After(s, es).stream.acked ==> RecordIsFinished(After(s, es).gate.records, s.stream.runOf[x])
  }

  /** "An acked entry's record is finished" holds on every run exactly when the entry is safe: there
      is no slot at all, or its record is already finished, or the record is absent, queued, admitted
      or running and no other entry with that run id can be dispatched. */
  lemma {:induction false} AckedMeansFinishedExactly(s: State, x: string)
    requires Init(s) && x in s.stream.undelivered && x in s.stream.runOf
    ensures (forall es :: AckTells(s, x, es)) <==> AckIsSafe(s, x)
  {
    if AckIsSafe(s, x) {
      forall es ensures AckTells(s, x, es) {
        if IsRun(s, es) && x in After(s, es).stream.acked { AckedRecordIsFinished(s, es, x); }
      }
    } else {
      var es := UnsafeIsAckedUnfinished(s, x);
      assert !AckTells(s, x, es);
    }
  }
}
