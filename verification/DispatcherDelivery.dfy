/** Dispatcher, gate and stream together: where each entry is, and which Admit an ack comes from. */
module DispatcherDelivery {
  import opened Common
  import opened RunStates
  import opened Dispatcher
  import Recs = RunRecords
  import RunGate
  import Gate = GateSystem

  function Entries(st: Stream): set<string> {
    st.undelivered + st.pending + st.acked
  }

  /** Every entry is in exactly one delivery state. */
  ghost predicate IsPartition(all: set<string>, st: Stream) {
    st.undelivered !! st.pending !! st.acked && Entries(st) == all
  }

  /** Delivery only moves forward, and what an earlier process left pending stays pending: dispatch
      never claims it. */
  ghost predicate MovesOnFrom(first: Stream, st: Stream) {
    && IsPartition(Entries(first), st) && st.runOf == first.runOf
    && st.undelivered <= first.undelivered && first.pending <= st.pending && first.acked <= st.acked
  }

  predicate SettledMatches(r: Settlement, c: Gate.Pc) {
    if r == AdmitFailed then c == Gate.Returned(false) || c == Gate.Rejected else c == Gate.Returned(true)
  }

  predicate PcMatches(w: WorkerPc, c: Gate.Pc) {
    match w
    case Admitting => true
    case Acking => c == Gate.Returned(true)
    case Settled(r) => SettledMatches(r, c)
    case Released(r) => SettledMatches(r, c)
    case Gone(r) => SettledMatches(r, c)
  }

  /** How a goroutine has settled its entry, if it has. */
  function Result(w: WorkerPc): Option<Settlement> {
    match w
    case Settled(r) => Some(r)
    case Released(r) => Some(r)
    case Gone(r) => Some(r)
    case _ => None
  }

  /** Settled as acked means acked on the stream; an ack that failed may or may not have got there;
      an entry not settled, or not admitted, is pending. */
  predicate EntryMatches(w: Worker, st: Stream) {
    match Result(w.pc)
    case Some(Acked) => w.entry in st.acked
    case Some(AckFailed) => w.entry in st.pending + st.acked
    case _ => w.entry in st.pending
  }

  ghost predicate WorkerMatchesCaller(s: State, i: nat)
    requires i < |s.workers| && i < |s.gate.callers|
  {
    && s.workers[i].entry in s.stream.runOf
    && s.gate.callers[i].runId == s.stream.runOf[s.workers[i].entry]
    && EntryMatches(s.workers[i], s.stream)
    && PcMatches(s.workers[i].pc, s.gate.callers[i].pc)
  }

  ghost predicate WorkersMatchCallers(s: State) {
    && |s.gate.callers| == |s.workers|
    && (forall i :: 0 <= i < |s.workers| ==> WorkerMatchesCaller(s, i))
    && (forall i, j :: 0 <= i < j < |s.workers| ==> s.workers[i].entry != s.workers[j].entry)
  }

  /** Goroutines only handle entries that this process was delivered. */
  ghost predicate HandlesNewEntries(first: Stream, s: State) {
    forall i :: 0 <= i < |s.workers| ==> s.workers[i].entry in first.undelivered
  }

  /** Worker i, whose runFn returned nil, has tried to ack x. */
  ghost predicate AckedBy(s: State, i: nat, x: string) {
    && i < |s.workers| && i < |s.gate.callers|
    && s.workers[i].entry == x && s.gate.callers[i].pc == Gate.Returned(true) && !s.workers[i].pc.Admitting?
  }

  ghost predicate AcksJustified(before: set<string>, s: State) {
    forall x :: x in s.stream.acked && x !in before ==> exists i: nat :: AckedBy(s, i, x)
  }

  ghost predicate Inv(first: Stream, s: State) {
    && first.undelivered !! first.pending
    && MovesOnFrom(first, s.stream) && WorkersMatchCallers(s) && HandlesNewEntries(first, s)
    && AcksJustified(first.acked, s)
  }

  lemma StreamFrame(s: State, e: Event)
    requires Enabled(s, e)
    ensures Step(s, e).stream.runOf == s.stream.runOf
    ensures Step(s, e).stream.undelivered <= s.stream.undelivered
    ensures !(e.ConsumeNothing? || e.ConsumeEntry? || e.AckReturns?) ==> Step(s, e).stream == s.stream
    ensures e.ConsumeNothing? ==>
      Step(s, e).stream == if e.lost.Some? then Deliver(s.stream, e.lost.value) else s.stream
    ensures e.ConsumeEntry? ==> Step(s, e).stream == Deliver(s.stream, e.entry)
    ensures e.AckReturns? ==> Step(s, e).stream in {s.stream, Ack(s.stream, s.workers[e.i].entry)}
  {}

  lemma StepMovesOn(first: Stream, s: State, e: Event)
    requires Inv(first, s) && Enabled(s, e)
    ensures MovesOnFrom(first, Step(s, e).stream)
  {
    StreamFrame(s, e);
    if e.AckReturns? {
      assert WorkerMatchesCaller(s, e.i);
    }
  }

  lemma MainKeepsWorkersMatch(first: Stream, s: State, e: Event)
    requires Enabled(s, e) && !IsWorkerEvent(e) && Inv(first, s)
    ensures WorkersMatchCallers(Step(s, e)) && HandlesNewEntries(first, Step(s, e))
  {
    var s' := Step(s, e);
    MainFrame(s, e);
    StreamFrame(s, e);
    forall i | 0 <= i < |s'.workers| ensures WorkerMatchesCaller(s', i) {
      if i < |s.workers| { assert WorkerMatchesCaller(s, i); }
    }
    if e.ConsumeEntry? {
      forall i | 0 <= i < |s.workers| ensures s.workers[i].entry != e.entry {
        assert WorkerMatchesCaller(s, i);
      }
    }
  }

  lemma WorkerKeepsWorkersMatch(first: Stream, s: State, e: Event)
    requires Enabled(s, e) && IsWorkerEvent(e) && WorkersMatchCallers(s) && HandlesNewEntries(first, s)
    ensures WorkersMatchCallers(Step(s, e)) && HandlesNewEntries(first, Step(s, e))
  {
    var s' := Step(s, e);
    WorkerFrame(s, e);
    StreamFrame(s, e);
    forall i | 0 <= i < |s'.workers| ensures WorkerMatchesCaller(s', i) {
      assert WorkerMatchesCaller(s, i);
      assert i == Mover(e) || (s'.workers[i] == s.workers[i] && s'.gate.callers[i] == s.gate.callers[i]);
    }
    forall i | 0 <= i < |s'.workers| ensures s'.workers[i].entry == s.workers[i].entry {}
  }

  lemma StepKeepsAckedBy(s: State, e: Event, i: nat, x: string)
    requires Enabled(s, e) && AckedBy(s, i, x)
    ensures AckedBy(Step(s, e), i, x)
  {
    if IsWorkerEvent(e) { WorkerFrame(s, e); } else { MainFrame(s, e); }
  }

  lemma StepKeepsAcksJustified(before: set<string>, s: State, e: Event)
    requires Enabled(s, e) && WorkersMatchCallers(s) && AcksJustified(before, s)
    ensures AcksJustified(before, Step(s, e))
  {
    var s' := Step(s, e);
    StreamFrame(s, e);
    forall x | x in s'.stream.acked && x !in before ensures exists i: nat :: AckedBy(s', i, x) {
      if x in s.stream.acked {
        var i: nat :| AckedBy(s, i, x);
        StepKeepsAckedBy(s, e, i, x);
      } else {
        assert WorkerMatchesCaller(s, e.i);
        assert AckedBy(s', e.i, x);
      }
    }
  }

  lemma StepKeepsInv(first: Stream, s: State, e: Event)
    requires Inv(first, s) && Enabled(s, e)
    ensures Inv(first, Step(s, e))
  {
    StepMovesOn(first, s, e);
    StepKeepsAcksJustified(first.acked, s, e);
    if IsWorkerEvent(e) {
      WorkerKeepsWorkersMatch(first, s, e);
    } else {
      MainKeepsWorkersMatch(first, s, e);
    }
  }

  /** At-least-once bookkeeping. On every interleaving, persist failures and ack errors included,
      each entry is in exactly one of undelivered, pending and acked and only moves forward; every
      goroutine handles its own, newly delivered entry; every new ack comes from a goroutine whose
      Admit returned nil; and what was pending at the start is pending for ever. */
  lemma {:induction false} DeliveryInvariant(s: State, es: seq<Event>)
    requires Init(s) && IsRun(s, es)
    ensures Inv(s.stream, After(s, es))
  {
    if es != [] {
      DeliveryInvariant(s, es[..|es| - 1]);
      StepKeepsInv(s.stream, After(s, es[..|es| - 1]), es[|es| - 1]);
    }
  }

  // Where an entry is, by the events of the run.

  /** A consume whose payload could not be read: the entry is delivered and nobody handles it. */
  ghost predicate WasLost(s: State, x: string) {
    x in s.stream.pending && forall i :: 0 <= i < |s.workers| ==> s.workers[i].entry != x
  }

  lemma StepKeepsLost(first: Stream, s: State, e: Event, x: string)
    requires Inv(first, s) && Enabled(s, e) && WasLost(s, x)
    ensures WasLost(Step(s, e), x)
  {
    StreamFrame(s, e);
    if IsWorkerEvent(e) {
      WorkerFrame(s, e);
      forall i | 0 <= i < |Step(s, e).workers| ensures Step(s, e).workers[i].entry != x {
        assert Step(s, e).workers[i].entry == s.workers[i].entry;
      }
    } else {
      MainFrame(s, e);
    }
  }

  lemma LosingShows(first: Stream, s: State, e: Event, x: string)
    requires Inv(first, s) && Enabled(s, e) && e == ConsumeNothing(Some(x))
    ensures WasLost(Step(s, e), x)
  {
    StreamFrame(s, e);
    MainFrame(s, e);
    forall i | 0 <= i < |s.workers| ensures s.workers[i].entry != x { assert WorkerMatchesCaller(s, i); }
  }

  /** An entry leaves the undelivered ones exactly by being consumed, and if its payload could not be
      read it is pending from then on and never handled. */
  lemma {:induction false} ConsumedByEvents(s: State, es: seq<Event>, x: string)
    requires Init(s) && IsRun(s, es) && x in s.stream.undelivered
    ensures x in After(s, es).stream.undelivered <==> ConsumeEntry(x) !in es && ConsumeNothing(Some(x)) !in es
    ensures ConsumeNothing(Some(x)) in es ==> WasLost(After(s, es), x)
  {
    if es != [] {
      var n := |es| - 1;
      var before := After(s, es[..n]);
      assert es == es[..n] + [es[n]];
      ConsumedByEvents(s, es[..n], x);
      DeliveryInvariant(s, es[..n]);
      StreamFrame(before, es[n]);
      if ConsumeNothing(Some(x)) in es[..n] {
        StepKeepsLost(s.stream, before, es[n], x);
      } else if es[n] == ConsumeNothing(Some(x)) {
        LosingShows(s.stream, before, es[n], x);
      }
    }
  }

  /** The server has applied worker i's ack. */
  predicate IsAppliedAck(e: Event, i: nat) {
    e.AckReturns? && e.applied && e.i == i
  }

  /** Some worker for x has had its ack applied. */
  ghost predicate WasAcked(s: State, es: seq<Event>, x: string) {
    exists i: nat, e :: e in es && IsAppliedAck(e, i) && i < |s.workers| && s.workers[i].entry == x
  }

  lemma AckShows(first: Stream, s: State, e: Event, x: string)
    requires Inv(first, s) && Enabled(s, e)
    ensures e.AckReturns? ==> e.i < |s.workers|
    ensures x in Step(s, e).stream.acked <==>
              x in s.stream.acked || (e.AckReturns? && e.applied && s.workers[e.i].entry == x)
  {}

  lemma EntriesStay(s: State, e: Event, i: nat)
    requires Enabled(s, e) && i < |s.workers|
    ensures i < |Step(s, e).workers| && Step(s, e).workers[i].entry == s.workers[i].entry
  {
    if IsWorkerEvent(e) { WorkerFrame(s, e); } else { MainFrame(s, e); }
  }

  /** An entry is acked exactly when an ack for it has been applied, reported back or not. */
  lemma {:induction false} AckedByEvents(s: State, es: seq<Event>, x: string)
    requires Init(s) && IsRun(s, es) && x in s.stream.undelivered
    ensures x in After(s, es).stream.acked ==> WasAcked(After(s, es), es, x)
    ensures forall i: nat, e :: e in es && IsAppliedAck(e, i) ==>
              i < |After(s, es).workers| && (After(s, es).workers[i].entry == x ==> x in After(s, es).stream.acked)
  {
    if es != [] {
      var n := |es| - 1;
      var before, t := After(s, es[..n]), After(s, es);
      assert es == es[..n] + [es[n]];
      AckedByEvents(s, es[..n], x);
      DeliveryInvariant(s, es[..n]);
      AckShows(s.stream, before, es[n], x);
      if x in t.stream.acked {
        if x in before.stream.acked {
          var i: nat, e :| e in es[..n] && IsAppliedAck(e, i) && i < |before.workers| && before.workers[i].entry == x;
          EntriesStay(before, es[n], i);
          assert e in es;
        } else {
          EntriesStay(before, es[n], es[n].i);
          assert es[n] in es && IsAppliedAck(es[n], es[n].i);
        }
      }
      forall i: nat, e | e in es && IsAppliedAck(e, i)
        ensures i < |t.workers| && (t.workers[i].entry == x ==> x in t.stream.acked)
      {
        if e in es[..n] {
          assert i < |before.workers|;
        }
        EntriesStay(before, es[n], i);
      }
    }
  }

  /** What XACK has returned to goroutine i, oldest first. */
  function AckReplies(es: seq<Event>, i: nat): seq<bool> {
    if es == [] then []
    else
      var n := |es| - 1;
      AckReplies(es[..n], i) + if es[n].AckReturns? && es[n].i == i then [es[n].ok] else []
  }

  /** How often Admit has returned to goroutine i. */
  function AdmitReturnCount(es: seq<Event>, i: nat): nat {
    if es == [] then 0
    else AdmitReturnCount(es[..|es| - 1], i) + if es[|es| - 1] == AdmitReturns(i) then 1 else 0
  }

  predicate SettlementFollows(w: WorkerPc, replies: seq<bool>, admits: nat) {
    && replies == (match Result(w)
                   case Some(Acked) => [true]
                   case Some(AckFailed) => [false]
                   case _ => [])
    && admits == if w.Admitting? then 0 else 1
  }

  lemma OthersLeaveWorker(s: State, e: Event, i: nat)
    requires Enabled(s, e) && i < |s.workers| && !(IsWorkerEvent(e) && Mover(e) == i)
    ensures i < |Step(s, e).workers| && Step(s, e).workers[i] == s.workers[i]
  {
    if IsWorkerEvent(e) { WorkerFrame(s, e); } else { MainFrame(s, e); }
  }

  lemma OwnStepSettles(s: State, e: Event, replies: seq<bool>, admits: nat)
    requires Enabled(s, e) && IsWorkerEvent(e) && Mover(e) < |s.workers| && !e.GateMove?
    requires SettlementFollows(s.workers[e.i].pc, replies, admits)
    ensures e.i < |Step(s, e).workers|
    ensures SettlementFollows(Step(s, e).workers[e.i].pc,
              replies + (if e.AckReturns? then [e.ok] else []), admits + if e.AdmitReturns? then 1 else 0)
  {}

  lemma StepSettles(s: State, e: Event, i: nat, replies: seq<bool>, admits: nat)
    requires Enabled(s, e) && i < |s.workers| && SettlementFollows(s.workers[i].pc, replies, admits)
    ensures i < |Step(s, e).workers|
    ensures SettlementFollows(Step(s, e).workers[i].pc,
              replies + (if e.AckReturns? && e.i == i then [e.ok] else []),
              admits + if e == AdmitReturns(i) then 1 else 0)
  {
    if !(IsWorkerEvent(e) && Mover(e) == i) {
      OthersLeaveWorker(s, e, i);
    } else if e.GateMove? {
      WorkerFrame(s, e);
    } else {
      OwnStepSettles(s, e, replies, admits);
    }
  }

  lemma WorkersStay(s: State, e: Event)
    requires Enabled(s, e)
    ensures |s.workers| <= |Step(s, e).workers|
    ensures e.AckReturns? || e.AdmitReturns? ==> e.i < |s.workers|
    ensures forall i :: |s.workers| <= i < |Step(s, e).workers| ==> Step(s, e).workers[i].pc == Admitting
  {}

  lemma {:induction false} NotYetSpawned(s: State, es: seq<Event>, i: nat)
    requires IsRun(s, es) && i >= |After(s, es).workers|
    ensures AckReplies(es, i) == [] && AdmitReturnCount(es, i) == 0
  {
    if es != [] {
      WorkersStay(After(s, es[..|es| - 1]), es[|es| - 1]);
      NotYetSpawned(s, es[..|es| - 1], i);
    }
  }

  /** A goroutine reports acked exactly if XACK returned nil to it, a failed ack exactly if it returned an
      error; Admit returns to it once, and XACK at most once and only after that. */
  lemma {:induction false} SettledByEvents(s: State, es: seq<Event>, i: nat)
    requires Init(s) && IsRun(s, es) && i < |After(s, es).workers|
    ensures SettlementFollows(After(s, es).workers[i].pc, AckReplies(es, i), AdmitReturnCount(es, i))
  {
    var n := |es| - 1;
    var before := After(s, es[..n]);
    WorkersStay(before, es[n]);
    if i < |before.workers| {
      SettledByEvents(s, es[..n], i);
      StepSettles(before, es[n], i, AckReplies(es[..n], i), AdmitReturnCount(es[..n], i));
    } else {
      NotYetSpawned(s, es[..n], i);
    }
  }

  /** What the gate does at an event, if anything. */
  function GateEvent(s: State, e: Event): Option<Gate.Event>
    requires Enabled(s, e)
  {
    match e
    case GateMove(g) => Some(g)
    case ConsumeEntry(x) => Some(Gate.Spawn(s.stream.runOf[x]))
    case _ => None
  }

  lemma GateStep(s: State, e: Event)
    requires Enabled(s, e)
    ensures var g := GateEvent(s, e);
      && (g.None? ==> Step(s, e).gate == s.gate)
      && (g.Some? ==> Gate.Enabled(s.gate, g.value) && Step(s, e).gate == Gate.Step(s.gate, g.value))
  {}

  lemma GateProjectionGrows(g0: Gate.State, gs: seq<Gate.Event>, before: State, e: Event) returns (more: seq<Gate.Event>)
    requires Enabled(before, e) && Gate.IsRun(g0, gs) && Gate.After(g0, gs) == before.gate
    ensures Gate.IsRun(g0, more) && Gate.After(g0, more) == Step(before, e).gate
  {
    GateStep(before, e);
    more := gs;
    var g := GateEvent(before, e);
    if g.Some? { more := Gate.Extend(g0, gs, g.value); }
  }

  /** What a goroutine's settlement says about its entry: acked is acked, a failed admit leaves the entry
      pending, and so does a goroutine still at work. */
  lemma {:induction false} SettlementTells(s: State, es: seq<Event>, i: nat)
    requires Init(s) && IsRun(s, es) && i < |After(s, es).workers|
    ensures var w, st := After(s, es).workers[i], After(s, es).stream;
      && (Result(w.pc) == Some(Acked) ==> w.entry in st.acked && w.entry !in st.pending)
      && (Result(w.pc) in {None, Some(AdmitFailed)} ==> w.entry in st.pending && w.entry !in st.acked)
      && (Result(w.pc) == Some(AckFailed) ==> w.entry in st.pending || w.entry in st.acked)
  {
    DeliveryInvariant(s, es);
    assert WorkerMatchesCaller(After(s, es), i);
  }

  /** Seen from the gate, the dispatcher performs one run of concurrent Admit calls. */
  lemma {:induction false} GateProjection(s: State, es: seq<Event>) returns (gs: seq<Gate.Event>)
    requires IsRun(s, es)
    ensures Gate.IsRun(s.gate, gs) && Gate.After(s.gate, gs) == After(s, es).gate
  {
    gs := [];
    if es != [] {
      var n := |es| - 1;
      gs := GateProjection(s, es[..n]);
      gs := GateProjectionGrows(s.gate, gs, After(s, es[..n]), es[n]);
    }
  }

  /** Worker i has acked x, and its Admit call was for x's run and returned nil. */
  lemma {:induction false} AckHasAdmit(s: State, es: seq<Event>, x: string) returns (i: nat)
    requires Init(s) && IsRun(s, es) && x in s.stream.runOf && x in After(s, es).stream.acked - s.stream.acked
    ensures var t := After(s, es);
      && AckedBy(t, i, x) && t.gate.callers[i] == Gate.Caller(s.stream.runOf[x], Gate.Returned(true))
    ensures x in s.stream.undelivered
  {
    DeliveryInvariant(s, es);
    i :| AckedBy(After(s, es), i, x);
    assert WorkerMatchesCaller(After(s, es), i);
  }

  /** With no assumption on run ids but that the run was not parked at the start: the record of an
      entry acked by this process is terminal, at the outcome of the first of all its Admit calls to
      reach the terminal update, or at what it already was. */
  lemma {:induction false} AckedMeansTerminal(s: State, es: seq<Event>, x: string)
    requires Init(s) && IsRun(s, es) && x in s.stream.runOf && x in After(s, es).stream.acked - s.stream.acked
    requires RunGate.Walkable(s.gate.records, s.stream.runOf[x])
    ensures var t, id := After(s, es), s.stream.runOf[x];
      && id in t.gate.records && IsTerminal(t.gate.records[id].state)
      && (if Gate.Stage(s.gate.records, id) == 4 then t.gate.records[id] == s.gate.records[id]
          else Gate.FirstAttempt(t.gate.attempts, id).Some? &&
               t.gate.records[id].state == RunGate.EndState(Gate.FirstAttempt(t.gate.attempts, id).value))
  {
    var i := AckHasAdmit(s, es, x);
    var gs := GateProjection(s, es);
    Gate.ConcurrentAdmits(s.gate, gs, s.stream.runOf[x], i);
  }

  /** A record changes only if an entry with its run id has been delivered to this process. */
  lemma {:induction false} ChangeHasEntry(s: State, es: seq<Event>, id: string) returns (x: string)
    requires Init(s) && IsRun(s, es) && Recs.Get(After(s, es).gate.records, id) != Recs.Get(s.gate.records, id)
    ensures x in s.stream.undelivered && x !in After(s, es).stream.undelivered
    ensures x in s.stream.runOf && s.stream.runOf[x] == id
  {
    DeliveryInvariant(s, es);
    var t := After(s, es);
    var gs := GateProjection(s, es);
    Gate.ChangeHasCaller(s.gate, gs, id);
    var i :| 0 <= i < |t.gate.callers| && t.gate.callers[i].runId == id;
    assert WorkerMatchesCaller(t, i);
    x := t.workers[i].entry;
  }
}
