/** The dispatcher of cmd/ingress as a state machine: one main goroutine that takes a slot,
    consumes and spawns, and one goroutine per run that admits, acks and gives the slot back. */
module Dispatcher {
  import opened Common
  import Gate = GateSystem

  /** labelled false is the code as written: the break in the ctx.Done arm leaves only the select.
      labelled true is the loop with that break leaving the loop. maxRuns 0 means no limit. */
  datatype Config = Config(cap: nat, maxRuns: nat, once: bool, labelled: bool)

  /** held: main has sent a token into sem and not passed it on. */
  datatype MainPc =
    | LoopTop
    | Selecting
    | Rechecking(held: bool)
    | GivingBack(held: bool, exit: bool)  // the receive from sem, then leave the loop or go on
    | Consuming
    | WaitingForAll                       // wg.Wait
    | Exited

  datatype Settlement = AdmitFailed | Acked | AckFailed

  datatype WorkerPc =
    | Admitting               // inside gate.Admit
    | Acking                  // Admit returned nil, XACK not yet done
    | Settled(r: Settlement)  // deferred receive from sem next
    | Released(r: Settlement) // deferred wg.Done next
    | Gone(r: Settlement)

  datatype Worker = Worker(entry: string, pc: WorkerPc)

  /** Stream entries by delivery state; runOf gives the run id in an entry's payload. */
  datatype Stream = Stream(undelivered: set<string>, pending: set<string>, acked: set<string>, runOf: map<string, string>)

  datatype Act = Consumed(entry: string) | Completed(entry: string)

  /** phantom: the select's ctx.Done arm has been taken in the code as written. trace: consumes and
      settlements in order. Both only describe the run. */
  datatype State = State(
    cfg: Config,
    main: MainPc,
    tokens: nat,
    wg: int,
    dispatched: nat,
    ctxDone: bool,
    workers: seq<Worker>,
    gate: Gate.State,
    stream: Stream,
    phantom: bool,
    trace: seq<Act>)

  datatype Event =
    | ContextEnds
    | MainGoes                              // LoopTop, Rechecking: the checks
    | TakeSlot                              // select, first arm
    | SeeDone                               // select, ctx.Done arm
    | GiveBack                              // receive from sem
    | ConsumeNothing(lost: Option<string>)  // empty or error; a malformed entry is pending after it
    | ConsumeEntry(entry: string)
    | PassWait
    | GateMove(g: Gate.Event)               // worker i inside Admit
    | AdmitReturns(i: nat)
    | AckReturns(i: nat, ok: bool, applied: bool)
    | Release(i: nat)
    | WorkerEnds(i: nat)

  predicate LimitReached(s: State) {
    s.cfg.maxRuns > 0 && s.dispatched >= s.cfg.maxRuns
  }

  predicate GateEnabled(s: State, g: Gate.Event) {
    !g.Spawn? && Gate.Enabled(s.gate, g) && g.i < |s.workers| && s.workers[g.i].pc.Admitting?
  }

  predicate AdmitReturned(pc: Gate.Pc) {
    pc.Returned? || pc.Rejected?
  }

  predicate Enabled(s: State, e: Event) {
    s.main != Exited &&
    match e
    case ContextEnds => true
    case MainGoes => s.main.LoopTop? || s.main.Rechecking?
    case TakeSlot => s.main.Selecting? && s.tokens < s.cfg.cap
    case SeeDone => s.main.Selecting? && s.ctxDone
    case GiveBack => s.main.GivingBack? && s.tokens > 0
    case ConsumeNothing(lost) => s.main.Consuming? && (lost.Some? ==> lost.value in s.stream.undelivered)
    case ConsumeEntry(x) => s.main.Consuming? && x in s.stream.undelivered && x in s.stream.runOf
    case PassWait => s.main.WaitingForAll? && s.wg == 0
    case GateMove(g) => GateEnabled(s, g)
    case AdmitReturns(i) =>
      i < |s.workers| && s.workers[i].pc.Admitting? && i < |s.gate.callers| && AdmitReturned(s.gate.callers[i].pc)
    case AckReturns(i, ok, applied) => i < |s.workers| && s.workers[i].pc.Acking? && (ok ==> applied)
    case Release(i) => i < |s.workers| && s.workers[i].pc.Settled? && s.tokens > 0
    case WorkerEnds(i) => i < |s.workers| && s.workers[i].pc.Released?
  }

  function Deliver(st: Stream, x: string): Stream {
    st.(undelivered := st.undelivered - {x}, pending := st.pending + {x})
  }

  function Ack(st: Stream, x: string): Stream {
    st.(pending := st.pending - {x}, acked := st.acked + {x})
  }

  function MoveWorker(s: State, i: nat, pc: WorkerPc): State
    requires i < |s.workers|
  {
    s.(workers := s.workers[i := s.workers[i].(pc := pc)])
  }

  function Settle(s: State, i: nat, r: Settlement): State
    requires i < |s.workers|
  {
    MoveWorker(s, i, Settled(r)).(trace := s.trace + [Completed(s.workers[i].entry)])
  }

  function Check(s: State): MainPc
    requires s.main.LoopTop? || s.main.Rechecking?
  {
    var stop := s.ctxDone || LimitReached(s);
    match s.main
    case LoopTop => if stop then WaitingForAll else Selecting
    case Rechecking(held) => if stop then GivingBack(held, true) else Consuming
  }

  function Spawn(s: State, x: string): State
    requires x in s.stream.runOf
  {
    s.(main := if s.cfg.once then WaitingForAll else LoopTop,
       dispatched := s.dispatched + 1,
       wg := s.wg + 1,
       workers := s.workers + [Worker(x, Admitting)],
       gate := Gate.Step(s.gate, Gate.Spawn(s.stream.runOf[x])),
       stream := Deliver(s.stream, x),
       trace := s.trace + [Consumed(x)])
  }

  predicate IsWorkerEvent(e: Event) {
    e.GateMove? || e.AdmitReturns? || e.AckReturns? || e.Release? || e.WorkerEnds?
  }

  function MainStep(s: State, e: Event): State
    requires Enabled(s, e) && !IsWorkerEvent(e)
  {
    match e
    case ContextEnds => s.(ctxDone := true)
    case MainGoes => s.(main := Check(s))
    case TakeSlot => s.(tokens := s.tokens + 1, main := Rechecking(true))
    case SeeDone =>
      if s.cfg.labelled then s.(main := WaitingForAll)
      else s.(main := Rechecking(false), phantom := true)
    case GiveBack => s.(tokens := s.tokens - 1, main := if s.main.exit then WaitingForAll else LoopTop)
    case ConsumeNothing(lost) =>
      s.(main := GivingBack(true, false), stream := if lost.Some? then Deliver(s.stream, lost.value) else s.stream)
    case ConsumeEntry(x) => Spawn(s, x)
    case PassWait => s.(main := Exited)
  }

  function WorkerStep(s: State, e: Event): State
    requires Enabled(s, e) && IsWorkerEvent(e)
  {
    match e
    case GateMove(g) => s.(gate := Gate.Step(s.gate, g))
    case AdmitReturns(i) =>
      if s.gate.callers[i].pc == Gate.Returned(true) then MoveWorker(s, i, Acking) else Settle(s, i, AdmitFailed)
    case AckReturns(i, ok, applied) =>
      Settle(s, i, if ok then Acked else AckFailed).(
        stream := if applied then Ack(s.stream, s.workers[i].entry) else s.stream)
    case Release(i) => MoveWorker(s, i, Released(s.workers[i].pc.r)).(tokens := s.tokens - 1)
    case WorkerEnds(i) => MoveWorker(s, i, Gone(s.workers[i].pc.r)).(wg := s.wg - 1)
  }

  function Step(s: State, e: Event): State
    requires Enabled(s, e)
  {
    if IsWorkerEvent(e) then WorkerStep(s, e) else MainStep(s, e)
  }

  function Mover(e: Event): nat
    requires IsWorkerEvent(e) && (e.GateMove? ==> !e.g.Spawn?)
  {
    if e.GateMove? then e.g.i else e.i
  }

  /** A goroutine's step moves only that goroutine and its Admit call. */
  lemma WorkerFrame(s: State, e: Event)
    requires Enabled(s, e) && IsWorkerEvent(e)
    ensures var s', i := Step(s, e), Mover(e);
      && i < |s.workers| && |s'.workers| == |s.workers| && s'.workers == s.workers[i := s'.workers[i]]
      && s'.workers[i].entry == s.workers[i].entry
      && s'.cfg == s.cfg && s'.main == s.main && s'.dispatched == s.dispatched
      && s'.ctxDone == s.ctxDone && s'.phantom == s.phantom
    ensures !e.GateMove? ==> Step(s, e).gate == s.gate
    ensures e.GateMove? ==> Step(s, e).workers == s.workers
    ensures |Step(s, e).gate.callers| == |s.gate.callers|
    ensures Mover(e) < |s.gate.callers| ==>
      Step(s, e).gate.callers == s.gate.callers[Mover(e) := Step(s, e).gate.callers[Mover(e)]]
  {}

  /** Main's step leaves the goroutines alone, but for the one it spawns. */
  lemma MainFrame(s: State, e: Event)
    requires Enabled(s, e) && !IsWorkerEvent(e)
    ensures var s' := Step(s, e);
      && s'.cfg == s.cfg && (s.phantom ==> s'.phantom) && (s'.main.Exited? ==> s.wg == 0 && s'.wg == 0)
    ensures !e.ConsumeEntry? ==>
      && Step(s, e).workers == s.workers && Step(s, e).gate == s.gate && Step(s, e).wg == s.wg
      && Step(s, e).dispatched == s.dispatched && Step(s, e).trace == s.trace
  {}

  /** Entries already pending or acked were delivered to an earlier process. */
  ghost predicate Init(s: State) {
    && s.main == LoopTop && s.tokens == 0 && s.wg == 0 && s.dispatched == 0 && !s.ctxDone
    && s.workers == [] && !s.phantom && s.trace == [] && Gate.Init(s.gate)
    && s.stream.undelivered !! s.stream.pending !! s.stream.acked
  }

  predicate IsRun(s: State, es: seq<Event>)
    decreases |es|, 0
  {
    es == [] || (IsRun(s, es[..|es| - 1]) && Enabled(After(s, es[..|es| - 1]), es[|es| - 1]))
  }

  function After(s: State, es: seq<Event>): State
    requires IsRun(s, es)
    decreases |es|, 1
  {
    if es == [] then s else Step(After(s, es[..|es| - 1]), es[|es| - 1])
  }

  lemma {:induction false} Extend(s: State, es: seq<Event>, e: Event) returns (more: seq<Event>)
    requires IsRun(s, es) && Enabled(After(s, es), e)
    ensures more == es + [e] && IsRun(s, more) && After(s, more) == Step(After(s, es), e)
  {
    more := es + [e];
    assert more[..|es|] == es;
  }
}
