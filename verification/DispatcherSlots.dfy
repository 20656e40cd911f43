/** Slots, the wait at the end, limits and sequential order of the dispatcher. */
module DispatcherSlots {
  import opened Common
  import opened Dispatcher
  import Stores = RunStores
  import Gate = GateSystem

  predicate HasSlot(w: Worker) {
    w.pc.Admitting? || w.pc.Acking? || w.pc.Settled?
  }

  predicate IsLive(w: Worker) {
    !w.pc.Gone?
  }

  predicate IsBusy(w: Worker) {
    w.pc.Admitting? || w.pc.Acking?
  }

  predicate MainHolds(m: MainPc) {
    m.Consuming? || ((m.Rechecking? || m.GivingBack?) && m.held)
  }

  function Bit(b: bool): int {
    if b then 1 else 0
  }

  /** Main has received a token it never sent. */
  predicate Overdrawn(s: State) {
    s.phantom && s.main.WaitingForAll?
  }

  ghost predicate SlotsAccounted(s: State) {
    s.tokens + Bit(Overdrawn(s)) == Count(s.workers, HasSlot) + Bit(MainHolds(s.main))
  }

  /** Where main can still be after the ctx.Done arm of the unlabelled select. */
  predicate PhantomPc(m: MainPc) {
    m in {Rechecking(false), GivingBack(false, true), WaitingForAll}
  }

  ghost predicate SlotInv(s: State) {
    && s.tokens <= s.cfg.cap
    && s.wg == Count(s.workers, IsLive)
    && s.dispatched == |s.workers|
    && |s.gate.callers| == |s.workers|
    && SlotsAccounted(s)
    && (s.phantom ==> !s.cfg.labelled && s.ctxDone && PhantomPc(s.main))
    && (!s.phantom ==> (s.main.Rechecking? || s.main.GivingBack?) ==> s.main.held)
  }

  lemma SpawnCounts(ws: seq<Worker>, x: string)
    ensures Count(ws + [Worker(x, Admitting)], HasSlot) == Count(ws, HasSlot) + 1
    ensures Count(ws + [Worker(x, Admitting)], IsLive) == Count(ws, IsLive) + 1
  {
    CountAppend(ws, Worker(x, Admitting), HasSlot);
    CountAppend(ws, Worker(x, Admitting), IsLive);
  }

  lemma SpawnFrame(s: State, x: string)
    requires Enabled(s, ConsumeEntry(x))
    ensures var s' := Step(s, ConsumeEntry(x));
      && s'.workers == s.workers + [Worker(x, Admitting)] && |s'.gate.callers| == |s.gate.callers| + 1
      && s'.dispatched == s.dispatched + 1 && s'.wg == s.wg + 1 && s'.tokens == s.tokens && s'.cfg == s.cfg
      && (s'.main.LoopTop? || s'.main.WaitingForAll?) && s.main.Consuming?
      && s'.phantom == s.phantom && s'.ctxDone == s.ctxDone
  {}

  lemma SpawnKeepsSlotInv(s: State, x: string)
    requires SlotInv(s) && Enabled(s, ConsumeEntry(x))
    ensures SlotInv(Step(s, ConsumeEntry(x)))
  {
    SpawnFrame(s, x);
    SpawnCounts(s.workers, x);
  }

  lemma MainKeepsSlotInv(s: State, e: Event)
    requires SlotInv(s) && Enabled(s, e) && !IsWorkerEvent(e) && !e.ConsumeEntry?
    ensures SlotInv(Step(s, e))
  {
    MainFrame(s, e);
    CountMonotone(s.workers, HasSlot, IsLive);
  }

  lemma MoveCounts(s: State, i: nat, w: Worker)
    requires i < |s.workers|
    ensures Count(s.workers[i := w], HasSlot) == Count(s.workers, HasSlot) - Bit(HasSlot(s.workers[i])) + Bit(HasSlot(w))
    ensures Count(s.workers[i := w], IsLive) == Count(s.workers, IsLive) - Bit(IsLive(s.workers[i])) + Bit(IsLive(w))
  {
    CountUpdate(s.workers, i, w, HasSlot);
    CountUpdate(s.workers, i, w, IsLive);
  }

  /** Tokens and the wait group follow the goroutine that moves. */
  lemma WorkerCounters(s: State, e: Event)
    requires Enabled(s, e) && IsWorkerEvent(e)
    ensures Mover(e) < |s.workers| && |Step(s, e).workers| == |s.workers|
    ensures var s', w, w' := Step(s, e), s.workers[Mover(e)], Step(s, e).workers[Mover(e)];
      && s'.tokens == s.tokens - Bit(HasSlot(w)) + Bit(HasSlot(w'))
      && s'.wg == s.wg - Bit(IsLive(w)) + Bit(IsLive(w'))
  {}

  lemma WorkerKeepsSlotInv(s: State, e: Event)
    requires SlotInv(s) && Enabled(s, e) && IsWorkerEvent(e)
    ensures SlotInv(Step(s, e))
  {
    WorkerFrame(s, e);
    WorkerCounters(s, e);
    MoveCounts(s, Mover(e), Step(s, e).workers[Mover(e)]);
  }

  lemma StepKeepsSlotInv(s: State, e: Event)
    requires SlotInv(s) && Enabled(s, e)
    ensures SlotInv(Step(s, e)) && Step(s, e).cfg == s.cfg
  {
    if IsWorkerEvent(e) {
      WorkerFrame(s, e);
      WorkerKeepsSlotInv(s, e);
    } else {
      MainFrame(s, e);
      if e.ConsumeEntry? { SpawnKeepsSlotInv(s, e.entry); } else { MainKeepsSlotInv(s, e); }
    }
  }

  lemma {:induction false} SlotInvariant(s: State, es: seq<Event>)
    requires Init(s) && IsRun(s, es)
    ensures SlotInv(After(s, es)) && After(s, es).cfg == s.cfg
  {
    if es != [] {
      SlotInvariant(s, es[..|es| - 1]);
      StepKeepsSlotInv(After(s, es[..|es| - 1]), es[|es| - 1]);
    }
  }

  lemma {:induction false} ExitedIsQuiet(s: State, es: seq<Event>)
    requires Init(s) && IsRun(s, es) && After(s, es).main.Exited?
    ensures After(s, es).wg == 0
  {
    var n := |es| - 1;
    if IsWorkerEvent(es[n]) { WorkerFrame(After(s, es[..n]), es[n]); } else { MainFrame(After(s, es[..n]), es[n]); }
  }

  /** On every run that does not take the unlabelled ctx.Done arm, the tokens in sem are the slots of
      the goroutines that have not given theirs back, plus main's. So at most cap runs are in
      progress, none but cap - 1 while main consumes, and sem is empty when the wait is over. */
  lemma {:induction false} SlotAccounting(s: State, es: seq<Event>)
    requires Init(s) && IsRun(s, es) && !After(s, es).phantom
    ensures var t := After(s, es);
      && t.tokens == Count(t.workers, HasSlot) + Bit(MainHolds(t.main))
      && Count(t.workers, IsBusy) <= Count(t.workers, HasSlot) <= s.cfg.cap
      && (t.main.Consuming? ==> Count(t.workers, HasSlot) < s.cfg.cap)
      && (t.main.GivingBack? ==> Enabled(t, GiveBack))
      && (t.main.Exited? ==> t.tokens == 0 && t.wg == 0 && forall i :: 0 <= i < |t.workers| ==> t.workers[i].pc.Gone?)
  {
    SlotInvariant(s, es);
    var t := After(s, es);
    CountMonotone(t.workers, IsBusy, HasSlot);
    CountMonotone(t.workers, HasSlot, IsLive);
    if t.main.Exited? {
      ExitedIsQuiet(s, es);
      CountPositive(t.workers, IsLive);
    }
  }

  lemma {:induction false} PhantomIsStuck(s: State, es: seq<Event>)
    requires Init(s) && IsRun(s, es) && After(s, es).phantom
    ensures var t := After(s, es);
      PhantomPc(t.main) && !Enabled(t, PassWait) && (t.main.WaitingForAll? ==> t.wg > 0)
  {
    SlotInvariant(s, es);
    CountMonotone(After(s, es).workers, HasSlot, IsLive);
  }

  lemma StepKeepsPhantom(s: State, e: Event)
    requires Enabled(s, e) && s.phantom
    ensures Step(s, e).phantom
  {
    if IsWorkerEvent(e) { WorkerFrame(s, e); } else { MainFrame(s, e); }
  }

  lemma {:induction false} PhantomIsForever(s: State, es: seq<Event>, more: seq<Event>)
    requires es <= more && IsRun(s, es) && IsRun(s, more) && After(s, es).phantom
    ensures After(s, more).phantom
    decreases |more|
  {
    if more != es {
      var n := |more| - 1;
      PhantomIsForever(s, es, more[..n]);
      StepKeepsPhantom(After(s, more[..n]), more[n]);
    }
  }

  /** A run that takes that arm never gets past wg.Wait, however it goes on: main receives one of
      the goroutines' tokens, one goroutine can never give its own back, and the wait group never
      reaches zero; or main never receives one and stays at the receive. */
  lemma {:induction false} PhantomNeverExits(s: State, es: seq<Event>)
    requires Init(s) && IsRun(s, es) && After(s, es).phantom
    ensures var t := After(s, es);
      && PhantomPc(t.main) && !Enabled(t, PassWait)
      && (t.main.WaitingForAll? ==> t.wg > 0)
    ensures forall more :: es <= more && IsRun(s, more) ==> !After(s, more).main.Exited?
  {
    PhantomIsStuck(s, es);
    forall more | es <= more && IsRun(s, more) ensures !After(s, more).main.Exited? {
      PhantomIsForever(s, es, more);
      PhantomIsStuck(s, more);
    }
  }

  // The other half: without the arm the wait ends.

  /** Steps an Admit call still has to take. */
  function AdmitLeft(c: Gate.Pc): nat {
    match c
    case AtEnqueue => 5
    case AtAdmitted => 4
    case AtRunning => 3
    case InRun => 2
    case AtTerminal(_) => 1
    case _ => 0
  }

  /** Steps a goroutine still has to take. */
  function StepsLeft(w: WorkerPc, c: Gate.Pc): nat {
    match w
    case Admitting => 4 + AdmitLeft(c)
    case Acking => 3
    case Settled(_) => 2
    case Released(_) => 1
    case Gone(_) => 0
  }

  function TotalLeft(ws: seq<Worker>, cs: seq<Gate.Caller>): nat
    requires |ws| == |cs|
  {
    if ws == [] then 0
    else TotalLeft(ws[..|ws| - 1], cs[..|cs| - 1]) + StepsLeft(ws[|ws| - 1].pc, cs[|cs| - 1].pc)
  }

  lemma {:induction false} TotalLeftUpdate(ws: seq<Worker>, cs: seq<Gate.Caller>, i: nat, w: Worker, c: Gate.Caller)
    requires |ws| == |cs| && i < |ws|
    ensures TotalLeft(ws[i := w], cs[i := c]) + StepsLeft(ws[i].pc, cs[i].pc) == TotalLeft(ws, cs) + StepsLeft(w.pc, c.pc)
  {
    var n := |ws| - 1;
    if i == n {
      assert ws[i := w][..n] == ws[..n] && cs[i := c][..n] == cs[..n];
    } else {
      assert ws[i := w][..n] == ws[..n][i := w] && cs[i := c][..n] == cs[..n][i := c];
      TotalLeftUpdate(ws[..n], cs[..n], i, w, c);
    }
  }

  lemma GateMoveCountsDown(g: Gate.State, e: Gate.Event)
    requires Gate.Enabled(g, e) && !e.Spawn?
    ensures e.i < |g.callers| && |Gate.Step(g, e).callers| == |g.callers|
    ensures AdmitLeft(Gate.Step(g, e).callers[e.i].pc) < AdmitLeft(g.callers[e.i].pc)
  {}

  lemma MoverStepsCountDown(s: State, e: Event)
    requires Enabled(s, e) && IsWorkerEvent(e) && Mover(e) < |s.gate.callers|
    ensures Mover(e) < |s.workers| && |Step(s, e).workers| == |s.workers|
    ensures |Step(s, e).gate.callers| == |s.gate.callers|
    ensures StepsLeft(Step(s, e).workers[Mover(e)].pc, Step(s, e).gate.callers[Mover(e)].pc)
            < StepsLeft(s.workers[Mover(e)].pc, s.gate.callers[Mover(e)].pc)
  {
    if e.GateMove? { GateMoveCountsDown(s.gate, e.g); }
  }

  lemma WorkerStepsCountDown(s: State, e: Event)
    requires |s.workers| == |s.gate.callers| && Enabled(s, e) && IsWorkerEvent(e)
    ensures |Step(s, e).gate.callers| == |Step(s, e).workers|
    ensures TotalLeft(Step(s, e).workers, Step(s, e).gate.callers) < TotalLeft(s.workers, s.gate.callers)
  {
    var s', i := Step(s, e), Mover(e);
    WorkerFrame(s, e);
    MoverStepsCountDown(s, e);
    TotalLeftUpdate(s.workers, s.gate.callers, i, s'.workers[i], s'.gate.callers[i]);
  }

  /** A goroutine that has not ended can move, provided main has not taken its token. */
  lemma LiveWorkerCanMove(s: State, i: nat) returns (e: Event)
    requires SlotInv(s) && !s.phantom && s.main.WaitingForAll? && i < |s.workers| && IsLive(s.workers[i])
    ensures Enabled(s, e) && IsWorkerEvent(e)
  {
    var c := s.gate.callers[i].pc;
    match s.workers[i].pc
    case Admitting =>
      e := if AdmitReturned(c) then AdmitReturns(i)
           else if c.InRun? then GateMove(Gate.RunDone(i, true))
           else GateMove(Gate.StoreCall(i, Stores.NoFault));
    case Acking => e := AckReturns(i, true, true);
    case Settled(_) =>
      e := Release(i);
      CountPositive(s.workers, HasSlot);
    case Released(_) => e := WorkerEnds(i);
  }

  lemma SomeWorkerCanMove(s: State) returns (e: Event)
    requires SlotInv(s) && !s.phantom && s.main.WaitingForAll? && s.wg != 0
    ensures Enabled(s, e) && IsWorkerEvent(e)
  {
    CountPositive(s.workers, IsLive);
    var i :| 0 <= i < |s.workers| && IsLive(s.workers[i]);
    e := LiveWorkerCanMove(s, i);
  }

  /** At the wait, or past it, without the arm, the invariants holding. */
  ghost predicate Drains(s: State) {
    SlotInv(s) && !s.phantom && (s.main.WaitingForAll? || s.main.Exited?)
  }

  function Left(s: State): nat
    requires |s.workers| == |s.gate.callers|
  {
    TotalLeft(s.workers, s.gate.callers)
  }

  /** Every step from the wait leaves main there or past it, and a goroutine's step uses up one of
      those it had left. */
  lemma DrainStep(s: State, e: Event)
    requires Drains(s) && Enabled(s, e)
    ensures Drains(Step(s, e))
    ensures Left(Step(s, e)) + (if IsWorkerEvent(e) then 1 else 0) <= Left(s)
  {
    StepKeepsSlotInv(s, e);
    if IsWorkerEvent(e) {
      WorkerFrame(s, e);
      WorkerStepsCountDown(s, e);
    } else {
      MainFrame(s, e);
    }
  }

  lemma {:induction false} DrainGoroutines(s: State, es: seq<Event>, left: nat) returns (full: seq<Event>)
    requires IsRun(s, es) && Drains(After(s, es)) && left == Left(After(s, es))
    ensures es <= full && IsRun(s, full) && After(s, full).main.Exited?
    decreases left
  {
    full := es;
    var t := After(s, es);
    if t.main.WaitingForAll? {
      if t.wg == 0 {
        full := Extend(s, es, PassWait);
      } else {
        var e := SomeWorkerCanMove(t);
        full := Extend(s, es, e);
        DrainStep(t, e);
        full := DrainGoroutines(s, full, Left(After(s, full)));
      }
    }
  }

  /** Goroutine steps since a wait plus those still left never exceed what was left at the wait. */
  lemma {:induction false} DrainBudget(s: State, es: seq<Event>, more: seq<Event>)
    requires es <= more && IsRun(s, es) && IsRun(s, more) && Drains(After(s, es))
    ensures Drains(After(s, more))
    ensures Count(more, IsWorkerEvent) + Left(After(s, more)) <= Count(es, IsWorkerEvent) + Left(After(s, es))
    decreases |more|
  {
    if more != es {
      var n := |more| - 1;
      DrainBudget(s, es, more[..n]);
      DrainStep(After(s, more[..n]), more[n]);
    }
  }

  /** Main can pass the wait, or some goroutine can move. */
  ghost predicate CanProceed(s: State) {
    exists e :: Enabled(s, e) && (IsWorkerEvent(e) || e.PassWait?)
  }

  lemma WaitCanProceed(s: State)
    requires Drains(s) && s.main.WaitingForAll?
    ensures CanProceed(s)
  {
    if s.wg == 0 {
      assert Enabled(s, PassWait);
    } else {
      var e := SomeWorkerCanMove(s);
    }
  }

  /** Without the arm, a main that waits does get past the wait: however the run goes on, the
      goroutines take no more steps than they had left, and until main is out either the wait can be
      passed or some goroutine can move. So of the runs that reach the wait, exactly those that took
      the arm are stuck there for good. */
  lemma {:induction false} WaitIsPassed(s: State, es: seq<Event>) returns (full: seq<Event>)
    requires Init(s) && IsRun(s, es) && After(s, es).main.WaitingForAll?
    ensures |After(s, es).workers| == |After(s, es).gate.callers|
    ensures !After(s, es).phantom ==> es <= full && IsRun(s, full) && After(s, full).main.Exited?
    ensures !After(s, es).phantom ==>
              forall more :: es <= more && IsRun(s, more) ==>
                && Count(more, IsWorkerEvent) <= Count(es, IsWorkerEvent) + Left(After(s, es))
                && (After(s, more).main.Exited? || CanProceed(After(s, more)))
    ensures After(s, es).phantom ==>
              forall more :: es <= more && IsRun(s, more) ==> !After(s, more).main.Exited?
  {
    full := es;
    SlotInvariant(s, es);
    if After(s, es).phantom {
      PhantomNeverExits(s, es);
    } else {
      full := DrainGoroutines(s, es, Left(After(s, es)));
      forall more | es <= more && IsRun(s, more)
        ensures Count(more, IsWorkerEvent) <= Count(es, IsWorkerEvent) + Left(After(s, es))
        ensures After(s, more).main.Exited? || CanProceed(After(s, more))
      {
        DrainBudget(s, es, more);
        if After(s, more).main.WaitingForAll? { WaitCanProceed(After(s, more)); }
      }
    }
  }

  // Limits and counts.

  predicate IsAcked(w: Worker) {
    !IsBusy(w) && w.pc.r == Acked
  }

  predicate IsAdmitFailed(w: Worker) {
    !IsBusy(w) && w.pc.r == AdmitFailed
  }

  predicate IsAckFailed(w: Worker) {
    !IsBusy(w) && w.pc.r == AckFailed
  }

  lemma {:induction false} SettlementsShareOut(ws: seq<Worker>)
    ensures Count(ws, IsAcked) + Count(ws, IsAdmitFailed) + Count(ws, IsAckFailed) + Count(ws, IsBusy) == |ws|
  {
    if ws != [] {
      SettlementsShareOut(ws[..|ws| - 1]);
    }
  }

  ghost predicate LimitInv(s: State) {
    && (s.cfg.maxRuns > 0 ==> s.dispatched <= s.cfg.maxRuns)
    && (s.cfg.maxRuns > 0 && s.main.Consuming? ==> s.dispatched < s.cfg.maxRuns)
    && (s.cfg.once && !s.main.WaitingForAll? && !s.main.Exited? ==> s.dispatched == 0)
    && (s.cfg.once ==> s.dispatched <= 1)
  }

  lemma StepKeepsLimitInv(s: State, e: Event)
    requires LimitInv(s) && Enabled(s, e)
    ensures LimitInv(Step(s, e)) && Step(s, e).cfg == s.cfg
  {
    if IsWorkerEvent(e) { WorkerFrame(s, e); } else { MainFrame(s, e); }
  }

  lemma {:induction false} LimitInvariant(s: State, es: seq<Event>)
    requires Init(s) && IsRun(s, es)
    ensures LimitInv(After(s, es)) && After(s, es).cfg == s.cfg
  {
    if es != [] {
      LimitInvariant(s, es[..|es| - 1]);
      StepKeepsLimitInv(After(s, es[..|es| - 1]), es[|es| - 1]);
    }
  }

  /** A positive maxRuns is never exceeded, once consumes at most one, and at exit every dispatched run
      has been acked, has failed to be admitted or has failed to be acked. */
  lemma {:induction false} DispatchCounts(s: State, es: seq<Event>)
    requires Init(s) && IsRun(s, es)
    ensures var t := After(s, es);
      && (s.cfg.maxRuns > 0 ==> t.dispatched <= s.cfg.maxRuns)
      && (s.cfg.once ==> t.dispatched <= 1)
      && (t.main.Exited? ==>
            t.dispatched == Count(t.workers, IsAcked) + Count(t.workers, IsAdmitFailed) + Count(t.workers, IsAckFailed))
  {
    SlotInvariant(s, es);
    LimitInvariant(s, es);
    var t := After(s, es);
    SettlementsShareOut(t.workers);
    if t.main.Exited? {
      ExitedIsQuiet(s, es);
      CountMonotone(t.workers, IsBusy, IsLive);
    }
  }

  // One slot.

  predicate InTurn(trace: seq<Act>, k: nat)
    requires k < |trace|
  {
    if k % 2 == 0 then trace[k].Consumed? else trace[k] == Completed(trace[k - 1].entry)
  }

  /** Consume, settle that entry, consume the next: a plain sequential loop. */
  ghost predicate IsSequential(trace: seq<Act>) {
    forall k :: 0 <= k < |trace| ==> InTurn(trace, k)
  }

  ghost predicate BusyMatches(ws: seq<Worker>, trace: seq<Act>) {
    && Count(ws, IsBusy) == |trace| % 2
    && (forall i :: 0 <= i < |ws| && IsBusy(ws[i]) && |trace| > 0 ==> trace[|trace| - 1] == Consumed(ws[i].entry))
  }

  /** With one slot the trace is ahead by a consume exactly while that entry's goroutine is busy. */
  ghost predicate SequentialInv(s: State) {
    IsSequential(s.trace) && BusyMatches(s.workers, s.trace)
  }

  lemma TraceGrows(trace: seq<Act>, a: Act)
    requires IsSequential(trace)
    requires if |trace| % 2 == 0 then a.Consumed? else a == Completed(trace[|trace| - 1].entry)
    ensures IsSequential(trace + [a])
  {
    var t := trace + [a];
    forall k | 0 <= k < |t| ensures InTurn(t, k) {
      if k < |trace| {
        assert InTurn(trace, k);
      }
    }
  }

  lemma MainKeepsSequentialInv(s: State, e: Event)
    requires s.cfg.cap <= 1 && SlotInv(s) && SequentialInv(s) && Enabled(s, e) && !IsWorkerEvent(e)
    ensures SequentialInv(Step(s, e))
  {
    MainFrame(s, e);
    if e.ConsumeEntry? {
      CountMonotone(s.workers, IsBusy, HasSlot);
      CountPositive(s.workers, IsBusy);
      CountAppend(s.workers, Worker(e.entry, Admitting), IsBusy);
      TraceGrows(s.trace, Consumed(e.entry));
    }
  }

  /** A goroutine stops being busy exactly when it settles its entry. */
  lemma SettlingShows(s: State, e: Event)
    requires Enabled(s, e) && IsWorkerEvent(e)
    ensures Mover(e) < |s.workers| && |Step(s, e).workers| == |s.workers|
    ensures var s', i := Step(s, e), Mover(e);
      || (s'.trace == s.trace && IsBusy(s'.workers[i]) == IsBusy(s.workers[i]))
      || (s'.trace == s.trace + [Completed(s.workers[i].entry)] && IsBusy(s.workers[i]) && !IsBusy(s'.workers[i]))
  {}

  lemma BusyAfter(ws: seq<Worker>, trace: seq<Act>, ws': seq<Worker>, trace': seq<Act>, i: nat)
    requires i < |ws| && |ws'| == |ws| && ws' == ws[i := ws'[i]] && ws'[i].entry == ws[i].entry
    requires IsSequential(trace) && BusyMatches(ws, trace)
    requires
      || (trace' == trace && IsBusy(ws'[i]) == IsBusy(ws[i]))
      || (trace' == trace + [Completed(ws[i].entry)] && IsBusy(ws[i]) && !IsBusy(ws'[i]))
    ensures IsSequential(trace') && BusyMatches(ws', trace')
  {
    CountUpdate(ws, i, ws'[i], IsBusy);
    CountPositive(ws, IsBusy);
    if trace' != trace {
      TraceGrows(trace, Completed(ws[i].entry));
      CountPositive(ws', IsBusy);
    }
  }

  lemma WorkerKeepsSequentialInv(s: State, e: Event)
    requires SequentialInv(s) && Enabled(s, e) && IsWorkerEvent(e)
    ensures SequentialInv(Step(s, e))
  {
    WorkerFrame(s, e);
    SettlingShows(s, e);
    var s', i := Step(s, e), Mover(e);
    BusyAfter(s.workers, s.trace, s'.workers, s'.trace, i);
  }

  lemma {:induction false} SequentialInvariant(s: State, es: seq<Event>)
    requires Init(s) && s.cfg.cap <= 1 && IsRun(s, es)
    ensures SequentialInv(After(s, es))
  {
    if es != [] {
      var n := |es| - 1;
      SequentialInvariant(s, es[..n]);
      SlotInvariant(s, es[..n]);
      if IsWorkerEvent(es[n]) {
        WorkerKeepsSequentialInv(After(s, es[..n]), es[n]);
      } else {
        MainKeepsSequentialInv(After(s, es[..n]), es[n]);
      }
    }
  }

  /** With one slot the dispatcher is a sequential loop: it consumes an entry, that entry's admit and
      ack attempt are over, it consumes the next; and when it is about to consume all earlier
      entries are settled. */
  lemma {:induction false} OneSlotIsSequential(s: State, es: seq<Event>)
    requires Init(s) && s.cfg.cap <= 1 && IsRun(s, es)
    ensures IsSequential(After(s, es).trace)
    ensures After(s, es).main.Consuming? ==>
              |After(s, es).trace| % 2 == 0 &&
              forall i :: 0 <= i < |After(s, es).workers| ==> !IsBusy(After(s, es).workers[i])
  {
    SequentialInvariant(s, es);
    SlotInvariant(s, es);
    CountMonotone(After(s, es).workers, IsBusy, HasSlot);
    CountPositive(After(s, es).workers, IsBusy);
  }

  /** The repaired loop keeps the accounting on every run, and a wait that is reached is passed. */
  lemma {:induction false} LabelledBreakRepairs(s: State, es: seq<Event>) returns (full: seq<Event>)
    requires Init(s) && s.cfg.labelled && IsRun(s, es)
    ensures !After(s, es).phantom
    ensures After(s, es).tokens == Count(After(s, es).workers, HasSlot) + Bit(MainHolds(After(s, es).main))
    ensures After(s, es).main.WaitingForAll? ==> es <= full && IsRun(s, full) && After(s, full).main.Exited?
  {
    SlotInvariant(s, es);
    full := es;
    if After(s, es).main.WaitingForAll? {
      full := WaitIsPassed(s, es);
    }
  }

  /** The arm can be taken: with the context ending while main is in the select, the code as written
      has taken it after three events. */
  lemma {:induction false} PhantomHappens(s: State) returns (es: seq<Event>)
    requires Init(s) && !s.cfg.labelled
    ensures IsRun(s, es) && After(s, es).phantom && |es| == 3
  {
    es := Extend(s, [], MainGoes);
    es := Extend(s, es, ContextEnds);
    es := Extend(s, es, SeeDone);
  }
}
