/** When main leaves its loop, when it goes round again, and when it stops consuming. */
module DispatcherLoop {
  import opened Common
  import opened Dispatcher
  import opened DispatcherSlots

  /** The context is done, maxRuns is used up, or once has been served. */
  predicate HasReason(s: State) {
    || s.ctxDone
    || (s.cfg.maxRuns > 0 && s.dispatched == s.cfg.maxRuns)
    || (s.cfg.once && s.dispatched == 1)
  }

  /** Out of the loop, or past the decision to leave it. */
  predicate IsLeaving(m: MainPc) {
    (m.GivingBack? && m.exit) || m.WaitingForAll? || m.Exited?
  }

  ghost predicate LeavesForReason(s: State) {
    IsLeaving(s.main) ==> HasReason(s)
  }

  lemma StepLeavesForReason(s: State, e: Event)
    requires LimitInv(s) && LeavesForReason(s) && Enabled(s, e)
    ensures LeavesForReason(Step(s, e))
  {
    if IsWorkerEvent(e) { WorkerFrame(s, e); } else { MainFrame(s, e); }
  }

  /** Main gives up its loop only for one of the three reasons: an empty stream, a consume error or a
      failed run is none. */
  lemma {:induction false} LoopIsLeftForReason(s: State, es: seq<Event>)
    requires Init(s) && IsRun(s, es)
    ensures IsLeaving(After(s, es).main) ==> HasReason(After(s, es))
  {
    if es != [] {
      LoopIsLeftForReason(s, es[..|es| - 1]);
      LimitInvariant(s, es[..|es| - 1]);
      StepLeavesForReason(After(s, es[..|es| - 1]), es[|es| - 1]);
    }
  }

  /** A step of main itself. */
  predicate IsMainEvent(e: Event) {
    !IsWorkerEvent(e) && !e.ContextEnds?
  }

  lemma OthersLeaveMain(s: State, e: Event)
    requires Enabled(s, e) && !IsMainEvent(e)
    ensures Step(s, e).main == s.main && Step(s, e).dispatched == s.dispatched && Step(s, e).cfg == s.cfg
  {
    if IsWorkerEvent(e) { WorkerFrame(s, e); } else { MainFrame(s, e); }
  }

  lemma {:induction false} MainStandsStill(s: State, es: seq<Event>, more: seq<Event>)
    requires es <= more && IsRun(s, es) && IsRun(s, more)
    requires forall k :: |es| <= k < |more| ==> !IsMainEvent(more[k])
    ensures After(s, more).main == After(s, es).main
    decreases |more|
  {
    if more != es {
      MainStandsStill(s, es, more[..|more| - 1]);
      OthersLeaveMain(After(s, more[..|more| - 1]), more[|more| - 1]);
    }
  }

  /** An empty poll or a consume error costs one turn of the loop: whatever the goroutines do
      meanwhile, main's next step gives the slot back, and then it is at the top of its loop. */
  lemma {:induction false} EmptyPollGoesRound(s: State, es: seq<Event>, lost: Option<string>, more: seq<Event>, e: Event)
    requires Init(s) && IsRun(s, es) && Enabled(After(s, es), ConsumeNothing(lost))
    requires es + [ConsumeNothing(lost)] <= more && IsRun(s, more)
    requires forall k :: |es| < k < |more| ==> !IsMainEvent(more[k])
    requires IsMainEvent(e) && Enabled(After(s, more), e)
    ensures e == GiveBack && Step(After(s, more), e).main == LoopTop
    ensures Step(After(s, more), e).tokens == After(s, more).tokens - 1
  {
    var polled := Extend(s, es, ConsumeNothing(lost));
    MainStandsStill(s, polled, more);
  }

  predicate MustStop(s: State) {
    s.ctxDone || LimitReached(s)
  }

  /** From here on main consumes nothing more. */
  ghost predicate IsStopping(s: State) {
    MustStop(s) && !s.main.Consuming?
  }

  lemma StepKeepsStopping(s: State, e: Event)
    requires IsStopping(s) && Enabled(s, e)
    ensures IsStopping(Step(s, e)) && Step(s, e).dispatched == s.dispatched && Step(s, e).cfg == s.cfg
    ensures s.main.LoopTop? || s.main.WaitingForAll? ==>
              var m := Step(s, e).main; m.LoopTop? || m.WaitingForAll? || m.Exited?
    ensures s.main.LoopTop? && IsMainEvent(e) ==> Step(s, e).main == WaitingForAll
  {
    if IsWorkerEvent(e) { WorkerFrame(s, e); } else { MainFrame(s, e); }
  }

  /** Once the context is done or the limit is reached, nothing is dispatched any more, but for an
      entry main is already consuming. */
  lemma {:induction false} StopMeansNoMoreRuns(s: State, es: seq<Event>, more: seq<Event>)
    requires es <= more && IsRun(s, es) && IsRun(s, more) && IsStopping(After(s, es))
    ensures IsStopping(After(s, more)) && After(s, more).dispatched == After(s, es).dispatched
    decreases |more|
  {
    if more != es {
      StopMeansNoMoreRuns(s, es, more[..|more| - 1]);
      StepKeepsStopping(After(s, more[..|more| - 1]), more[|more| - 1]);
    }
  }

  /** Steps of its own that main still takes once it must stop. */
  function StepsToExit(m: MainPc): nat {
    match m
    case Selecting => 4
    case Consuming => 4
    case Rechecking(_) => 3
    case GivingBack(_, exit) => if exit then 2 else 3
    case LoopTop => 2
    case WaitingForAll => 1
    case Exited => 0
  }

  lemma StopStep(s: State, e: Event)
    requires IsStopping(s) && Enabled(s, e)
    ensures IsStopping(Step(s, e))
    ensures StepsToExit(Step(s, e).main) + (if IsMainEvent(e) then 1 else 0) <= StepsToExit(s.main)
  {
    StepKeepsStopping(s, e);
    if IsWorkerEvent(e) { WorkerFrame(s, e); } else { MainFrame(s, e); }
  }

  /** And main is quick about it: from then on it takes at most four steps of its own, the last of them
      past the wait. */
  lemma {:induction false} StopIsPrompt(s: State, es: seq<Event>, more: seq<Event>)
    requires es <= more && IsRun(s, es) && IsRun(s, more) && IsStopping(After(s, es))
    ensures IsStopping(After(s, more))
    ensures Count(more, IsMainEvent) + StepsToExit(After(s, more).main)
            <= Count(es, IsMainEvent) + StepsToExit(After(s, es).main) <= Count(es, IsMainEvent) + 4
    decreases |more|
  {
    if more != es {
      StopIsPrompt(s, es, more[..|more| - 1]);
      StopStep(After(s, more[..|more| - 1]), more[|more| - 1]);
    }
  }

  predicate AtTopOrOut(m: MainPc) {
    m.LoopTop? || m.WaitingForAll? || m.Exited?
  }

  /** Stopping, at the top of the loop or out of it, the arm not taken. */
  ghost predicate StopsCleanly(s: State) {
    IsStopping(s) && AtTopOrOut(s.main) && !s.phantom
  }

  lemma StepStopsCleanly(s: State, e: Event)
    requires StopsCleanly(s) && Enabled(s, e)
    ensures StopsCleanly(Step(s, e))
    ensures s.main.LoopTop? && IsMainEvent(e) ==> Step(s, e).main == WaitingForAll
  {
    StepKeepsStopping(s, e);
    if IsWorkerEvent(e) { WorkerFrame(s, e); } else { MainFrame(s, e); }
  }

  lemma {:induction false} StaysClean(s: State, es: seq<Event>, more: seq<Event>)
    requires es <= more && IsRun(s, es) && IsRun(s, more) && StopsCleanly(After(s, es))
    ensures StopsCleanly(After(s, more))
    decreases |more|
  {
    if more != es {
      StaysClean(s, es, more[..|more| - 1]);
      StepStopsCleanly(After(s, more[..|more| - 1]), more[|more| - 1]);
    }
  }

  /** If there is a reason to stop when main is at the top of its loop, its next own step is to the wait:
      it does not go to the select any more, so no continuation takes the ctx.Done arm there. */
  lemma {:induction false} StopAtTopWaits(s: State, es: seq<Event>, more: seq<Event>)
    requires Init(s) && es <= more && IsRun(s, es) && IsRun(s, more)
    requires After(s, es).main.LoopTop? && MustStop(After(s, es))
    ensures AtTopOrOut(After(s, more).main) && !After(s, more).phantom
    ensures forall e :: After(s, more).main.LoopTop? && IsMainEvent(e) && Enabled(After(s, more), e) ==>
              Step(After(s, more), e).main == WaitingForAll
  {
    SlotInvariant(s, es);
    StaysClean(s, es, more);
    forall e | After(s, more).main.LoopTop? && IsMainEvent(e) && Enabled(After(s, more), e)
      ensures Step(After(s, more), e).main == WaitingForAll
    {
      StepStopsCleanly(After(s, more), e);
    }
  }
}
