/** NodeAttemptQueue.Submit run by any number of goroutines, interleaved at every atomic
    operation: a semaphore, an in-flight counter and a lock-free high-water mark. */
module QueueSystem {
  import opened Common

  /** The next thing a goroutine does in Submit. fails counts its failed CAS attempts. */
  datatype Pc =
    | Entering                                    // totalSubmits.Add
    | Trying                                      // the non-blocking select
    | Waiting                                     // the blocking select
    | Admitted                                    // holds a slot, before currentInflight.Add(1)
    | Loading(cur: int, fails: nat)               // maxConcurrent.Load
    | Comparing(cur: int, prev: int, fails: nat)  // cur <= prev, else CompareAndSwap
    | Recorded                                    // loop left, before inner.Submit
    | Inner                                       // inner.Submit in progress
    | Leaving(ok: bool)                           // deferred currentInflight.Add(-1)
    | Releasing(ok: bool)                         // deferred receive from sem
    | Returned(ok: bool)
    | GaveUp                                      // returned ctx.Err() without a slot

  /** peak is the true maximum that inflight has ever reached; the code has no such variable. */
  datatype State = State(
    cap: nat,
    tokens: nat,
    total: nat,
    blocked: nat,
    max: int,
    inflight: int,
    threads: seq<Pc>,
    peak: int)

  datatype Event =
    | Call                       // a goroutine enters Submit
    | Run(t: nat)                // thread t performs its next operation
    | Cancel(t: nat)             // thread t's blocked select sees ctx.Done
    | InnerDone(t: nat, ok: bool)

  predicate CanRun(s: State, pc: Pc) {
    match pc
    case Waiting => s.tokens < s.cap
    case Inner => false
    case Releasing(_) => s.tokens > 0
    case Returned(_) => false
    case GaveUp => false
    case _ => true
  }

  predicate Enabled(s: State, e: Event) {
    match e
    case Call => true
    case Run(t) => t < |s.threads| && CanRun(s, s.threads[t])
    case Cancel(t) => t < |s.threads| && s.threads[t].Waiting?
    case InnerDone(t, _) => t < |s.threads| && s.threads[t].Inner?
  }

  function Goto(s: State, t: nat, pc: Pc): State
    requires t < |s.threads|
  {
    s.(threads := s.threads[t := pc])
  }

  function RunStep(s: State, t: nat): State
    requires t < |s.threads| && CanRun(s, s.threads[t])
  {
    match s.threads[t]
    case Entering => Goto(s, t, Trying).(total := s.total + 1)
    case Trying =>
      if s.tokens < s.cap then Goto(s, t, Admitted).(tokens := s.tokens + 1)
      else Goto(s, t, Waiting).(blocked := s.blocked + 1)
    case Waiting => Goto(s, t, Admitted).(tokens := s.tokens + 1)
    case Admitted =>
      var cur := s.inflight + 1;
      Goto(s, t, Loading(cur, 0)).(
        inflight := cur, peak := if cur > s.peak then cur else s.peak)
    case Loading(cur, fails) => Goto(s, t, Comparing(cur, s.max, fails))
    case Comparing(cur, prev, fails) =>
      if cur <= prev then Goto(s, t, Recorded)
      else if s.max == prev then Goto(s, t, Recorded).(max := cur)
      else Goto(s, t, Loading(cur, fails + 1))
    case Recorded => Goto(s, t, Inner)
    case Leaving(ok) => Goto(s, t, Releasing(ok)).(inflight := s.inflight - 1)
    case Releasing(ok) => Goto(s, t, Returned(ok)).(tokens := s.tokens - 1)
  }

  function Step(s: State, e: Event): State
    requires Enabled(s, e)
  {
    match e
    case Call => s.(threads := s.threads + [Entering])
    case Run(t) => RunStep(s, t)
    case Cancel(t) => Goto(s, t, GaveUp)
    case InnerDone(t, ok) => Goto(s, t, Leaving(ok))
  }

  ghost predicate Init(s: State) {
    s.tokens == s.total == s.blocked == s.max == s.peak == 0 && s.inflight == 0 && s.threads == []
  }

  predicate IsRun(s: State, es: seq<Event>)
    decreases |es|, 0
  {
    es == [] || (IsRun(s, es[..|es| - 1]) && Enabled(After(s, es[..|es| - 1]), es[|es| - 1]))
  }

  function After(s: State, es: seq<Event>): State
    requires IsRun(s, es)
    decreases |es|, 1
  {
    if es == [] then s else Step(After(s, es[..|es| - 1]), es[|es| - 1])
  }

  // Who holds what.

  /** Between its increment of currentInflight and the end of the CAS loop. */
  predicate InLoop(pc: Pc) {
    pc.Loading? || pc.Comparing?
  }

  predicate IsCounted(pc: Pc) {
    InLoop(pc) || pc.Recorded? || pc.Inner? || pc.Leaving?
  }

  predicate HoldsSlot(pc: Pc) {
    pc.Admitted? || IsCounted(pc) || pc.Releasing?
  }

  predicate InInner(pc: Pc) {
    pc.Inner?
  }

  predicate HasEntered(pc: Pc) {
    !pc.Entering?
  }

  predicate IsTrying(pc: Pc) {
    pc.Trying?
  }

  // The four counters agree with where the threads are. A thread blocks at most once.

  ghost predicate TokensAccounted(s: State) {
    s.tokens == Count(s.threads, HoldsSlot) && s.tokens <= s.cap
  }

  ghost predicate InflightAccounted(s: State) {
    s.inflight == Count(s.threads, IsCounted)
  }

  ghost predicate TotalAccounted(s: State) {
    s.total == Count(s.threads, HasEntered)
  }

  ghost predicate BlockedAccounted(s: State) {
    s.blocked + Count(s.threads, IsTrying) <= s.total
  }

  ghost predicate Accounted(s: State) {
    TokensAccounted(s) && InflightAccounted(s) && TotalAccounted(s) && BlockedAccounted(s)
  }

  /** Only the thread that moves changes, and the counters with it. */
  lemma MoveFrame(s: State, e: Event)
    requires Enabled(s, e) && !e.Call?
    ensures e.t < |s.threads| && |Step(s, e).threads| == |s.threads|
    ensures var s', t := Step(s, e), e.t;
      && s'.threads == s.threads[t := s'.threads[t]] && s'.cap == s.cap
      && s'.tokens + (if HoldsSlot(s.threads[t]) then 1 else 0) == s.tokens + (if HoldsSlot(s'.threads[t]) then 1 else 0)
      && s'.inflight + (if IsCounted(s.threads[t]) then 1 else 0) == s.inflight + (if IsCounted(s'.threads[t]) then 1 else 0)
      && (s'.tokens <= s.tokens || s'.tokens <= s.cap)
  {}

  lemma {:induction false} TokensStep(s: State, e: Event)
    requires TokensAccounted(s) && Enabled(s, e)
    ensures TokensAccounted(Step(s, e))
  {
    if e.Call? {
      CountAppend(s.threads, Entering, HoldsSlot);
    } else {
      MoveFrame(s, e);
      CountUpdate(s.threads, e.t, Step(s, e).threads[e.t], HoldsSlot);
    }
  }

  lemma {:induction false} InflightStep(s: State, e: Event)
    requires InflightAccounted(s) && Enabled(s, e)
    ensures InflightAccounted(Step(s, e))
  {
    if e.Call? {
      CountAppend(s.threads, Entering, IsCounted);
    } else {
      MoveFrame(s, e);
      CountUpdate(s.threads, e.t, Step(s, e).threads[e.t], IsCounted);
    }
  }

  lemma {:induction false} TotalStep(s: State, e: Event)
    requires TotalAccounted(s) && BlockedAccounted(s) && Enabled(s, e)
    ensures TotalAccounted(Step(s, e)) && BlockedAccounted(Step(s, e))
  {
    if e.Call? {
      CountAppend(s.threads, Entering, HasEntered);
      CountAppend(s.threads, Entering, IsTrying);
    } else {
      CountUpdate(s.threads, e.t, Step(s, e).threads[e.t], HasEntered);
      CountUpdate(s.threads, e.t, Step(s, e).threads[e.t], IsTrying);
    }
  }

  // What one Submit returns, by the events of the run.

  /** What the inner submitter has returned to thread t, oldest first. */
  function InnerAnswers(es: seq<Event>, t: nat): seq<bool> {
    if es == [] then []
    else
      var n := |es| - 1;
      InnerAnswers(es[..n], t) + if es[n].InnerDone? && es[n].t == t then [es[n].ok] else []
  }

  /** Past the inner submitter, with its answer in hand. */
  predicate HasAnswer(pc: Pc) {
    pc.Leaving? || pc.Releasing? || pc.Returned?
  }

  ghost predicate AnswersMatch(pc: Pc, answers: seq<bool>, canceled: bool) {
    && answers == (if HasAnswer(pc) then [pc.ok] else [])
    && (pc.GaveUp? <==> canceled)
  }

  lemma StepKeepsAnswers(s: State, e: Event, t: nat, answers: seq<bool>, canceled: bool)
    requires Enabled(s, e) && t < |s.threads| && AnswersMatch(s.threads[t], answers, canceled)
    ensures t < |Step(s, e).threads|
    ensures AnswersMatch(Step(s, e).threads[t],
              answers + (if e.InnerDone? && e.t == t then [e.ok] else []), canceled || e == Cancel(t))
  {}

  lemma {:induction false} AnswersAreEvents(es: seq<Event>, t: nat, ok: bool)
    ensures ok in InnerAnswers(es, t) <==> InnerDone(t, ok) in es
  {
    if es != [] {
      var n := |es| - 1;
      AnswersAreEvents(es[..n], t, ok);
      assert es == es[..n] + [es[n]];
    }
  }

  lemma {:induction false} NotYetCalled(s: State, es: seq<Event>, t: nat)
    requires Init(s) && IsRun(s, es) && t >= |After(s, es).threads|
    ensures InnerAnswers(es, t) == [] && Cancel(t) !in es
  {
    if es != [] {
      var n := |es| - 1;
      NotYetCalled(s, es[..n], t);
      assert es == es[..n] + [es[n]];
    }
  }

  lemma {:induction false} AnswersFollow(s: State, es: seq<Event>, t: nat)
    requires Init(s) && IsRun(s, es) && t < |After(s, es).threads|
    ensures AnswersMatch(After(s, es).threads[t], InnerAnswers(es, t), Cancel(t) in es)
  {
    var n := |es| - 1;
    var before := After(s, es[..n]);
    assert es == es[..n] + [es[n]];
    if t < |before.threads| {
      AnswersFollow(s, es[..n], t);
      StepKeepsAnswers(before, es[n], t, InnerAnswers(es[..n], t), Cancel(t) in es[..n]);
    } else {
      NotYetCalled(s, es[..n], t);
    }
  }

  /** Submit returns what the inner submitter returned. A thread on its way out, or returned, has been
      in the inner submitter exactly once and carries its answer; any other has not been answered; and
      a thread has given up exactly if its wait was canceled. */
  lemma {:induction false} ResultIsInnerAnswer(s: State, es: seq<Event>, t: nat)
    requires Init(s) && IsRun(s, es) && t < |After(s, es).threads|
    ensures var pc := After(s, es).threads[t];
      && InnerAnswers(es, t) == (if HasAnswer(pc) then [pc.ok] else [])
      && (forall ok :: InnerDone(t, ok) in es <==> HasAnswer(pc) && pc.ok == ok)
      && (pc.GaveUp? <==> Cancel(t) in es)
  {
    AnswersFollow(s, es, t);
    forall ok ensures ok in InnerAnswers(es, t) <==> InnerDone(t, ok) in es { AnswersAreEvents(es, t, ok); }
  }

  // The high-water mark.

  /** What a thread in its loop has read bounds what it may still do. */
  predicate LoopOk(max: int, peak: int, pc: Pc) {
    && (InLoop(pc) ==> pc.cur <= peak && pc.fails <= pc.cur)
    && (pc.Loading? ==> pc.fails <= max)
    && (pc.Comparing? ==> pc.fails <= pc.prev <= max)
  }

  predicate Carries(pc: Pc, peak: int) {
    InLoop(pc) && pc.cur == peak
  }

  /** The mark is never above the true peak, and is below it only while some thread still in its
      loop carries the peak. */
  ghost predicate HighWater(s: State) {
    && 0 <= s.max <= s.peak
    && s.inflight <= s.peak
    && (forall t :: 0 <= t < |s.threads| ==> LoopOk(s.max, s.peak, s.threads[t]))
    && (s.max == s.peak || exists t :: 0 <= t < |s.threads| && Carries(s.threads[t], s.peak))
  }

  lemma StepKeepsLoopOk(s: State, e: Event)
    requires HighWater(s) && InflightAccounted(s) && Enabled(s, e)
    ensures var s' := Step(s, e);
      && 0 <= s'.max <= s'.peak && s'.inflight <= s'.peak
      && forall t :: 0 <= t < |s'.threads| ==> LoopOk(s'.max, s'.peak, s'.threads[t])
  {
    if !e.Call? { assert LoopOk(s.max, s.peak, s.threads[e.t]); }
  }

  lemma StepKeepsHighWater(s: State, e: Event)
    requires HighWater(s) && InflightAccounted(s) && Enabled(s, e)
    ensures HighWater(Step(s, e))
  {
    var s' := Step(s, e);
    StepKeepsLoopOk(s, e);
    if s.max != s.peak {
      var w :| 0 <= w < |s.threads| && Carries(s.threads[w], s.peak);
      assert s'.max == s'.peak || Carries(s'.threads[w], s'.peak)
        || (e.Run? && s.threads[e.t].Admitted? && Carries(s'.threads[e.t], s'.peak));
    } else if e.Run? && s.threads[e.t].Admitted? {
      assert s'.peak == s.peak || Carries(s'.threads[e.t], s'.peak);
    }
  }

  /** peak <= cap: an in-flight thread holds a slot. */
  ghost predicate PeakBounded(s: State) {
    s.peak <= s.cap
  }

  lemma StepKeepsPeakBounded(s: State, e: Event)
    requires PeakBounded(s) && Accounted(s) && Enabled(s, e)
    ensures PeakBounded(Step(s, e))
  {
    var s' := Step(s, e);
    TokensStep(s, e);
    InflightStep(s, e);
    CountMonotone(s'.threads, IsCounted, HoldsSlot);
  }

  ghost predicate Inv(s: State) {
    Accounted(s) && HighWater(s) && PeakBounded(s)
  }

  lemma StepKeepsInv(s: State, e: Event)
    requires Inv(s) && Enabled(s, e)
    ensures Inv(Step(s, e))
  {
    TokensStep(s, e);
    InflightStep(s, e);
    TotalStep(s, e);
    StepKeepsHighWater(s, e);
    StepKeepsPeakBounded(s, e);
  }

  lemma {:induction false} Invariant(s: State, es: seq<Event>)
    requires Init(s) && IsRun(s, es)
    ensures Inv(After(s, es)) && After(s, es).cap == s.cap
  {
    if es != [] {
      Invariant(s, es[..|es| - 1]);
      StepKeepsInv(After(s, es[..|es| - 1]), es[|es| - 1]);
    }
  }

  // What blockedSubmits counts.

  /** At this event a thread tries the semaphore and finds it full. */
  predicate FindsFull(s: State, e: Event)
    requires Enabled(s, e)
  {
    e.Run? && s.threads[e.t].Trying? && s.tokens == s.cap
  }

  /** The threads of a run that found no slot free. */
  function FoundFull(s: State, es: seq<Event>): set<nat>
    requires IsRun(s, es)
  {
    if es == [] then {}
    else
      var n := |es| - 1;
      FoundFull(s, es[..n]) + if FindsFull(After(s, es[..n]), es[n]) then {es[n].t} else {}
  }

  ghost predicate PastTrying(s: State, ts: set<nat>) {
    forall t :: t in ts ==> t < |s.threads| && !s.threads[t].Entering? && !s.threads[t].Trying?
  }

  lemma StepKeepsPastTrying(s: State, e: Event, full: set<nat>)
    requires Enabled(s, e) && PastTrying(s, full)
    ensures PastTrying(Step(s, e), full)
  {}

  lemma FindingFullBlocks(s: State, e: Event)
    requires Enabled(s, e) && s.tokens <= s.cap
    ensures Step(s, e).blocked == s.blocked + if FindsFull(s, e) then 1 else 0
    ensures FindsFull(s, e) ==> PastTrying(Step(s, e), {e.t})
  {}

  lemma StepCountsBlocked(s: State, e: Event, full: set<nat>)
    requires Enabled(s, e) && TokensAccounted(s) && PastTrying(s, full) && s.blocked == |full|
    ensures var full' := full + if FindsFull(s, e) then {e.t} else {};
      PastTrying(Step(s, e), full') && Step(s, e).blocked == |full'|
  {
    StepKeepsPastTrying(s, e, full);
    FindingFullBlocks(s, e);
    if FindsFull(s, e) { assert e.t !in full; }
  }

  lemma {:induction false} BlockedCountsThreads(s: State, es: seq<Event>)
    requires Init(s) && IsRun(s, es)
    ensures PastTrying(After(s, es), FoundFull(s, es)) && After(s, es).blocked == |FoundFull(s, es)|
  {
    if es != [] {
      var n := |es| - 1;
      BlockedCountsThreads(s, es[..n]);
      Invariant(s, es[..n]);
      StepCountsBlocked(After(s, es[..n]), es[n], FoundFull(s, es[..n]));
    }
  }

  /** For any number of goroutines on any interleaving: the slots taken are the slots held, no
      more than the semaphore's size; at most that many inner submits are in progress; and the
      counters Stats reports count the calls made and the calls that found no slot free. */
  lemma {:induction false} BoundedRelease(s: State, es: seq<Event>)
    requires Init(s) && IsRun(s, es)
    ensures var t := After(s, es);
      && Count(t.threads, InInner) <= t.inflight <= t.tokens <= s.cap
      && t.total == Count(t.threads, HasEntered)
      && t.blocked == |FoundFull(s, es)| <= t.total
  {
    Invariant(s, es);
    BlockedCountsThreads(s, es);
    var t := After(s, es);
    CountMonotone(t.threads, InInner, IsCounted);
    CountMonotone(t.threads, IsCounted, HoldsSlot);
  }

  /** The largest value currentInflight has had along a run. */
  function TruePeak(s: State, es: seq<Event>): int
    requires IsRun(s, es)
  {
    if es == [] then s.inflight
    else
      var earlier, now := TruePeak(s, es[..|es| - 1]), After(s, es).inflight;
      if now > earlier then now else earlier
  }

  lemma PeakStep(s: State, e: Event)
    requires HighWater(s) && Enabled(s, e)
    ensures Step(s, e).peak == if Step(s, e).inflight > s.peak then Step(s, e).inflight else s.peak
  {}

  lemma {:induction false} PeakIsTrue(s: State, es: seq<Event>)
    requires Init(s) && IsRun(s, es)
    ensures After(s, es).peak == TruePeak(s, es)
  {
    if es != [] {
      PeakIsTrue(s, es[..|es| - 1]);
      Invariant(s, es[..|es| - 1]);
      PeakStep(After(s, es[..|es| - 1]), es[|es| - 1]);
    }
  }

  /** The recorded mark never exceeds the true peak of the in-flight count, which never exceeds
      the semaphore's size; whenever no thread is between its increment and the end of its loop
      the mark is the true peak; and a thread that read cur has failed at most cur CAS attempts,
      so its loop ends whatever the others do. */
  lemma {:induction false} HighWaterExact(s: State, es: seq<Event>)
    requires Init(s) && IsRun(s, es)
    ensures var t := After(s, es);
      && t.max <= TruePeak(s, es) <= s.cap
      && ((forall i :: 0 <= i < |t.threads| ==> !InLoop(t.threads[i])) ==> t.max == TruePeak(s, es))
      && forall i :: 0 <= i < |t.threads| && InLoop(t.threads[i]) ==> t.threads[i].fails <= t.threads[i].cur
  {
    Invariant(s, es);
    PeakIsTrue(s, es);
    var t := After(s, es);
    forall i | 0 <= i < |t.threads| && InLoop(t.threads[i])
      ensures t.threads[i].fails <= t.threads[i].cur
    {
      assert LoopOk(t.max, t.peak, t.threads[i]);
    }
  }

  /** A submit canceled while it waits takes no slot, enters no inner submit and is not counted:
      from Waiting to GaveUp nothing but its own program counter changes. And a thread gets to
      GaveUp in no other way. */
  lemma CanceledTakesNothing(s: State, e: Event, t: nat)
    requires Enabled(s, e) && t < |s.threads| && Step(s, e).threads[t].GaveUp? && !s.threads[t].GaveUp?
    ensures e == Cancel(t) && s.threads[t].Waiting?
    ensures !HoldsSlot(s.threads[t]) && Step(s, e) == s.(threads := s.threads[t := GaveUp])
  {}

  /** The deferred receive from the semaphore never blocks: who releases holds a slot. */
  lemma {:induction false} ReleaseNeverBlocks(s: State, es: seq<Event>, i: nat)
    requires Init(s) && IsRun(s, es)
    requires i < |After(s, es).threads| && After(s, es).threads[i].Releasing?
    ensures Enabled(After(s, es), Run(i))
  {
    Invariant(s, es);
    CountPositive(After(s, es).threads, HoldsSlot);
  }

  /** When every Submit has returned, all slots are free and nothing is in flight. */
  lemma {:induction false} AllSlotsReturned(s: State, es: seq<Event>)
    requires Init(s) && IsRun(s, es)
    requires forall i :: 0 <= i < |After(s, es).threads| ==>
               After(s, es).threads[i].Returned? || After(s, es).threads[i].GaveUp?
    ensures After(s, es).tokens == 0 && After(s, es).inflight == 0
    ensures After(s, es).max == TruePeak(s, es)
  {
    Invariant(s, es);
    HighWaterExact(s, es);
    var t := After(s, es);
    CountPositive(t.threads, HoldsSlot);
    CountPositive(t.threads, IsCounted);
  }
}
