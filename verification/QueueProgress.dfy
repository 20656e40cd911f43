/** Every Submit comes to an end: the queue's goroutines, the compare-and-swap loop included, have only
    so many steps, and while one is not done some goroutine can take one. */
module QueueProgress {
  import opened Common
  import opened QueueSystem

  /** Rounds of its loop a thread can still lose. */
  function RoundsLeft(cur: int, fails: nat): nat {
    if fails < cur then cur - fails else 0
  }

  /** Steps a thread still has to take at most, in a queue of cap slots. */
  function StepsLeft(cap: nat, pc: Pc): nat {
    match pc
    case Entering => 2 * cap + 10
    case Trying => 2 * cap + 9
    case Waiting => 2 * cap + 8
    case Admitted => 2 * cap + 7
    case Loading(cur, fails) => 2 * RoundsLeft(cur, fails) + 6
    case Comparing(cur, _, fails) => 2 * RoundsLeft(cur, fails) + 5
    case Recorded => 4
    case Inner => 3
    case Leaving(_) => 2
    case Releasing(_) => 1
    case Returned(_) => 0
    case GaveUp => 0
  }

  predicate IsDone(pc: Pc) {
    pc.Returned? || pc.GaveUp?
  }

  function TotalLeft(cap: nat, threads: seq<Pc>): nat {
    if threads == [] then 0
    else TotalLeft(cap, threads[..|threads| - 1]) + StepsLeft(cap, threads[|threads| - 1])
  }

  lemma {:induction false} TotalLeftUpdate(cap: nat, threads: seq<Pc>, t: nat, pc: Pc)
    requires t < |threads|
    ensures TotalLeft(cap, threads[t := pc]) + StepsLeft(cap, threads[t]) == TotalLeft(cap, threads) + StepsLeft(cap, pc)
  {
    var n := |threads| - 1;
    if t == n {
      assert threads[t := pc][..n] == threads[..n];
    } else {
      assert threads[t := pc][..n] == threads[..n][t := pc];
      TotalLeftUpdate(cap, threads[..n], t, pc);
    }
  }

  /** Every step of a thread, a lost round included, brings it nearer to its end. */
  lemma MoverStepsCountDown(s: State, e: Event)
    requires Inv(s) && Enabled(s, e) && !e.Call?
    ensures e.t < |s.threads| && |Step(s, e).threads| == |s.threads|
    ensures StepsLeft(s.cap, Step(s, e).threads[e.t]) < StepsLeft(s.cap, s.threads[e.t])
  {
    assert LoopOk(s.max, s.peak, s.threads[e.t]);
    StepKeepsInv(s, e);
    assert LoopOk(Step(s, e).max, Step(s, e).peak, Step(s, e).threads[e.t]);
  }

  function Price(s: State, e: Event): int {
    if e.Call? then 2 * s.cap + 10 else -1
  }

  lemma StepSpends(s: State, e: Event)
    requires Inv(s) && Enabled(s, e)
    ensures Step(s, e).cap == s.cap
    ensures TotalLeft(s.cap, Step(s, e).threads) <= TotalLeft(s.cap, s.threads) + Price(s, e)
  {
    if e.Call? {
      assert (s.threads + [Entering])[..|s.threads|] == s.threads;
    } else {
      MoveFrame(s, e);
      MoverStepsCountDown(s, e);
      TotalLeftUpdate(s.cap, s.threads, e.t, Step(s, e).threads[e.t]);
    }
  }

  predicate IsCall(e: Event) {
    e.Call?
  }

  lemma OneMoreCall(c: nat, more: nat, price: nat)
    ensures (c + more) * price == c * price + more * price
  {}

  /** A run in which Submit is called c times has at most c * (2 * cap + 11) events: whatever the
      interleaving, nobody loops for ever. */
  lemma {:induction false} RunsAreBounded(s: State, es: seq<Event>)
    requires Init(s) && IsRun(s, es)
    ensures |es| + TotalLeft(s.cap, After(s, es).threads) <= Count(es, IsCall) * (2 * s.cap + 11)
  {
    if es != [] {
      var n := |es| - 1;
      RunsAreBounded(s, es[..n]);
      Invariant(s, es[..n]);
      StepSpends(After(s, es[..n]), es[n]);
      OneMoreCall(Count(es[..n], IsCall), if es[n].Call? then 1 else 0, 2 * s.cap + 11);
    }
  }

  /** A thread that holds a slot can move. */
  lemma HolderCanMove(s: State, t: nat) returns (e: Event)
    requires Inv(s) && t < |s.threads| && HoldsSlot(s.threads[t])
    ensures Enabled(s, e) && !e.Call? && !e.Cancel?
  {
    CountPositive(s.threads, HoldsSlot);
    e := if s.threads[t].Inner? then InnerDone(t, true) else Run(t);
  }

  /** With at least one slot, while some Submit has not returned some thread can move without any wait
      being canceled, provided the inner submitter returns. With RunsAreBounded, every Submit returns. */
  lemma {:induction false} SomeThreadCanMove(s: State, es: seq<Event>, t: nat) returns (e: Event)
    requires Init(s) && s.cap > 0 && IsRun(s, es)
    requires t < |After(s, es).threads| && !IsDone(After(s, es).threads[t])
    ensures Enabled(After(s, es), e) && !e.Call? && !e.Cancel?
  {
    var a := After(s, es);
    Invariant(s, es);
    if HoldsSlot(a.threads[t]) {
      e := HolderCanMove(a, t);
    } else if CanRun(a, a.threads[t]) {
      e := Run(t);
    } else {
      CountPositive(a.threads, HoldsSlot);
      var holder :| 0 <= holder < |a.threads| && HoldsSlot(a.threads[holder]);
      e := HolderCanMove(a, holder);
    }
  }
}
