/** NodeAttemptQueue as an object, seen by one goroutine: what the others do at the points where
    they can interfere is a parameter. QueueSystem is the whole picture. */
module AttemptQueue {
  import opened Common

  function Max(a: int, b: int): int {
    if a < b then b else a
  }

  /** The mark after the values xs have been recorded on top of m. */
  function Highest(m: int, xs: seq<int>): int {
    if xs == [] then m else Max(Highest(m, xs[..|xs| - 1]), xs[|xs| - 1])
  }

  lemma {:induction false} HighestIsMaximum(m: int, xs: seq<int>)
    ensures m <= Highest(m, xs) && (Highest(m, xs) == m || Highest(m, xs) in xs)
    ensures forall x :: x in xs ==> x <= Highest(m, xs)
  {
    if xs != [] {
      var n := |xs| - 1;
      HighestIsMaximum(m, xs[..n]);
      forall x | x in xs ensures x <= Highest(m, xs) {
        assert x in xs[..n] || x == xs[n];
      }
    }
  }

  /** The mark after the first used of the rivals and then cur have been recorded on top of m. */
  function Recorded(m: int, rivals: seq<int>, used: nat, cur: int): int
    requires used <= |rivals|
  {
    Highest(m, rivals[..used] + [cur])
  }

  lemma RecordedLast(m: int, rivals: seq<int>, used: nat, cur: int)
    requires used <= |rivals|
    ensures Recorded(m, rivals, used, cur) == Max(Highest(m, rivals[..used]), cur)
    ensures used < |rivals| ==> Highest(m, rivals[..used + 1]) == Max(Highest(m, rivals[..used]), rivals[used])
  {
    assert (rivals[..used] + [cur])[..used] == rivals[..used];
    if used < |rivals| { assert rivals[..used + 1][..used] == rivals[..used]; }
  }

  lemma RecordedWithin(m: int, rivals: seq<int>, used: nat, cur: int, bound: int)
    requires used <= |rivals| && m <= bound && cur <= bound && forall x :: x in rivals ==> x <= bound
    ensures Max(m, cur) <= Recorded(m, rivals, used, cur) <= bound
  {
    var all := rivals[..used] + [cur];
    HighestIsMaximum(m, all);
    assert cur in all;
    forall x | x in all ensures x <= bound {
      assert x in rivals[..used] || x == cur;
      if x in rivals[..used] { assert x in rivals; }
    }
  }

  /** What becomes of a caller that finds no free slot. */
  datatype Wait = SlotFreed | ContextDone

  datatype Result = InnerReturned(ok: bool) | Canceled

  class NodeAttemptQueue {
    const capacity: nat
    var tokens: nat
    var totalSubmits: nat
    var blockedSubmits: nat
    var maxConcurrent: int
    var currentInflight: nat

    ghost predicate Valid()
      reads this
    {
      currentInflight <= tokens <= capacity && 0 <= maxConcurrent <= capacity
    }

    constructor (concurrency: nat)
      ensures Valid() && capacity == concurrency
      ensures tokens == totalSubmits == blockedSubmits == currentInflight == 0 && maxConcurrent == 0
    {
      capacity := concurrency;
      tokens, totalSubmits, blockedSubmits, maxConcurrent, currentInflight := 0, 0, 0, 0, 0;
    }

    /** The load / compare-and-swap loop. rivals[k] is what other goroutines record between the
        load and the swap of round k. The mark ends as the maximum of everything recorded, and
        the loop fails at most as often as cur exceeds the mark it started from. */
    method RecordPeak(cur: int, rivals: seq<int>) returns (used: nat, fails: nat)
      modifies this`maxConcurrent
      ensures used <= |rivals|
      ensures maxConcurrent == Recorded(old(maxConcurrent), rivals, used, cur)
      ensures fails <= used <= fails + 1 && fails <= Max(0, cur - old(maxConcurrent))
      ensures cur <= old(maxConcurrent) ==> used == 0
    {
      used, fails := 0, 0;
      while true
        invariant used <= |rivals| && fails == used
        invariant maxConcurrent == Highest(old(maxConcurrent), rivals[..used])
        invariant fails <= maxConcurrent - old(maxConcurrent)
        invariant fails > 0 ==> fails <= cur - old(maxConcurrent)
        invariant cur <= old(maxConcurrent) ==> used == 0
        decreases cur - maxConcurrent
      {
        var prev := maxConcurrent;
        RecordedLast(old(maxConcurrent), rivals, used, cur);
        if cur <= prev {
          break;
        }
        if used < |rivals| {
          maxConcurrent := Max(maxConcurrent, rivals[used]);
          used := used + 1;
          RecordedLast(old(maxConcurrent), rivals, used, cur);
        }
        if maxConcurrent == prev {
          maxConcurrent := cur;
          break;
        }
        fails := fails + 1;
      }
    }

    /** The part of Submit between taking a slot and the inner call: the new in-flight count is
        recorded in the mark. */
    method Track(rivals: seq<int>) returns (used: nat)
      requires currentInflight < tokens <= capacity && 0 <= maxConcurrent <= capacity
      requires forall x :: x in rivals ==> x <= capacity
      modifies this`currentInflight, this`maxConcurrent
      ensures currentInflight == old(currentInflight) + 1 && used <= |rivals|
      ensures maxConcurrent == Recorded(old(maxConcurrent), rivals, used, old(currentInflight) + 1)
      ensures Max(old(maxConcurrent), old(currentInflight) + 1) <= maxConcurrent <= capacity
    {
      currentInflight := currentInflight + 1;
      ghost var mark, cur := maxConcurrent, currentInflight;
      var fails;
      used, fails := RecordPeak(currentInflight, rivals);
      RecordedWithin(mark, rivals, used, cur, capacity);
    }

    /** One call of Submit. wait: how a caller that finds no slot stops waiting. rivals: what
        others record meanwhile, the first used of them in time. innerOk: whether the inner submitter returned nil. */
    method Submit(wait: Wait, rivals: seq<int>, innerOk: bool) returns (r: Result, used: nat)
      requires Valid()
      requires forall x :: x in rivals ==> x <= capacity
      requires tokens == capacity && wait.SlotFreed? ==> currentInflight < tokens
      modifies this
      ensures Valid()
      ensures totalSubmits == old(totalSubmits) + 1
      ensures blockedSubmits == old(blockedSubmits) + if old(tokens) < capacity then 0 else 1
      ensures currentInflight == old(currentInflight)
      ensures r.Canceled? <==> old(tokens) == capacity && wait.ContextDone?
      ensures r.Canceled? ==> tokens == old(tokens) && maxConcurrent == old(maxConcurrent)
      ensures r.InnerReturned? ==>
        && r.ok == innerOk
        && tokens == old(tokens) - (if old(tokens) < capacity then 0 else 1)
        && maxConcurrent >= Max(old(maxConcurrent), old(currentInflight) + 1)
        && used <= |rivals|
        && maxConcurrent == Recorded(old(maxConcurrent), rivals, used, old(currentInflight) + 1)
    {
      totalSubmits := totalSubmits + 1;
      if tokens < capacity {
        tokens := tokens + 1;
      } else {
        blockedSubmits := blockedSubmits + 1;
        match wait
        case ContextDone =>
          return Canceled, 0;
        case SlotFreed =>
          tokens := tokens - 1;  // another goroutine's release
          tokens := tokens + 1;
      }
      used := Track(rivals);
      currentInflight := currentInflight - 1;
      tokens := tokens - 1;
      r := InnerReturned(innerOk);
    }

    method Stats() returns (total: nat, blocked: nat, max: int)
      ensures total == totalSubmits && blocked == blockedSubmits && max == maxConcurrent
    {
      return totalSubmits, blockedSubmits, maxConcurrent;
    }
  }
}
