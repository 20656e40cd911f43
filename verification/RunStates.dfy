/** The run lifecycle state machine. */
module RunStates {

  /** RunState is an open string type in the source; Unknown stands for every other string. */
  datatype RunState =
    | Queued
    | Held
    | Resumed
    | AdmittedToDag
    | Running
    | Finished
    | Canceled
    | Unknown(name: string)

  function ValidTransitions(from: RunState): seq<RunState> {
    match from
    case Queued => [Held, AdmittedToDag, Canceled]
    case Held => [Resumed, Canceled]
    case Resumed => [AdmittedToDag, Canceled]
    case AdmittedToDag => [Running, Canceled]
    case Running => [Finished, Canceled]
    case Finished => []
    case Canceled => []
    case Unknown(_) => []
  }

  predicate ValidateTransition(from: RunState, to: RunState) {
    to in ValidTransitions(from)
  }

  predicate IsTerminal(s: RunState) {
    s == Finished || s == Canceled
  }

  /** A state a run can still be moved out of. */
  predicate IsLive(s: RunState) {
    !IsTerminal(s) && !s.Unknown?
  }

  const MAX_RANK: nat := 5

  /** Longest-path rank: every permitted edge goes strictly up. */
  function Rank(s: RunState): (r: nat)
    ensures r <= MAX_RANK
  {
    match s
    case Queued => 0
    case Held => 1
    case Resumed => 2
    case AdmittedToDag => 3
    case Running => 4
    case _ => 5
  }

  /** One step along the longest life of a run: queued, held, resumed, admitted, running, finished. */
  predicate IsNextInLife(from: RunState, to: RunState) {
    IsLive(from) && (IsLive(to) || to == Finished) && Rank(to) == Rank(from) + 1
  }

  /** The permitted moves are: one step along that life, from queued past the hold straight to
      admitted, and from every live state to canceled. Nothing else is permitted. */
  lemma TransitionsExactly(from: RunState, to: RunState)
    ensures ValidateTransition(from, to) <==>
              || (to == Canceled && IsLive(from))
              || IsNextInLife(from, to)
              || (from == Queued && to == AdmittedToDag)
  {}

  lemma TransitionRaisesRank(from: RunState, to: RunState)
    requires ValidateTransition(from, to)
    ensures Rank(from) < Rank(to)
  {}

  ghost predicate IsPath(ss: seq<RunState>) {
    forall i :: 0 <= i < |ss| - 1 ==> ValidateTransition(ss[i], ss[i + 1])
  }

  lemma {:induction false} PathRaisesRank(ss: seq<RunState>, i: nat, j: nat)
    requires IsPath(ss) && i <= j < |ss|
    ensures Rank(ss[i]) + (j - i) <= Rank(ss[j])
    decreases j
  {
    if i < j {
      PathRaisesRank(ss, i, j - 1);
      assert ValidateTransition(ss[j - 1], ss[j - 1 + 1]);
      TransitionRaisesRank(ss[j - 1], ss[j]);
    }
  }

  /** No run of the state machine revisits a state or makes more than five moves, and the
      five-move run exists. A run stops for good exactly at the two terminal states, or at a
      string outside the table. */
  lemma TableIsAcyclic(ss: seq<RunState>)
    requires IsPath(ss)
    ensures |ss| <= MAX_RANK + 1
    ensures forall i, j :: 0 <= i < j < |ss| ==> ss[i] != ss[j]
    ensures forall i :: 0 <= i < |ss| && (IsTerminal(ss[i]) || ss[i].Unknown?) ==> i == |ss| - 1
    ensures IsPath([Queued, Held, Resumed, AdmittedToDag, Running, Finished])
    ensures forall s :: (forall t :: !ValidateTransition(s, t)) <==> IsTerminal(s) || s.Unknown?
  {
    if ss != [] {
      PathRaisesRank(ss, 0, |ss| - 1);
    }
    forall i, j | 0 <= i < j < |ss| ensures ss[i] != ss[j] {
      PathRaisesRank(ss, i, j);
    }
    forall i | 0 <= i < |ss| - 1
      ensures !IsTerminal(ss[i]) && !ss[i].Unknown?
    {
      assert ValidateTransition(ss[i], ss[i + 1]);
    }
    forall s | !(IsTerminal(s) || s.Unknown?)
      ensures exists t :: ValidateTransition(s, t)
    {
      assert ValidateTransition(s, ValidTransitions(s)[0]);
    }
  }
}
