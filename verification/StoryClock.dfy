/**
 The injected clock of the story. It only moves forward, and a resumed story starts it
 after the newest durable timestamp of the run, whatever the wall clock says.
 */
module StoryClock {
  import opened Wrappers

  /** Instants in microseconds. */
  type Instant = int

  const SECOND: int := 1_000_000

  class ScenarioClock {
    var next: Instant

    constructor (first: Instant)
      ensures next == first
    {
      next := first;
    }

    method Now() returns (t: Instant)
      modifies this
      ensures t == old(next) && next == old(next) + SECOND
    {
      t := next;
      next := next + SECOND;
    }

    /** Never backwards. */
    method AdvanceTo(moment: Instant)
      modifies this
      ensures next == if moment > old(next) then moment else old(next)
      ensures next >= old(next) && next >= moment
    {
      if moment > next {
        next := moment;
      }
    }
  }

  // ---- the anchor of a resumed story ----

  function Newest(durable: seq<Instant>): Option<Instant> {
    if durable == [] then None
    else
      var before := Newest(durable[..|durable| - 1]);
      var last := durable[|durable| - 1];
      if before.Some? && before.value >= last then before else Some(last)
  }

  /** The newest durable instant is an upper bound, and there is one when there is a fact. */
  lemma {:induction false} NewestBounds(durable: seq<Instant>)
    ensures Newest(durable).None? <==> durable == []
    ensures forall i :: 0 <= i < |durable| ==> Newest(durable).Some? && durable[i] <= Newest(durable).value
  {
    if durable != [] {
      var n := |durable| - 1;
      NewestBounds(durable[..n]);
      forall i | 0 <= i < |durable| ensures Newest(durable).Some? && durable[i] <= Newest(durable).value {
        if i < n { assert durable[..n][i] == durable[i]; }
      }
    }
  }

  function Anchor(durable: seq<Instant>, wall: Instant): Instant {
    var floor := Newest(durable);
    if floor.Some? && floor.value + SECOND > wall then floor.value + SECOND else wall
  }

  lemma {:induction false} AnchorIsLater(durable: seq<Instant>, wall: Instant)
    ensures Anchor(durable, wall) >= wall
    ensures forall i :: 0 <= i < |durable| ==> durable[i] < Anchor(durable, wall)
  {
    NewestBounds(durable);
  }

  // ---- interruptions ----

  /** `issued` are the instants the clocks of all processes gave out, with the number of
      durable facts at that moment. */
  datatype Issue = Issue(instant: Instant, facts: nat)

  datatype State = State(clock: Option<Instant>, drawn: seq<Instant>, durable: seq<Instant>, issued: seq<Issue>)

  /** Reading the clock, committing the i-th instant this process drew, waiting for a
      moment, an interruption, and a new process at some wall time. */
  datatype Action = Read | Commit(i: nat) | Wait(moment: Instant) | Interrupt | Resume(wall: Instant)

  function Step(s: State, a: Action): State {
    match a
    case Read =>
      if s.clock.None? then s
      else s.(clock := Some(s.clock.value + SECOND), drawn := s.drawn + [s.clock.value],
              issued := s.issued + [Issue(s.clock.value, |s.durable|)])
    case Commit(i) => if i < |s.drawn| then s.(durable := s.durable + [s.drawn[i]]) else s
    case Wait(moment) => if s.clock.Some? && moment > s.clock.value then s.(clock := Some(moment)) else s
    case Interrupt => s.(clock := None, drawn := [])
    case Resume(wall) => if s.clock.None? then s.(clock := Some(Anchor(s.durable, wall)), drawn := []) else s
  }

  function Run(s: State, actions: seq<Action>): State
    decreases |actions|
  {
    if actions == [] then s else Run(Step(s, actions[0]), actions[1..])
  }

  /** Every instant was later than everything durable when it was issued. */
  predicate IssuedLater(s: State) {
    && (forall k :: 0 <= k < |s.issued| ==> s.issued[k].facts <= |s.durable|)
    && (forall k, i :: 0 <= k < |s.issued| && 0 <= i < s.issued[k].facts <= |s.durable| ==>
        s.durable[i] < s.issued[k].instant)
  }

  predicate Inv(s: State) {
    && IssuedLater(s)
    && (s.clock.None? ==> s.drawn == [])
    && (s.clock.Some? ==> forall i :: 0 <= i < |s.durable| ==> s.durable[i] < s.clock.value)
    && (s.clock.Some? ==> forall i :: 0 <= i < |s.drawn| ==> s.drawn[i] < s.clock.value)
    && (forall i, j :: 0 <= i < j < |s.drawn| ==> s.drawn[i] < s.drawn[j])
  }

  lemma {:induction false} StepKeeps(s: State, a: Action)
    requires Inv(s)
    ensures Inv(Step(s, a))
  {
    if a.Resume? { AnchorIsLater(s.durable, a.wall); }
  }

  lemma {:induction false} RunKeeps(s: State, actions: seq<Action>)
    requires Inv(s)
    ensures Inv(Run(s, actions))
    decreases |actions|
  {
    if actions != [] {
      StepKeeps(s, actions[0]);
      RunKeeps(Step(s, actions[0]), actions[1..]);
    }
  }

  /** Across any interruptions and any wall clock, every issued instant is strictly later
      than every fact durable before it, and a process draws strictly increasing instants. */
  lemma {:induction false} TimeMovesForward(actions: seq<Action>)
    ensures var s := Run(State(None, [], [], []), actions);
            IssuedLater(s) && forall i, j :: 0 <= i < j < |s.drawn| ==> s.drawn[i] < s.drawn[j]
  {
    RunKeeps(State(None, [], [], []), actions);
  }
}
