/**
 The fatal kills are reachable: for every scenario, a new story that nothing disturbs comes
 to each of the points at which a kill is fatal.
 */
module StoryFatalKills {
  import opened Warehouse
  import opened StoryTarget
  import opened Story
  import opened StoryCompletion
  import opened StoryRecovery
  import opened StoryFailpoints

  /** A run on which something becomes true has a step that makes it true. */
  lemma {:induction false} Crossing(step: Stepper, s: State, n: nat, holds: State -> bool) returns (k: nat)
    requires !holds(s) && holds(Repeat(step, s, n))
    ensures !holds(Repeat(step, s, k)) && holds(step(Repeat(step, s, k)))
    decreases n
  {
    if holds(step(s)) {
      k := 0;
    } else {
      k := Crossing(step, step(s), n - 1, holds);
      k := k + 1;
    }
  }

  /** `k` steps of the process, and then the rest. */
  function StepsThen(k: nat, rest: seq<Action>): seq<Action> {
    if k == 0 then rest else [Go] + StepsThen(k - 1, rest)
  }

  lemma {:induction false} OneGo(sc: Scenario, s: State, rest: seq<Action>)
    ensures History(sc, s, [Go] + rest) == History(sc, Process(sc)(s), rest)
  {
    assert ([Go] + rest)[1..] == rest;
    assert Step(sc, s, Go) == Process(sc)(s);
  }

  lemma {:induction false} StepsAreRepeated(
    step: Stepper, run: (State, seq<Action>) -> State, s: State, k: nat, rest: seq<Action>)
    requires forall x, r :: run(x, [Go] + r) == run(step(x), r)
    ensures run(s, StepsThen(k, rest)) == run(Repeat(step, s, k), rest)
    decreases k
  {
    if k > 0 { StepsAreRepeated(step, run, step(s), k - 1, rest); }
  }

  lemma {:induction false} HistoryOfSteps(sc: Scenario, s: State, k: nat, rest: seq<Action>)
    ensures History(sc, s, StepsThen(k, rest)) == History(sc, Repeat(Process(sc), s, k), rest)
  {
    var run: (State, seq<Action>) -> State := (x, r) => History(sc, x, r);
    forall x, r ensures run(x, [Go] + r) == run(Process(sc)(x), r) { OneGo(sc, x, r); }
    StepsAreRepeated(Process(sc), run, s, k, rest);
  }

  /** A new story, undisturbed for `k` steps and then killed. */
  function KilledAfter(k: nat, commits: nat): seq<Action> { [Start] + StepsThen(k, [Kill(commits)]) }

  function Begun(): State { State(FRESH, Setup, false) }

  lemma {:induction false} KilledThere(sc: Scenario, k: nat, commits: nat)
    requires Running(Repeat(Process(sc), Begun(), k).pc)
    ensures History(sc, State(FRESH, Dead, false), KilledAfter(k, commits)) ==
            Killed(sc, Repeat(Process(sc), Begun(), k), commits)
  {
    var s := Repeat(Process(sc), Begun(), k);
    assert KilledAfter(k, commits)[1..] == StepsThen(k, [Kill(commits)]);
    assert Step(sc, State(FRESH, Dead, false), Start) == Begun();
    HistoryOfSteps(sc, Begun(), k, [Kill(commits)]);
    assert [Kill(commits)][1..] == [];
    assert History(sc, s, [Kill(commits)]) == Step(sc, s, Kill(commits));
  }

  ghost predicate Reachable(sc: Scenario, s: State) { exists p, q :: Inv(sc, s, p, q) }

  lemma {:induction false} StaysReachable(sc: Scenario, k: nat)
    requires WellFormed(sc)
    ensures Reachable(sc, Repeat(Process(sc), Begun(), k))
  {
    var keeps: State -> bool := x => Reachable(sc, x);
    assert Inv(sc, Begun(), 0, 0);
    forall x | keeps(x) ensures keeps(Process(sc)(x)) {
      var p, q :| Inv(sc, x, p, q);
      var p', q' := NextKeeps(sc, x, p, q);
    }
    RepeatKeeps(Process(sc), Begun(), k, keeps);
  }

  /** Undisturbed, a new story gets to its end, with two attempts and all repairs recorded and the fault noted. */
  lemma {:induction false} NewStoryEnds(sc: Scenario) returns (n: nat)
    requires WellFormed(sc)
    ensures var s := Repeat(Process(sc), Begun(), n);
            |s.disk.attempts| == ATTEMPTS && s.disk.applied == |sc.repairs| && s.disk.target.faults != []
  {
    FailpointsAlwaysResume(sc, []);
    assert Started(State(FRESH, Dead, false)) == Begun();
    n :| Repeat(Process(sc), Begun(), n).pc.Done?;
    StaysReachable(sc, n);
    var p, q :| Inv(sc, Repeat(Process(sc), Begun(), n), p, q);
  }

  /** Only the completion of a claimed attempt records one, and only the record of a repair counts it. */
  predicate Recorded(s: State, s': State) {
    && (|s'.disk.attempts| == |s.disk.attempts| || s.pc.Completing?)
    && (s'.disk.applied == s.disk.applied || (s.pc.Recording? && s'.disk.applied == s.pc.index + 1))
  }

  lemma ActingRecords(sc: Scenario, s: State, i: nat, n: nat)
    ensures Recorded(s, NextActing(sc, s, i, n))
  {
  }

  lemma ReplayingRecords(sc: Scenario, s: State, i: nat, n: nat)
    ensures Recorded(s, NextReplaying(sc, s, i, n))
  {
  }

  lemma {:induction false} WritingRecords(sc: Scenario, s: State)
    requires Writes(s.pc)
    ensures Recorded(s, NextWriting(sc, s))
  {
    if s.pc.Acting? {
      assert NextWriting(sc, s) == NextActing(sc, s, s.pc.index, s.pc.ambiguous);
      ActingRecords(sc, s, s.pc.index, s.pc.ambiguous);
    } else if s.pc.Replaying? {
      assert NextWriting(sc, s) == NextReplaying(sc, s, s.pc.index, s.pc.ambiguous);
      ReplayingRecords(sc, s, s.pc.index, s.pc.ambiguous);
    } else {
      assert NextWriting(sc, s) == NextLoading(sc, s, s.pc.index);
    }
  }

  lemma OpeningRecords(sc: Scenario, s: State)
    ensures Recorded(s, NextOpening(sc, s))
  {
  }

  lemma {:induction false} PlanningRecords(s: State)
    requires Plans(s.pc)
    ensures Recorded(s, NextPlanning(s))
  {
    var s' := NextPlanning(s);
    match s.pc
    case Boundary(_) => assert Recorded(s, s');
    case Finalizing => assert Recorded(s, s');
    case PublishingArtifact => assert Recorded(s, s');
    case Reconciling => assert Recorded(s, s');
    case Planning => assert Recorded(s, s');
    case Probing => assert Recorded(s, s');
    case Approving => assert Recorded(s, s');
  }

  lemma BeginningRecords(s: State)
    ensures Recorded(s, NextBeginning(s))
  {
  }

  lemma {:induction false} ApplyingRecords(s: State)
    requires Applies(s.pc)
    ensures Recorded(s, NextApplying(s))
  {
    if s.pc.Beginning? {
      assert NextApplying(s) == NextBeginning(s);
      BeginningRecords(s);
    }
  }

  lemma ClosingRecords(sc: Scenario, s: State)
    ensures |NextClosing(sc, s).disk.attempts| == |s.disk.attempts| && NextClosing(sc, s).disk.applied == s.disk.applied
  {
  }

  lemma {:induction false} WhoRecords(sc: Scenario, s: State)
    ensures Recorded(s, Next(sc, s))
  {
    if Writes(s.pc) {
      WritingRecords(sc, s);
    } else if Opens(s.pc) {
      OpeningRecords(sc, s);
    } else if Plans(s.pc) {
      PlanningRecords(s);
    } else if Applies(s.pc) {
      ApplyingRecords(s);
    } else {
      ClosingRecords(sc, s);
    }
  }

  /** For every scenario, a kill between the first claim and its completion is fatal. */
  lemma {:induction false} ClaimKillReached(sc: Scenario) returns (k: nat)
    requires WellFormed(sc)
    ensures var s := History(sc, State(FRESH, Dead, false), KilledAfter(k, 0));
            s.disk.claimed && !Publishes(sc, s)
  {
    var n := NewStoryEnds(sc);
    k := Crossing(Process(sc), Begun(), n, (x: State) => |x.disk.attempts| > 0);
    var s := Repeat(Process(sc), Begun(), k);
    assert Process(sc)(s) == Next(sc, s);
    WhoRecords(sc, s);
    StaysReachable(sc, k);
    var p, q :| Inv(sc, s, p, q);
    FatalKill(sc, s, p, q, 0);
    KilledThere(sc, k, 0);
  }

  /** For every scenario and every update of its plan, a kill between the update's effect and
      its record is fatal. */
  lemma {:induction false} UpdateKillReached(sc: Scenario, i: nat) returns (k: nat)
    requires WellFormed(sc) && i < |sc.repairs| && sc.repairs[i].pre.MustHold?
    ensures var s := History(sc, State(FRESH, Dead, false), KilledAfter(k, 0));
            UpdateStranded(sc, s.disk) && s.disk.applied == i && !Publishes(sc, s)
  {
    var n := NewStoryEnds(sc);
    k := Crossing(Process(sc), Begun(), n, (x: State) => x.disk.applied > i);
    var s := Repeat(Process(sc), Begun(), k);
    assert Process(sc)(s) == Next(sc, s);
    WhoRecords(sc, s);
    StaysReachable(sc, k);
    var p, q :| Inv(sc, s, p, q);
    assert s.pc.index == i;
    ReachedIsAmong(sc, p, q);
    FatalKill(sc, s, p, q, 0);
    KilledThere(sc, k, 0);
  }

  lemma UpsertNotes(sc: Scenario, t: Target, w: Write)
    ensures var t' := Upsert(ScriptOf(sc), t, w).0;
            t'.faults == t.faults || t.requests + 1 == FaultRequest(sc)
  {
  }

  /** The step sends a write or leaves the target as it is. */
  ghost predicate SendsOrStays(sc: Scenario, s: State, s': State) {
    || s'.disk.target == s.disk.target
    || (AboutToWrite(sc, s) && exists w :: s'.disk.target == Upsert(ScriptOf(sc), s.disk.target, w).0)
  }

  lemma {:induction false} LoadingSends(sc: Scenario, s: State)
    requires s.pc.Loading?
    ensures SendsOrStays(sc, s, NextLoading(sc, s, s.pc.index))
  {
    var i := s.pc.index;
    if i < |sc.load| {
      assert NextLoading(sc, s, i).disk.target == Upsert(ScriptOf(sc), s.disk.target, sc.load[i]).0;
    }
  }

  lemma {:induction false} ActingSends(sc: Scenario, s: State)
    requires s.pc.Acting?
    ensures SendsOrStays(sc, s, NextActing(sc, s, s.pc.index, s.pc.ambiguous))
  {
    var i := s.pc.index;
    if s.disk.applied <= i < |sc.repairs| {
      var t' := Upsert(ScriptOf(sc), s.disk.target, sc.repairs[i]).0;
      assert NextActing(sc, s, i, s.pc.ambiguous).disk.target == t';
    }
  }

  lemma {:induction false} ReplayingSends(sc: Scenario, s: State)
    requires s.pc.Replaying?
    ensures SendsOrStays(sc, s, NextReplaying(sc, s, s.pc.index, s.pc.ambiguous))
  {
    var i := s.pc.index;
    if i < |sc.repairs| {
      var t' := Upsert(ScriptOf(sc), s.disk.target, sc.repairs[i]).0;
      assert NextReplaying(sc, s, i, s.pc.ambiguous).disk.target == t';
    }
  }

  /** Only a write notes a fault, and only the locked one. */
  lemma {:induction false} WhoNotes(sc: Scenario, s: State, p: nat, q: nat)
    requires Inv(sc, s, p, q) && Next(sc, s).disk.target.faults != s.disk.target.faults
    ensures AboutToWrite(sc, s) && s.disk.target.requests + 1 == FaultRequest(sc)
  {
    if !Writes(s.pc) {
      QuietKeeps(sc, s, p, q);
    } else {
      if s.pc.Acting? {
        ActingSends(sc, s);
      } else if s.pc.Replaying? {
        ReplayingSends(sc, s);
      } else {
        LoadingSends(sc, s);
      }
      assert SendsOrStays(sc, s, Next(sc, s));
      var w :| Next(sc, s).disk.target == Upsert(ScriptOf(sc), s.disk.target, w).0;
      UpsertNotes(sc, s.disk.target, w);
    }
  }

  /** For every scenario, a kill between the count of the fault's request and its note is fatal. */
  lemma {:induction false} FaultKillReached(sc: Scenario) returns (k: nat)
    requires WellFormed(sc)
    ensures var s := History(sc, State(FRESH, Dead, false), KilledAfter(k, 1));
            FaultMissed(sc, s.disk) && !Publishes(sc, s)
  {
    var n := NewStoryEnds(sc);
    k := Crossing(Process(sc), Begun(), n, (x: State) => x.disk.target.faults != []);
    var s := Repeat(Process(sc), Begun(), k);
    assert Process(sc)(s) == Next(sc, s);
    StaysReachable(sc, k);
    var p, q :| Inv(sc, s, p, q);
    WhoNotes(sc, s, p, q);
    FatalKill(sc, s, p, q, 1);
    KilledThere(sc, k, 1);
  }

  /** For every scenario, a kill inside its first write is fatal: the document left behind does
      not load. */
  lemma {:induction false} FirstWriteKillReached(sc: Scenario)
    requires WellFormed(sc)
    ensures var s := History(sc, State(FRESH, Dead, false), KilledAfter(6, 1));
            Unreadable(s.disk) && Reopen(s.disk.target).None? && !Publishes(sc, s)
  {
    var f, s := FRESH.(setup := 3), State(FRESH.(setup := 3), Loading(0), false);
    var step := Process(sc);
    assert step(Begun()) == State(FRESH, Creating, false);
    assert step(State(FRESH, Creating, false)) == State(FRESH.(setup := 1), Creating, false);
    assert step(State(FRESH.(setup := 1), Creating, false)) == State(FRESH.(setup := 2), Creating, false);
    assert step(State(FRESH.(setup := 2), Creating, false)) == State(f, Creating, false);
    assert step(State(f, Creating, false)) == State(f, Choosing, false);
    assert Inv(sc, State(f, Choosing, false), 0, 0);
    InitialMeansLoaded(sc, f.target, 0, 0);
    assert step(State(f, Choosing, false)) == s;
    assert Repeat(step, s, 0) == s;
    assert Repeat(step, State(f, Choosing, false), 1) == s;
    assert Repeat(step, State(f, Creating, false), 2) == s;
    assert Repeat(step, State(FRESH.(setup := 2), Creating, false), 3) == s;
    assert Repeat(step, State(FRESH.(setup := 1), Creating, false), 4) == s;
    assert Repeat(step, State(FRESH, Creating, false), 5) == s;
    assert Repeat(step, Begun(), 6) == s;
    KilledThere(sc, 6, 1);
    FatalKill(sc, s, 0, 0, 1);
  }
}
