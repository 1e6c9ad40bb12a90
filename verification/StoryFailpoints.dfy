/**
 Interruptions at the four named failpoints only. Such a story never fails, sends the
 one hidden write of its plan exactly once more, and always resumes to completion.
 */
module StoryFailpoints {
  import opened Warehouse
  import opened StoryTarget
  import opened Story
  import opened StoryCompletion
  import opened StoryRecovery

  /** Before the application: one request per baseline write, and no fault. */
  predicate Unbegun(sc: Scenario, d: Disk, p: nat, q: nat) {
    d.plan != Applying && d.plan != Applied && q == 0 && d.target.requests == p && d.target.faults == []
  }

  predicate Finished(sc: Scenario, d: Disk) {
    d.plan == Applied && d.target.faults == [FaultRequest(sc)]
  }

  /** After `sent` repairs took effect: the locked fault hid the reply of its own action only. */
  predicate Underway(sc: Scenario, d: Disk, sent: nat) {
    && d.plan == Applying
    && d.target.faults == (if sent >= sc.faultAction then [FaultRequest(sc)] else [])
  }

  predicate CleanTarget(sc: Scenario, d: Disk, pc: Pc, p: nat, q: nat) {
    match pc
    case Loading(i) => Unbegun(sc, d, p, q) && p == i
    case Observing => Unbegun(sc, d, p, q)
    case Acting(i, ambiguous) =>
      && i == d.applied && q == i + ambiguous && Underway(sc, d, q)
      && (ambiguous == 0 || (ambiguous == 1 && q == sc.faultAction))
      && d.target.requests == |sc.load| + q + (if i >= sc.faultAction then 1 else 0)
    case Recording(i) => Underway(sc, d, q)
        && d.target.requests == |sc.load| + q + (if q >= sc.faultAction then 1 else 0)
    case CompletingPlan => Underway(sc, d, q) && d.target.requests == |sc.load| + |sc.repairs| + 1
    case _ =>
      || (Unbegun(sc, d, p, q) && (p == |sc.load|
          || (p == 0 && (pc.Dead? || pc.Setup? || pc.Creating? || pc.Choosing?))))
      || Finished(sc, d)
  }

  predicate CleanRun(d: Disk, pc: Pc) {
    && !pc.Failed?
    && (d.claimed <==> pc.Completing?)
    && (d.setup == 3 || pc.Creating? || (d.setup == 0 && (pc.Dead? || pc.Setup?)))
  }

  predicate Clean(sc: Scenario, s: State, p: nat, q: nat) {
    CleanRun(s.disk, s.pc) && CleanTarget(sc, s.disk, s.pc, p, q)
  }

  // ---- every step stays clean ----

  lemma {:induction false} LoadingStaysClean(sc: Scenario, s: State, p: nat, q: nat) returns (p': nat)
    requires Inv(sc, s, p, q) && Clean(sc, s, p, q) && s.pc.Loading?
    ensures Inv(sc, Next(sc, s), p', q) && Clean(sc, Next(sc, s), p', q)
  {
    assert Next(sc, s) == NextLoading(sc, s, s.pc.index);
    p' := LoadingKeeps(sc, s, p, q);
    if s.pc.index < |sc.load| {
      var t', r := SendLoad(sc, s.disk.target, p, q, s.pc.index);
      assert Next(sc, s) == At(s.(disk := s.disk.(target := t')), Loading(s.pc.index + 1));
    }
  }

  lemma {:induction false} ActingStaysClean(sc: Scenario, s: State, p: nat, q: nat) returns (q': nat)
    requires Inv(sc, s, p, q) && Clean(sc, s, p, q) && s.pc.Acting?
    ensures Inv(sc, Next(sc, s), p, q') && Clean(sc, Next(sc, s), p, q')
  {
    q' := q;
    if s.pc.index < |sc.repairs| {
      var s', q1 := ActionStep(sc, s, p, q);
      q' := q1;
    } else {
      var s' := SkipStep(sc, s, p, q);
    }
  }

  /** A replay is answered by the recorded receipt at once. */
  lemma {:induction false} ReplayStep(sc: Scenario, s: State, p: nat, q: nat) returns (s': State)
    requires Inv(sc, s, p, q) && s.pc.Replaying? && s.pc.index < |sc.repairs|
    ensures s' == NextReplaying(sc, s, s.pc.index, s.pc.ambiguous)
    ensures s'.disk == s.disk.(target := s'.disk.target) && s'.pc == Replaying(s.pc.index + 1, 0)
    ensures s'.disk.target.faults == s.disk.target.faults
  {
    assert p == |sc.load| && q == |sc.repairs|;
    var t', r := SendRepair(sc, s.disk.target, q, s.pc.index);
    s' := NextReplaying(sc, s, s.pc.index, s.pc.ambiguous);
    assert s'.disk == s.disk.(target := t');
  }

  lemma {:induction false} ReplayingStaysClean(sc: Scenario, s: State, p: nat, q: nat)
    requires Inv(sc, s, p, q) && Clean(sc, s, p, q) && s.pc.Replaying?
    ensures Clean(sc, NextReplaying(sc, s, s.pc.index, s.pc.ambiguous), p, q)
  {
    if s.pc.index < |sc.repairs| {
      var s' := ReplayStep(sc, s, p, q);
    } else {
      assert NextReplaying(sc, s, s.pc.index, s.pc.ambiguous) == At(s, Boundary(RepairApplied));
    }
  }

  lemma {:induction false} OpenedStaysClean(sc: Scenario, s: State, p: nat, q: nat)
    requires Inv(sc, s, p, q) && Clean(sc, s, p, q) && (s.pc.Choosing? || s.pc.Observing?)
    ensures Clean(sc, NextOpening(sc, s), p, q)
  {
    if s.pc.Choosing? {
      InitialMeansLoaded(sc, s.disk.target, p, q);
    } else {
      ObservedIffUnreached(sc, s.disk.target, q);
      ReachedIsAmong(sc, p, q);
      assert NextOpening(sc, s) == At(s, Attempting(1));
    }
  }

  lemma {:induction false} AttemptStaysClean(sc: Scenario, s: State, p: nat, q: nat)
    requires Inv(sc, s, p, q) && Clean(sc, s, p, q) && (s.pc.Attempting? || s.pc.Completing?)
    ensures Clean(sc, NextOpening(sc, s), p, q)
  {
    if s.pc.Attempting? && s.pc.attempt <= ATTEMPTS {
      AttemptMoves(s, s.pc.attempt);
    }
  }

  lemma {:induction false} OpeningStaysClean(sc: Scenario, s: State, p: nat, q: nat)
    requires Inv(sc, s, p, q) && Clean(sc, s, p, q) && Opens(s.pc)
    ensures Clean(sc, NextOpening(sc, s), p, q)
  {
    if s.pc.Choosing? || s.pc.Observing? {
      OpenedStaysClean(sc, s, p, q);
    } else if s.pc.Attempting? || s.pc.Completing? {
      AttemptStaysClean(sc, s, p, q);
    }
  }

  lemma PlanningStaysClean(sc: Scenario, s: State, p: nat, q: nat)
    requires DatabaseInv(sc, s.disk, p, q) && PcInv(sc, s.disk, s.pc, p, q) && Clean(sc, s, p, q) && Plans(s.pc)
    ensures Clean(sc, NextPlanning(s), p, q)
  {
  }

  lemma ApplyingStaysClean(sc: Scenario, s: State, p: nat, q: nat)
    requires Inv(sc, s, p, q) && Clean(sc, s, p, q) && Applies(s.pc)
    ensures Clean(sc, NextApplying(s), p, q)
  {
  }

  lemma {:induction false} VerifyingStaysClean(sc: Scenario, s: State, p: nat, q: nat)
    requires Inv(sc, s, p, q) && Clean(sc, s, p, q) && s.pc.Verifying?
    ensures Clean(sc, NextClosing(sc, s), p, q)
  {
    assert s.disk.target.content == FinalContent(sc);
    ParityAtTheEnd(sc);
    assert NextClosing(sc, s) == At(s, RecordingVerification);
  }

  lemma ClosingStaysClean(sc: Scenario, s: State, p: nat, q: nat)
    requires DatabaseInv(sc, s.disk, p, q) && PcInv(sc, s.disk, s.pc, p, q) && Clean(sc, s, p, q)
    requires !Writes(s.pc) && !Opens(s.pc) && !Plans(s.pc) && !Applies(s.pc) && !s.pc.Verifying?
    ensures Clean(sc, NextClosing(sc, s), p, q)
  {
  }

  lemma {:induction false} NextStaysClean(sc: Scenario, s: State, p: nat, q: nat) returns (p': nat, q': nat)
    requires Inv(sc, s, p, q) && Clean(sc, s, p, q)
    ensures Inv(sc, Next(sc, s), p', q') && Clean(sc, Next(sc, s), p', q')
  {
    p', q' := p, q;
    if s.pc.Loading? {
      p' := LoadingStaysClean(sc, s, p, q);
    } else if s.pc.Acting? {
      q' := ActingStaysClean(sc, s, p, q);
    } else if s.pc.Replaying? {
      assert Next(sc, s) == NextReplaying(sc, s, s.pc.index, s.pc.ambiguous);
      ReplayingKeeps(sc, s, p, q);
      ReplayingStaysClean(sc, s, p, q);
    } else {
      QuietKeeps(sc, s, p, q);
      if Opens(s.pc) { OpeningStaysClean(sc, s, p, q); }
      else if Plans(s.pc) { PlanningStaysClean(sc, s, p, q); }
      else if Applies(s.pc) { ApplyingStaysClean(sc, s, p, q); }
      else if s.pc.Verifying? { VerifyingStaysClean(sc, s, p, q); }
      else { ClosingStaysClean(sc, s, p, q); }
    }
  }

  lemma {:induction false} StartStaysClean(sc: Scenario, s: State, p: nat, q: nat)
    requires Inv(sc, s, p, q) && Clean(sc, s, p, q) && !Running(s.pc)
    ensures Clean(sc, Started(s), p, q)
    ensures CanComplete(sc, s.disk)
  {
    if p > 0 { LoadedHasVersion(sc, p, q); }
    StartedKeeps(sc, s, p, q);
    InitialMeansLoaded(sc, s.disk.target, p, q);
    ReachedIsAmong(sc, p, q);
  }

  // ---- whole histories ----

  /** Every kill of the history falls on a named failpoint. */
  ghost predicate KillsAtFailpoints(sc: Scenario, s: State, actions: seq<Action>)
    decreases |actions|
  {
    actions != [] ==>
      && (actions[0].Kill? && Running(s.pc) ==> s.pc.Boundary?)
      && KillsAtFailpoints(sc, Step(sc, s, actions[0]), actions[1..])
  }

  lemma {:induction false} StepStaysClean(sc: Scenario, s: State, p: nat, q: nat, a: Action) returns (p': nat, q': nat)
    requires Inv(sc, s, p, q) && Clean(sc, s, p, q)
    requires a.Kill? && Running(s.pc) ==> s.pc.Boundary?
    ensures Inv(sc, Step(sc, s, a), p', q') && Clean(sc, Step(sc, s, a), p', q')
  {
    p', q' := p, q;
    if a.Go? {
      p', q' := NextStaysClean(sc, s, p, q);
    } else if a.Kill? {
      if Running(s.pc) { KilledKeeps(sc, s, p, q, a.commits); }
    } else if !Running(s.pc) {
      StartedKeeps(sc, s, p, q);
      StartStaysClean(sc, s, p, q);
    }
  }

  lemma {:induction false} HistoryStaysClean(
      sc: Scenario, s: State, p: nat, q: nat, actions: seq<Action>) returns (p': nat, q': nat)
    requires Inv(sc, s, p, q) && Clean(sc, s, p, q) && KillsAtFailpoints(sc, s, actions)
    ensures Inv(sc, History(sc, s, actions), p', q') && Clean(sc, History(sc, s, actions), p', q')
    decreases |actions|
  {
    p', q' := p, q;
    if actions != [] {
      p', q' := StepStaysClean(sc, s, p, q, actions[0]);
      p', q' := HistoryStaysClean(sc, Step(sc, s, actions[0]), p', q', actions[1..]);
    }
  }

  /** While the plan is applied: the loss hides the reply of its own action and no other, once. */
  ghost predicate LossInPlace(sc: Scenario, s: State) {
    && (s.pc.Acting? ==>
          && (s.pc.ambiguous > 0 ==> s.pc.ambiguous == 1 && s.pc.index + 1 == sc.faultAction
                                     && RepairKey(s.pc.index) in s.disk.target.content.effects)
          && s.disk.target.faults ==
             (if s.pc.index + s.pc.ambiguous >= sc.faultAction then [FaultRequest(sc)] else [])
          && s.disk.target.requests ==
             |sc.load| + s.pc.index + s.pc.ambiguous + (if s.pc.index >= sc.faultAction then 1 else 0))
    && (s.pc.CompletingPlan? ==> s.disk.target.requests == |sc.load| + |sc.repairs| + 1)
  }

  lemma {:induction false} SentHasEffect(sc: Scenario, p: nat, q: nat, i: nat)
    requires WellFormed(sc) && Reached(sc, p, q) && i < q
    ensures RepairKey(i) in ContentAt(sc, p, q).effects
  {
    ContentShape(sc, p, q);
  }

  lemma {:induction false} LossStaysInPlace(sc: Scenario, s: State, p: nat, q: nat)
    requires Inv(sc, s, p, q) && Clean(sc, s, p, q)
    ensures LossInPlace(sc, s)
  {
    if s.pc.Acting? && s.pc.ambiguous > 0 { SentHasEffect(sc, p, q, s.pc.index); }
  }

  lemma {:induction false} CleanResumes(sc: Scenario, s: State, p: nat, q: nat)
    requires Inv(sc, s, p, q) && Clean(sc, s, p, q) && !Running(s.pc)
    ensures Completes(sc, Started(s))
  {
    StartStaysClean(sc, s, p, q);
    CompletesIff(sc, s, p, q);
  }

  /** However often the story is killed at its named failpoints, it never fails. While it
      applies its plan the connection loss hides the reply of its own action and no other,
      once, and that action's key is the only one sent a second time; so the plan takes one
      request more than there are writes. Once its process is gone the next one, left alone,
      completes. */
  lemma {:induction false} FailpointsAlwaysResume(sc: Scenario, actions: seq<Action>)
    requires WellFormed(sc) && KillsAtFailpoints(sc, State(FRESH, Dead, false), actions)
    ensures var s := History(sc, State(FRESH, Dead, false), actions);
            && !s.pc.Failed? && LossInPlace(sc, s)
            && (!Running(s.pc) ==> Completes(sc, Started(s)))
  {
    var s := History(sc, State(FRESH, Dead, false), actions);
    var p, q := HistoryStaysClean(sc, State(FRESH, Dead, false), 0, 0, actions);
    LossStaysInPlace(sc, s, p, q);
    if !Running(s.pc) { CleanResumes(sc, s, p, q); }
  }
}
