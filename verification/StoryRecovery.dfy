/**
 What later runs can still make of an interrupted story. Some history publishes a
 manifest exactly when the disk is not `Doomed`.
 */
module StoryRecovery {
  import opened Wrappers
  import opened Warehouse
  import opened StoryTarget
  import opened Story
  import opened StoryCompletion

  /** Requests were counted but no effect was stored: the document does not load. */
  predicate Unreadable(d: Disk) { d.target.requests > 0 && d.target.content.version == 0 }
  /** The run was created but not bootstrapped. */
  predicate HalfCreated(d: Disk) { d.setup == 1 || d.setup == 2 }
  /** The request of the locked fault was counted and its fault never noted. */
  predicate FaultMissed(sc: Scenario, d: Disk) { d.target.requests >= FaultRequest(sc) && d.target.faults == [] }
  /** A baseline record was already repaired by a plan that is not yet applied. */
  predicate UpdateStranded(sc: Scenario, d: Disk) { d.plan != Applied && !NoUpdateReached(sc, d.target.content) }

  /** The five ways in which a kill leaves a disk that no history can complete any more;
      `claimed` is an attempt that was claimed and never completed. */
  predicate Doomed(sc: Scenario, d: Disk) {
    Unreadable(d) || HalfCreated(d) || d.claimed || FaultMissed(sc, d) || UpdateStranded(sc, d)
  }

  ghost predicate Publishes(sc: Scenario, s: State) {
    exists actions :: History(sc, s, actions).disk.manifest.Some?
  }

  // ---- a doomed disk stays doomed ----

  predicate Loads(pc: Pc) { !Running(pc) || pc.Setup? || pc.Creating? || pc.Choosing? || pc.Loading? || pc.Observing? }

  predicate NotPublished(s: State) { s.disk.manifest.None? && !s.pc.Done? && !s.pc.Publishing? }

  predicate BlockedAtStart(s: State) {
    || (Unreadable(s.disk) && !Running(s.pc))
    || (HalfCreated(s.disk) && (!Running(s.pc) || s.pc.Setup?))
  }

  predicate BlockedByClaim(s: State) { s.disk.claimed && (Loads(s.pc) || s.pc.Attempting?) }

  predicate BlockedByUpdate(sc: Scenario, s: State) { UpdateStranded(sc, s.disk) && Loads(s.pc) }

  /** How far a process can still get on a doomed disk. */
  predicate Blocked(sc: Scenario, s: State) {
    NotPublished(s) && (BlockedAtStart(s) || BlockedByClaim(s) || BlockedByUpdate(sc, s) || FaultMissed(sc, s.disk))
  }

  lemma {:induction false} ClaimBlocks(sc: Scenario, s: State, p: nat, q: nat)
    requires Inv(sc, s, p, q) && NotPublished(s) && BlockedByClaim(s)
    ensures NotPublished(Next(sc, s)) && BlockedByClaim(Next(sc, s))
  {
    if s.pc.Loading? {
      if s.pc.index < |sc.load| { var s', p' := LoadStep(sc, s, p, q); }
    } else if s.pc.Attempting? {
      AttemptMoves(s, s.pc.attempt);
    }
  }

  lemma {:induction false} UpdateBlocksLoad(sc: Scenario, s: State, p: nat, q: nat)
    requires Inv(sc, s, p, q) && NotPublished(s) && UpdateStranded(sc, s.disk) && s.pc.Loading?
    ensures NotPublished(Next(sc, s)) && BlockedByUpdate(sc, Next(sc, s))
  {
    if s.pc.index < |sc.load| {
      ReachedIsAmong(sc, p, q);
      var s', p' := LoadStep(sc, s, p, q);
      ReachedIsAmong(sc, p', q);
    }
  }

  lemma {:induction false} UpdateBlocksChoice(sc: Scenario, s: State, p: nat, q: nat)
    requires Inv(sc, s, p, q) && NotPublished(s) && BlockedByUpdate(sc, s) && s.pc.Choosing?
    ensures Next(sc, s) == At(s, Loading(0))
  {
    ReachedIsAmong(sc, p, q);
    InitialMeansLoaded(sc, s.disk.target, p, q);
  }

  lemma {:induction false} UpdateBlocksReadBack(sc: Scenario, s: State, p: nat, q: nat)
    requires Inv(sc, s, p, q) && NotPublished(s) && BlockedByUpdate(sc, s) && s.pc.Observing?
    ensures Next(sc, s) == At(s, Failed)
  {
    ObservedIffUnreached(sc, s.disk.target, q);
  }

  lemma {:induction false} UpdateBlocks(sc: Scenario, s: State, p: nat, q: nat)
    requires Inv(sc, s, p, q) && NotPublished(s) && BlockedByUpdate(sc, s)
    ensures NotPublished(Next(sc, s)) && BlockedByUpdate(sc, Next(sc, s))
  {
    if s.pc.Loading? {
      UpdateBlocksLoad(sc, s, p, q);
    } else if s.pc.Choosing? {
      UpdateBlocksChoice(sc, s, p, q);
    } else if s.pc.Observing? {
      UpdateBlocksReadBack(sc, s, p, q);
    } else if Running(s.pc) {
      assert Next(sc, s) == NextOpening(sc, s);
    }
  }

  /** Past the locked fault no reply is hidden and no fault is noted any more. */
  lemma {:induction false} ActingPastFault(sc: Scenario, s: State, p: nat, q: nat)
    requires Inv(sc, s, p, q) && s.pc.Acting? && s.disk.target.requests >= FaultRequest(sc)
    ensures var s' := NextActing(sc, s, s.pc.index, s.pc.ambiguous);
            && s'.disk.target.requests >= FaultRequest(sc) && s'.disk.target.faults == s.disk.target.faults
            && s'.disk.manifest == s.disk.manifest && !s'.pc.Done? && !s'.pc.Publishing?
  {
    if s.disk.applied <= s.pc.index < |sc.repairs| {
      var t', r := SendRepair(sc, s.disk.target, q, s.pc.index);
      var s' := NextActing(sc, s, s.pc.index, s.pc.ambiguous);
      assert s'.disk == s.disk.(target := t');
    }
  }

  lemma {:induction false} ReplayingPastFault(sc: Scenario, s: State, p: nat, q: nat)
    requires Inv(sc, s, p, q) && s.pc.Replaying? && s.disk.target.requests >= FaultRequest(sc)
    ensures var s' := NextReplaying(sc, s, s.pc.index, s.pc.ambiguous);
            && s'.disk.target.requests >= FaultRequest(sc) && s'.disk.target.faults == s.disk.target.faults
            && s'.disk.manifest == s.disk.manifest && !s'.pc.Done? && !s'.pc.Publishing?
  {
    if s.pc.index < |sc.repairs| {
      assert p == |sc.load| && q == |sc.repairs|;
      var t', r := SendRepair(sc, s.disk.target, q, s.pc.index);
      var s' := NextReplaying(sc, s, s.pc.index, s.pc.ambiguous);
      assert s'.disk == s.disk.(target := t');
    }
  }

  lemma {:induction false} OpeningDoesNotPublish(sc: Scenario, s: State)
    requires NotPublished(s) && Opens(s.pc)
    ensures NotPublished(NextOpening(sc, s))
  {
    OpeningKeepsManifest(sc, s);
  }

  lemma {:induction false} PlanningDoesNotPublish(s: State)
    requires NotPublished(s) && Plans(s.pc)
    ensures NotPublished(NextPlanning(s))
  {
    PlanningKeepsManifest(s);
  }

  lemma {:induction false} QuietStaysUnpublished(sc: Scenario, s: State)
    requires NotPublished(s) && !Writes(s.pc) && s.disk.target.faults == []
    ensures NotPublished(Next(sc, s))
  {
    if Opens(s.pc) {
      OpeningDoesNotPublish(sc, s);
    } else if Plans(s.pc) {
      PlanningDoesNotPublish(s);
    } else if Applies(s.pc) {
      assert NotPublished(NextApplying(s));
    } else {
      assert NotPublished(NextClosing(sc, s));
    }
  }

  lemma {:induction false} MissedLoad(sc: Scenario, s: State, p: nat, q: nat)
    requires Inv(sc, s, p, q) && NotPublished(s) && FaultMissed(sc, s.disk) && s.pc.Loading?
    ensures NotPublished(Next(sc, s)) && FaultMissed(sc, Next(sc, s).disk)
  {
    if s.pc.index < |sc.load| {
      var s', p' := LoadStep(sc, s, p, q);
    } else {
      assert Next(sc, s) == NextWriting(sc, s) == NextLoading(sc, s, s.pc.index);
    }
  }

  lemma {:induction false} MissedBlocks(sc: Scenario, s: State, p: nat, q: nat)
    requires Inv(sc, s, p, q) && NotPublished(s) && FaultMissed(sc, s.disk)
    ensures NotPublished(Next(sc, s)) && FaultMissed(sc, Next(sc, s).disk)
  {
    if s.pc.Loading? {
      MissedLoad(sc, s, p, q);
    } else if s.pc.Acting? {
      ActingPastFault(sc, s, p, q);
      assert Next(sc, s) == NextActing(sc, s, s.pc.index, s.pc.ambiguous);
    } else if s.pc.Replaying? {
      ReplayingPastFault(sc, s, p, q);
      assert Next(sc, s) == NextReplaying(sc, s, s.pc.index, s.pc.ambiguous);
    } else {
      QuietStaysUnpublished(sc, s);
      QuietKeeps(sc, s, p, q);
    }
  }

  lemma {:induction false} KillKeepsBlocked(sc: Scenario, s: State, commits: nat)
    requires Blocked(sc, s) && Running(s.pc)
    ensures Blocked(sc, Killed(sc, s, commits))
  {
    var s' := Killed(sc, s, commits);
    assert s'.disk == s.disk.(target := s'.disk.target) && s'.disk.target.content == s.disk.target.content;
  }

  lemma {:induction false} StartKeepsBlocked(sc: Scenario, s: State, p: nat, q: nat)
    requires Inv(sc, s, p, q) && Blocked(sc, s) && !Running(s.pc)
    ensures Blocked(sc, Started(s))
  {
    StartedKeeps(sc, s, p, q);
  }

  lemma {:induction false} StepKeepsBlocked(sc: Scenario, s: State, p: nat, q: nat, a: Action)
    requires Inv(sc, s, p, q) && Blocked(sc, s)
    ensures Blocked(sc, Step(sc, s, a))
  {
    if a.Kill? {
      if Running(s.pc) { KillKeepsBlocked(sc, s, a.commits); }
    } else if a.Start? {
      if !Running(s.pc) { StartKeepsBlocked(sc, s, p, q); }
    } else if BlockedByClaim(s) {
      ClaimBlocks(sc, s, p, q);
    } else if BlockedByUpdate(sc, s) {
      UpdateBlocks(sc, s, p, q);
    } else if FaultMissed(sc, s.disk) {
      MissedBlocks(sc, s, p, q);
    }
  }

  lemma {:induction false} BlockedForever(sc: Scenario, s: State, p: nat, q: nat, actions: seq<Action>)
    requires Inv(sc, s, p, q) && Blocked(sc, s)
    ensures !History(sc, s, actions).disk.manifest.Some?
    decreases |actions|
  {
    if actions != [] {
      StepKeepsBlocked(sc, s, p, q, actions[0]);
      var p', q' := StepKeeps(sc, s, p, q, actions[0]);
      BlockedForever(sc, Step(sc, s, actions[0]), p', q', actions[1..]);
    }
  }

  // ---- any other disk can be completed ----

  lemma {:induction false} OneAction(sc: Scenario, s: State, a: Action)
    requires Publishes(sc, Step(sc, s, a))
    ensures Publishes(sc, s)
  {
    var actions :| History(sc, Step(sc, s, a), actions).disk.manifest.Some?;
    assert ([a] + actions)[1..] == actions;
    assert History(sc, s, [a] + actions).disk.manifest.Some?;
  }

  lemma {:induction false} NextPublishes(sc: Scenario, s: State)
    requires Publishes(sc, Next(sc, s))
    ensures Publishes(sc, s)
  {
    assert Step(sc, s, Go) == Next(sc, s);
    OneAction(sc, s, Go);
  }

  lemma {:induction false} ManifestPublishes(sc: Scenario, s: State)
    requires s.disk.manifest.Some?
    ensures Publishes(sc, s)
  {
    assert History(sc, s, []).disk.manifest.Some?;
  }

  lemma {:induction false} CompletingPublishes(sc: Scenario, s: State, p: nat, q: nat)
    requires Inv(sc, s, p, q) && Completes(sc, s)
    ensures Publishes(sc, s)
  {
    var n: nat :| Repeat(Process(sc), s, n).pc.Done?;
    var end := Repeat(Process(sc), s, n);
    var keeps: State -> bool := x => exists p, q :: Inv(sc, x, p, q);
    forall x | keeps(x) ensures keeps(Process(sc)(x)) {
      var p1, q1 :| Inv(sc, x, p1, q1);
      var p2, q2 := NextKeeps(sc, x, p1, q1);
    }
    RepeatKeeps(Process(sc), s, n, keeps);
    var p3, q3 :| Inv(sc, end, p3, q3);
    ManifestPublishes(sc, end);
    PublishingGoesBack(sc, s, n);
  }

  lemma {:induction false} PublishingGoesBack(sc: Scenario, s: State, n: nat)
    requires Publishes(sc, Repeat(Process(sc), s, n))
    ensures Publishes(sc, s)
  {
    var leads: State -> bool := x => Publishes(sc, x);
    forall x | leads(Process(sc)(x)) ensures leads(x) { NextPublishes(sc, x); }
    RepeatBack(Process(sc), s, n, leads);
  }

  lemma VersionGrows(c: Content, w: Write)
    ensures Commit(c, w).0.version >= c.version
  {
  }

  /** The first baseline write takes effect. */
  lemma {:induction false} LoadedHasVersion(sc: Scenario, p: nat, q: nat)
    requires WellFormed(sc) && Reached(sc, p, q) && p >= 1
    ensures ContentAt(sc, p, q).version >= 1
    decreases q, p
  {
    if q > 0 {
      LoadedHasVersion(sc, p, q - 1);
      VersionGrows(ContentAt(sc, p, q - 1), sc.repairs[q - 1]);
    } else if p > 1 {
      LoadedHasVersion(sc, p - 1, 0);
      VersionGrows(ContentAt(sc, p - 1, 0), sc.load[p - 1]);
    } else {
      assert ContentAt(sc, 0, 0) == EMPTY;
      assert ContentAt(sc, 1, 0) == Commit(EMPTY, sc.load[0]).0;
    }
  }

  predicate Loadable(sc: Scenario, d: Disk) {
    d.setup == 3 && !d.claimed && NoUpdateReached(sc, d.target.content) && FaultAhead(sc, d.target)
  }

  /** A load that ran into the locked fault leaves a disk from which the next process completes. */
  lemma {:induction false} AfterHiddenLoad(sc: Scenario, s: State, p: nat, q: nat)
    requires Inv(sc, s, p, q) && s.pc.Failed? && p >= 1
    requires Loadable(sc, s.disk) && s.disk.target.faults == [FaultRequest(sc)]
    ensures Publishes(sc, s)
  {
    LoadedHasVersion(sc, p, q);
    CompletesIff(sc, s, p, q);
    StartedKeeps(sc, s, p, q);
    CompletingPublishes(sc, Started(s), p, q);
    assert Step(sc, s, Start) == Started(s);
    OneAction(sc, s, Start);
  }

  lemma {:induction false} LoadingPublishes(sc: Scenario, s: State, p: nat, q: nat)
    requires Inv(sc, s, p, q) && s.pc.Loading? && Loadable(sc, s.disk)
    ensures Publishes(sc, s)
    decreases |sc.load| - s.pc.index
  {
    ReachedIsAmong(sc, p, q);
    FromLoading(sc, s, p, q);
    if Completes(sc, s) {
      CompletingPublishes(sc, s, p, q);
    } else {
      var s', p' := LoadStep(sc, s, p, q);
      ReachedIsAmong(sc, p', q);
      if s'.pc.Loading? {
        LoadingPublishes(sc, s', p', q);
      } else {
        AfterHiddenLoad(sc, s', p', q);
      }
      NextPublishes(sc, s);
    }
  }

  lemma {:induction false} ChoosingPublishes(sc: Scenario, s: State, p: nat, q: nat)
    requires Inv(sc, s, p, q) && s.pc.Choosing? && s.disk.setup == 3 && !Doomed(sc, s.disk)
    ensures Publishes(sc, s)
  {
    FromChoosing(sc, s, p, q);
    if Completes(sc, s) {
      CompletingPublishes(sc, s, p, q);
    } else {
      var s' := Quiet(sc, s, p, q);
      assert s' == At(s, Loading(0));
      LoadingPublishes(sc, s', p, q);
      NextPublishes(sc, s);
    }
  }

  lemma {:induction false} CreatingPublishes(sc: Scenario, s: State, p: nat, q: nat)
    requires Inv(sc, s, p, q) && s.pc.Creating? && !Doomed(sc, s.disk.(setup := 3))
    ensures Publishes(sc, s)
    decreases 3 - s.disk.setup
  {
    var s' := Quiet(sc, s, p, q);
    if s'.pc.Creating? {
      assert s'.disk.(setup := 3) == s.disk.(setup := 3);
      CreatingPublishes(sc, s', p, q);
    } else {
      assert s'.disk == s.disk.(setup := 3);
      ChoosingPublishes(sc, s', p, q);
    }
    NextPublishes(sc, s);
  }

  lemma {:induction false} StartingPublishes(sc: Scenario, s: State, p: nat, q: nat)
    requires Inv(sc, s, p, q) && !Running(s.pc) && !Doomed(sc, s.disk)
    ensures Publishes(sc, s)
  {
    StartedKeeps(sc, s, p, q);
    var s1 := Started(s);
    var s2 := Quiet(sc, s1, p, q);
    assert s2.disk == s.disk;
    if s2.pc.Creating? {
      CreatingPublishes(sc, s2, p, q);
    } else {
      ChoosingPublishes(sc, s2, p, q);
    }
    NextPublishes(sc, s1);
    assert Step(sc, s, Start) == s1;
    OneAction(sc, s, Start);
  }

  /** Whatever kills and restarts follow, an unpublished story whose process is gone can
      be brought to its manifest exactly when its disk is not doomed. */
  lemma {:induction false} PublishesIff(sc: Scenario, s: State, p: nat, q: nat)
    requires Inv(sc, s, p, q) && !Running(s.pc) && s.disk.manifest.None?
    ensures Publishes(sc, s) <==> !Doomed(sc, s.disk)
  {
    if Doomed(sc, s.disk) {
      assert Blocked(sc, s);
      forall actions ensures !History(sc, s, actions).disk.manifest.Some? {
        BlockedForever(sc, s, p, q, actions);
      }
    } else {
      StartingPublishes(sc, s, p, q);
    }
  }

  // ---- kills that doom ----

  /** The kill tears a write whose request the locked fault was scripted for, between the count
      of the request and the note of the fault. */
  predicate TearsFault(sc: Scenario, s: State, commits: nat) {
    AboutToWrite(sc, s) && commits == 1 && s.disk.target.requests + 1 == FaultRequest(sc)
  }

  /** The kill tears the first write of all after the count of its request. */
  predicate TearsFirst(sc: Scenario, s: State, commits: nat) {
    AboutToWrite(sc, s) && commits >= 1 && s.disk.target.content.version == 0
  }

  lemma {:induction false} KilledIsDoomedIff(sc: Scenario, s: State, p: nat, q: nat, commits: nat)
    requires Inv(sc, s, p, q)
    ensures Doomed(sc, Killed(sc, s, commits).disk) <==>
            Doomed(sc, s.disk) || TearsFault(sc, s, commits) || TearsFirst(sc, s, commits)
  {
    var d, d' := s.disk, Killed(sc, s, commits).disk;
    assert d' == d.(target := d'.target) && d'.target.content == d.target.content;
    assert UpdateStranded(sc, d') <==> UpdateStranded(sc, d);
    assert HalfCreated(d') <==> HalfCreated(d);
    assert Unreadable(d') <==> Unreadable(d) || TearsFirst(sc, s, commits);
    assert FaultMissed(sc, d') <==> FaultMissed(sc, d) || TearsFault(sc, s, commits);
  }

  /** Exactly which kills are fatal, at any point of any unpublished story: those on a disk that
      is doomed already, and the two that tear a write at the wrong place. */
  lemma {:induction false} KillIsFatalIff(sc: Scenario, s: State, p: nat, q: nat, commits: nat)
    requires Inv(sc, s, p, q) && s.disk.manifest.None?
    ensures !Publishes(sc, Killed(sc, s, commits)) <==>
            Doomed(sc, s.disk) || TearsFault(sc, s, commits) || TearsFirst(sc, s, commits)
  {
    KilledIsDoomedIff(sc, s, p, q, commits);
    KilledKeeps(sc, s, p, q, commits);
    PublishesIff(sc, Killed(sc, s, commits), p, q);
  }

  /** A kill between a claim and its completion, inside the creation of the run, between the
      effect of an update and the end of its plan, between the count of the fault's request and
      its note, or inside the first write is fatal: no later history publishes. */
  lemma {:induction false} FatalKill(sc: Scenario, s: State, p: nat, q: nat, commits: nat)
    requires Inv(sc, s, p, q) && s.disk.manifest.None?
    requires || s.pc.Completing?
             || (s.pc.Creating? && 1 <= s.disk.setup <= 2)
             || (s.pc.Recording? && sc.repairs[s.pc.index].pre.MustHold?)
             || TearsFault(sc, s, commits)
             || TearsFirst(sc, s, commits)
    ensures !Publishes(sc, Killed(sc, s, commits))
  {
    if s.pc.Recording? {
      ReachedIsAmong(sc, p, q);
    }
    KillIsFatalIff(sc, s, p, q, commits);
  }

  /** Such a state is three steps away: the kill after the first command of a new run. */
  lemma {:induction false} FirstFatalKill(sc: Scenario)
    requires WellFormed(sc)
    ensures !Publishes(sc, History(sc, State(FRESH, Dead, false), [Start, Go, Go, Kill(0)]))
  {
    var s0 := State(FRESH, Dead, false);
    var s1 := State(FRESH, Setup, false);
    var s2 := State(FRESH, Creating, false);
    var s3 := State(FRESH.(setup := 1), Creating, false);
    assert Step(sc, s0, Start) == s1;
    assert Step(sc, s1, Go) == s2;
    assert Step(sc, s2, Go) == s3;
    assert Step(sc, s3, Kill(0)) == Killed(sc, s3, 0);
    assert Inv(sc, s3, 0, 0);
    FatalKill(sc, s3, 0, 0, 0);
    HistoryOfFour(sc, s0, Start, Go, Go, Kill(0));
  }

  lemma {:induction false} HistoryOfFour(sc: Scenario, s: State, a: Action, b: Action, c: Action, d: Action)
    ensures History(sc, s, [a, b, c, d]) == Step(sc, Step(sc, Step(sc, Step(sc, s, a), b), c), d)
  {
    var s1 := Step(sc, s, a);
    var s2 := Step(sc, s1, b);
    var s3 := Step(sc, s2, c);
    assert [a, b, c, d][1..] == [b, c, d];
    assert [b, c, d][1..] == [c, d];
    assert [c, d][1..] == [d];
    assert [d][1..] == [];
    assert History(sc, s3, [d]) == Step(sc, s3, d);
    assert History(sc, s2, [c, d]) == Step(sc, s3, d);
    assert History(sc, s1, [b, c, d]) == Step(sc, s3, d);
  }

  // ---- the same, over whole histories of a new story ----

  /** After any history, the next process left alone completes exactly when the disk allows it,
      and some continuation publishes exactly when the disk is not doomed. */
  lemma {:induction false} EveryHistoryDecides(sc: Scenario, actions: seq<Action>)
    requires WellFormed(sc)
    ensures var s := History(sc, State(FRESH, Dead, false), actions);
            && (Completes(sc, Started(s)) <==> CanComplete(sc, s.disk))
            && (!Running(s.pc) && s.disk.manifest.None? ==> (Publishes(sc, s) <==> !Doomed(sc, s.disk)))
  {
    var s := History(sc, State(FRESH, Dead, false), actions);
    var p, q := HistoryKeeps(sc, State(FRESH, Dead, false), 0, 0, actions);
    CompletesIff(sc, s, p, q);
    if !Running(s.pc) && s.disk.manifest.None? { PublishesIff(sc, s, p, q); }
  }

  /** After any history that published, whatever follows leaves manifest and target as they are;
      a later run that publishes again publishes the same value. */
  lemma {:induction false} EveryManifestStays(sc: Scenario, before: seq<Action>, after: seq<Action>)
    requires WellFormed(sc) && History(sc, State(FRESH, Dead, false), before).disk.manifest.Some?
    ensures var s := History(sc, State(FRESH, Dead, false), before);
            var s' := History(sc, s, after);
            && s'.disk.manifest == s.disk.manifest == Some(FinalManifest(sc))
            && s'.disk.target.content == s.disk.target.content
  {
    var p, q := HistoryKeeps(sc, State(FRESH, Dead, false), 0, 0, before);
    EveryManifestIsFinal(sc, before);
    ManifestStays(sc, History(sc, State(FRESH, Dead, false), before), p, q, after);
  }
}
