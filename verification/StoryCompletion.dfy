/**
 When does the story complete? A process left alone from its start publishes its
 manifest exactly when the disk it starts on satisfies `CanComplete`. The proof goes
 from the end of the story backwards, one part at a time.
 */
module StoryCompletion {
  import opened Warehouse
  import opened StoryTarget
  import opened Story

  // ---- repeating a step ----

  type Stepper = State -> State

  /** `n` steps without interruption. */
  function Repeat(step: Stepper, s: State, n: nat): State
    decreases n
  {
    if n == 0 then s else Repeat(step, step(s), n - 1)
  }

  /** What one step keeps, many keep. */
  lemma {:induction false} RepeatKeeps(step: Stepper, s: State, n: nat, keeps: State -> bool)
    requires keeps(s) && forall x :: keeps(x) ==> keeps(step(x))
    ensures keeps(Repeat(step, s, n))
    decreases n
  {
    if n > 0 { RepeatKeeps(step, step(s), n - 1, keeps); }
  }

  /** What goes back one step goes back many. */
  lemma {:induction false} RepeatBack(step: Stepper, s: State, n: nat, leads: State -> bool)
    requires leads(Repeat(step, s, n)) && forall x :: leads(step(x)) ==> leads(x)
    ensures leads(s)
    decreases n
  {
    if n > 0 { RepeatBack(step, step(s), n - 1, leads); }
  }

  lemma {:induction false} RepeatStands(step: Stepper, s: State, n: nat)
    requires step(s) == s
    ensures Repeat(step, s, n) == s
    decreases n
  {
    if n > 0 { RepeatStands(step, s, n - 1); }
  }

  // ---- completion ----

  ghost function Process(sc: Scenario): Stepper { s => Next(sc, s) }

  ghost predicate ReachesDone(step: Stepper, s: State) {
    exists n: nat :: Repeat(step, s, n).pc.Done?
  }

  /** Left alone, the process gets to its end. */
  ghost predicate Completes(sc: Scenario, s: State) { ReachesDone(Process(sc), s) }

  lemma {:induction false} ReachesDoneStep(step: Stepper, s: State)
    requires s.pc.Done? ==> step(s) == s
    ensures ReachesDone(step, s) <==> ReachesDone(step, step(s))
  {
    if ReachesDone(step, s) {
      var n: nat :| Repeat(step, s, n).pc.Done?;
      assert Repeat(step, step(s), if n == 0 then 0 else n - 1).pc.Done?;
    }
    if ReachesDone(step, step(s)) {
      var n: nat :| Repeat(step, step(s), n).pc.Done?;
      assert Repeat(step, s, n + 1).pc.Done?;
    }
  }

  /** One step decides nothing: completing is completing from the next state. */
  lemma {:induction false} OneStep(sc: Scenario, s: State)
    ensures Completes(sc, s) <==> Completes(sc, Next(sc, s))
  {
    assert Process(sc)(s) == Next(sc, s);
    ReachesDoneStep(Process(sc), s);
  }

  lemma {:induction false} Ends(sc: Scenario, s: State)
    requires !Running(s.pc)
    ensures Completes(sc, s) <==> s.pc.Done?
  {
    forall n: nat ensures Repeat(Process(sc), s, n) == s { RepeatStands(Process(sc), s, n); }
    assert Repeat(Process(sc), s, 0) == s;
  }

  /** A step that is no write keeps the invariant with the same counts. */
  lemma {:induction false} Quiet(sc: Scenario, s: State, p: nat, q: nat) returns (s': State)
    requires Inv(sc, s, p, q) && !Writes(s.pc)
    ensures s' == Next(sc, s) && Inv(sc, s', p, q) && s'.disk.target == s.disk.target
    ensures Completes(sc, s) <==> Completes(sc, s')
  {
    s' := Next(sc, s);
    QuietKeeps(sc, s, p, q);
    OneStep(sc, s);
  }

  // ---- from the end of the story backwards ----

  /** The locked fault was noted, or its request is still to come. */
  predicate FaultAhead(sc: Scenario, t: Target) {
    t.faults == [FaultRequest(sc)] || t.requests < FaultRequest(sc)
  }

  lemma {:induction false} FromCheckingFaults(sc: Scenario, s: State, p: nat, q: nat)
    requires Inv(sc, s, p, q) && s.pc.CheckingFaults?
    ensures Completes(sc, s) <==> s.disk.target.faults == [FaultRequest(sc)]
  {
    var s1 := Quiet(sc, s, p, q);
    if s1.pc.Publishing? {
      var s2 := Quiet(sc, s1, p, q);
      Ends(sc, s2);
    } else {
      Ends(sc, s1);
    }
  }

  lemma {:induction false} FromVerified(sc: Scenario, s: State, p: nat, q: nat)
    requires Inv(sc, s, p, q) && s.pc.RecordingVerification?
    ensures Completes(sc, s) <==> s.disk.target.faults == [FaultRequest(sc)]
  {
    var s1 := Quiet(sc, s, p, q);
    assert s1.pc.Reapplying?;
    var s2 := Quiet(sc, s1, p, q);
    FromCheckingFaults(sc, s2, p, q);
  }

  lemma {:induction false} FromClosing(sc: Scenario, s: State, p: nat, q: nat)
    requires Inv(sc, s, p, q) && s.pc == Boundary(RepairApplied)
    ensures Completes(sc, s) <==> FaultAhead(sc, s.disk.target)
  {
    assert p == |sc.load| && q == |sc.repairs|;
    ParityAtTheEnd(sc);
    var s1 := Quiet(sc, s, p, q);
    assert s1.pc.Verifying?;
    var s2 := Quiet(sc, s1, p, q);
    FromVerified(sc, s2, p, q);
  }

  lemma {:induction false} FromReplaying(sc: Scenario, s: State, p: nat, q: nat)
    requires Inv(sc, s, p, q) && s.pc.Replaying? && s.pc.index <= |sc.repairs|
    ensures Completes(sc, s) <==> FaultAhead(sc, s.disk.target)
    decreases |sc.repairs| - s.pc.index
  {
    var i := s.pc.index;
    var s' := NextReplaying(sc, s, i, s.pc.ambiguous);
    assert Next(sc, s) == s';
    OneStep(sc, s);
    ReplayingKeeps(sc, s, p, q);
    if i < |sc.repairs| {
      assert p == |sc.load| && q == |sc.repairs|;
      var t', r := SendRepair(sc, s.disk.target, q, i);
      assert s'.pc == Replaying(i + 1, 0) && s'.disk.target == t';
      FromReplaying(sc, s', p, q);
    } else {
      FromClosing(sc, s', p, q);
    }
  }

  lemma {:induction false} FromCompletingPlan(sc: Scenario, s: State, p: nat, q: nat)
    requires Inv(sc, s, p, q) && s.pc.CompletingPlan?
    ensures Completes(sc, s) <==> FaultAhead(sc, s.disk.target)
  {
    var s1 := Quiet(sc, s, p, q);
    FromClosing(sc, s1, p, q);
  }

  /** A reply of the plan is hidden at most once, by the locked fault. */
  predicate HiddenOnce(sc: Scenario, s: State)
    requires s.pc.Acting?
  {
    s.pc.ambiguous == 0 || (s.pc.ambiguous == 1 && s.disk.target.requests >= FaultRequest(sc))
  }

  /** The database is untouched; only the target may have changed. */
  predicate SameDatabase(d: Disk, d': Disk) {
    && d'.setup == d.setup && d'.claimed == d.claimed && d'.attempts == d.attempts && d'.finalized == d.finalized
    && d'.artifact == d.artifact && d'.reconciled == d.reconciled && d'.plan == d.plan && d'.approvals == d.approvals
    && d'.applied == d.applied && d'.verified == d.verified && d'.manifest == d.manifest
  }

  lemma {:induction false} ActionActs(sc: Scenario, s: State, p: nat, q: nat)
    requires WellFormed(sc) && TargetInv(sc, s.disk.target, p, q) && p == |sc.load|
    requires s.pc.Acting? && s.disk.applied <= s.pc.index < |sc.repairs| && s.pc.index <= q && HiddenOnce(sc, s)
    ensures var s' := NextActing(sc, s, s.pc.index, s.pc.ambiguous);
            && SameDatabase(s.disk, s'.disk)
            && s'.disk.target.requests == s.disk.target.requests + 1
            && s'.disk.target.faults == (if s'.disk.target.requests == FaultRequest(sc) then [FaultRequest(sc)]
                else s.disk.target.faults)
            && s'.pc == if s'.disk.target.requests == FaultRequest(sc) then Acting(s.pc.index, 1)
                else Recording(s.pc.index)
  {
    var w := sc.repairs[s.pc.index];
    var t', r := SendRepair(sc, s.disk.target, q, s.pc.index);
    var sent := Sent(sc, s, w);
    assert sent.disk.target == t' && Answer(sc, s, w) == r && SameDatabase(s.disk, sent.disk);
    ReplyDecides(sent, s.pc.index, s.pc.ambiguous, r);
  }

  lemma ReplyDecides(s: State, i: nat, ambiguous: nat, r: Response)
    requires IsAnswered(r) || (r.Ambiguous? && ambiguous == 0)
    ensures Reacted(s, i, ambiguous, r) == At(s, if IsAnswered(r) then Recording(i) else Acting(i, 1))
  {
  }

  /** One write of the plan: the hidden reply is sent again, any other one is recorded. */
  lemma {:induction false} ActionStep(sc: Scenario, s: State, p: nat, q: nat) returns (s': State, q': nat)
    requires Inv(sc, s, p, q) && s.pc.Acting? && s.disk.applied <= s.pc.index < |sc.repairs| && HiddenOnce(sc, s)
    ensures s' == Next(sc, s) && Inv(sc, s', p, q') && q' == (if q == s.pc.index then q + 1 else q)
    ensures SameDatabase(s.disk, s'.disk)
    ensures s'.disk.target.requests == s.disk.target.requests + 1
    ensures s'.disk.target.faults == if s'.disk.target.requests == FaultRequest(sc) then [FaultRequest(sc)]
        else s.disk.target.faults
    ensures s'.pc == if s'.disk.target.requests == FaultRequest(sc) then Acting(s.pc.index, 1)
        else Recording(s.pc.index)
  {
    s' := NextActing(sc, s, s.pc.index, s.pc.ambiguous);
    ActionActs(sc, s, p, q);
    q' := ActingKeeps(sc, s, p, q);
    assert Next(sc, s) == NextWriting(sc, s) == s';
  }

  lemma {:induction false} SkipStep(sc: Scenario, s: State, p: nat, q: nat) returns (s': State)
    requires Inv(sc, s, p, q) && s.pc.Acting? && !(s.disk.applied <= s.pc.index < |sc.repairs|)
    ensures s' == At(s, if s.pc.index < |sc.repairs| then Acting(s.pc.index + 1, 0) else CompletingPlan)
    ensures Next(sc, s) == s' && Inv(sc, s', p, q)
  {
    s' := NextActing(sc, s, s.pc.index, s.pc.ambiguous);
    assert Next(sc, s) == s';
  }

  lemma {:induction false} RecordStep(sc: Scenario, s: State, p: nat, q: nat) returns (s': State)
    requires Inv(sc, s, p, q) && s.pc.Recording?
    ensures s'.pc == Acting(s.pc.index + 1, 0) && s'.disk.target == s.disk.target && Inv(sc, s', p, q)
    ensures Completes(sc, s) <==> Completes(sc, s')
  {
    s' := Quiet(sc, s, p, q);
  }

  lemma {:induction false} FromActing(sc: Scenario, s: State, p: nat, q: nat)
    requires Inv(sc, s, p, q) && s.pc.Acting? && HiddenOnce(sc, s)
    ensures Completes(sc, s) <==> FaultAhead(sc, s.disk.target)
    decreases |sc.repairs| - s.pc.index, 1 - s.pc.ambiguous
  {
    OneStep(sc, s);
    if s.disk.applied <= s.pc.index < |sc.repairs| {
      var s', q' := ActionStep(sc, s, p, q);
      if s'.pc.Recording? {
        s' := RecordStep(sc, s', p, q');
      }
      FromActing(sc, s', p, q');
    } else {
      var s' := SkipStep(sc, s, p, q);
      if s'.pc.Acting? {
        FromActing(sc, s', p, q);
      } else {
        FromCompletingPlan(sc, s', p, q);
      }
    }
  }

  lemma {:induction false} FromBeginning(sc: Scenario, s: State, p: nat, q: nat)
    requires Inv(sc, s, p, q) && s.pc == Boundary(RepairApproved)
    ensures Completes(sc, s) <==> FaultAhead(sc, s.disk.target)
  {
    var s1 := Quiet(sc, s, p, q);
    assert s1.pc == Beginning;
    var s2 := Quiet(sc, s1, p, q);
    if s2.pc.Acting? {
      FromActing(sc, s2, p, q);
    } else if s2.pc.Replaying? {
      FromReplaying(sc, s2, p, q);
    } else {
      FromClosing(sc, s2, p, q);
    }
  }

  lemma {:induction false} FromApproving(sc: Scenario, s: State, p: nat, q: nat)
    requires Inv(sc, s, p, q) && s.pc == Boundary(ReconciliationPersisted)
    ensures Completes(sc, s) <==> FaultAhead(sc, s.disk.target)
  {
    var s1 := Quiet(sc, s, p, q);
    assert s1.pc == Probing;
    var s2 := Quiet(sc, s1, p, q);
    assert s2.pc == Approving;
    var s3 := Quiet(sc, s2, p, q);
    FromBeginning(sc, s3, p, q);
  }

  lemma {:induction false} FromReconciling(sc: Scenario, s: State, p: nat, q: nat)
    requires Inv(sc, s, p, q) && s.pc.Reconciling?
    ensures Completes(sc, s) <==> FaultAhead(sc, s.disk.target)
  {
    var s1 := Quiet(sc, s, p, q);
    assert s1.pc == Planning;
    var s2 := Quiet(sc, s1, p, q);
    FromApproving(sc, s2, p, q);
  }

  lemma {:induction false} FromFinalizing(sc: Scenario, s: State, p: nat, q: nat)
    requires Inv(sc, s, p, q) && s.pc == Boundary(AttemptsRecorded)
    ensures Completes(sc, s) <==> FaultAhead(sc, s.disk.target)
  {
    var s1 := Quiet(sc, s, p, q);
    assert s1.pc == Finalizing;
    var s2 := Quiet(sc, s1, p, q);
    assert s2.pc == PublishingArtifact;
    var s3 := Quiet(sc, s2, p, q);
    FromReconciling(sc, s3, p, q);
  }

  lemma {:induction false} CompletingStep(sc: Scenario, s: State, p: nat, q: nat) returns (s': State)
    requires Inv(sc, s, p, q) && s.pc.Completing?
    ensures Inv(sc, s', p, q) && s'.disk.target == s.disk.target && !s'.disk.claimed
    ensures s'.pc == Attempting(s.pc.attempt + 1)
    ensures Completes(sc, s) <==> Completes(sc, s')
  {
    s' := Quiet(sc, s, p, q);
  }

  lemma {:induction false} AttemptMoves(s: State, n: nat)
    requires s.disk.attempts == [] || s.disk.attempts == [1] || s.disk.attempts == [1, 2]
    requires 1 <= n <= ATTEMPTS && n <= |s.disk.attempts| + 1
    ensures NextAttempting(s, n) ==
            if n <= |s.disk.attempts| then At(s, Attempting(n + 1))
            else if s.disk.claimed then At(s, Failed)
            else At(s.(disk := s.disk.(claimed := true)), Completing(n))
  {
    if n <= |s.disk.attempts| { assert s.disk.attempts[n - 1] == n; }
  }

  /** One attempt: skipped when recorded, refused while claimed, otherwise claimed and completed. */
  lemma {:induction false} AttemptStep(sc: Scenario, s: State, p: nat, q: nat) returns (s': State)
    requires Inv(sc, s, p, q) && s.pc.Attempting? && s.pc.attempt <= ATTEMPTS
    ensures Inv(sc, s', p, q) && s'.disk.target == s.disk.target && s'.disk.claimed == s.disk.claimed
    ensures s'.pc == Attempting(s.pc.attempt + 1) || (s'.pc.Failed? && s.disk.claimed)
    ensures Completes(sc, s) <==> Completes(sc, s')
  {
    s' := Quiet(sc, s, p, q);
    assert s' == NextAttempting(s, s.pc.attempt) by { assert Next(sc, s) == NextOpening(sc, s); }
    AttemptMoves(s, s.pc.attempt);
    if s'.pc.Completing? {
      s' := CompletingStep(sc, s', p, q);
    }
  }

  lemma {:induction false} FromAttempting(sc: Scenario, s: State, p: nat, q: nat)
    requires Inv(sc, s, p, q) && s.pc.Attempting?
    ensures Completes(sc, s) <==> !s.disk.claimed && FaultAhead(sc, s.disk.target)
    decreases ATTEMPTS + 1 - s.pc.attempt
  {
    if s.pc.attempt > ATTEMPTS {
      var s' := Quiet(sc, s, p, q);
      FromFinalizing(sc, s', p, q);
    } else {
      var s' := AttemptStep(sc, s, p, q);
      if s'.pc.Failed? {
        Ends(sc, s');
      } else {
        FromAttempting(sc, s', p, q);
      }
    }
  }

  // ---- loading the baseline ----

  /** No repair that changes a baseline record has reached the target. */
  predicate NoUpdateReached(sc: Scenario, c: Content) {
    forall i :: 0 <= i < |sc.repairs| && sc.repairs[i].pre.MustHold? ==> RepairKey(i) !in c.receipts
  }

  lemma {:induction false} ReachedIsAmong(sc: Scenario, p: nat, q: nat)
    requires WellFormed(sc) && Reached(sc, p, q)
    ensures NoUpdateReached(sc, ContentAt(sc, p, q)) <==> NoUpdateAmong(sc, q)
  {
    ContentShape(sc, p, q);
    var c := ContentAt(sc, p, q);
    if NoUpdateReached(sc, c) {
      forall j | 0 <= j < q ensures !sc.repairs[j].pre.MustHold? {
        assert RepairKey(j) in c.receipts;
      }
    }
  }

  lemma {:induction false} ObservedIffUnreached(sc: Scenario, t: Target, q: nat)
    requires WellFormed(sc) && TargetInv(sc, t, |sc.load|, q)
    ensures BaselineObserved(sc, t.content) <==> NoUpdateReached(sc, t.content)
  {
    ContentShape(sc, |sc.load|, q);
    ObservedIff(sc, q, t.content);
    ReachedIsAmong(sc, |sc.load|, q);
  }

  lemma {:induction false} FromObserving(sc: Scenario, s: State, p: nat, q: nat)
    requires Inv(sc, s, p, q) && s.pc.Observing?
    ensures Completes(sc, s) <==>
            NoUpdateReached(sc, s.disk.target.content) && !s.disk.claimed && FaultAhead(sc, s.disk.target)
  {
    ObservedIffUnreached(sc, s.disk.target, q);
    var s1 := Quiet(sc, s, p, q);
    if s1.pc.Failed? {
      Ends(sc, s1);
    } else {
      FromAttempting(sc, s1, p, q);
    }
  }

  /** The baseline can be written without running into the locked fault. */
  predicate LoadClears(sc: Scenario, t: Target, writes: nat) {
    t.faults == [FaultRequest(sc)] || t.requests + writes < FaultRequest(sc)
  }

  lemma {:induction false} LoadStep(sc: Scenario, s: State, p: nat, q: nat) returns (s': State, p': nat)
    requires Inv(sc, s, p, q) && s.pc.Loading? && s.pc.index < |sc.load|
    ensures s' == NextLoading(sc, s, s.pc.index) == Next(sc, s) && Inv(sc, s', p', q) && p' >= 1
    ensures s'.disk == s.disk.(target := s'.disk.target)
    ensures s'.disk.target.requests == s.disk.target.requests + 1
    ensures s'.disk.target.requests == FaultRequest(sc) ==> s'.disk.target.faults == [FaultRequest(sc)]
    ensures s'.disk.target.requests != FaultRequest(sc) ==> s'.disk.target.faults == s.disk.target.faults
    ensures s'.pc == if s'.disk.target.requests == FaultRequest(sc) then Failed else Loading(s.pc.index + 1)
  {
    s' := NextLoading(sc, s, s.pc.index);
    p' := LoadingKeeps(sc, s, p, q);
    var t', r := SendLoad(sc, s.disk.target, p, q, s.pc.index);
  }

  lemma {:induction false} FromLoading(sc: Scenario, s: State, p: nat, q: nat)
    requires Inv(sc, s, p, q) && s.pc.Loading?
    ensures Completes(sc, s) <==>
            NoUpdateAmong(sc, q) && !s.disk.claimed && LoadClears(sc, s.disk.target, |sc.load| - s.pc.index)
    decreases |sc.load| - s.pc.index
  {
    OneStep(sc, s);
    if s.pc.index < |sc.load| {
      var s', p' := LoadStep(sc, s, p, q);
      if s'.pc.Failed? {
        Ends(sc, s');
      } else {
        FromLoading(sc, s', p', q);
      }
    } else {
      var s' := At(s, Observing);
      assert Next(sc, s) == s';
      ReachedIsAmong(sc, p, q);
      FromObserving(sc, s', p, q);
    }
  }

  // ---- the start ----

  predicate NeedsLoad(sc: Scenario, d: Disk) {
    d.plan != Applied && !HasInitialTarget(sc, d.target.content)
  }

  predicate InputsReady(sc: Scenario, d: Disk) {
    && !d.claimed
    && (NeedsLoad(sc, d) ==> NoUpdateReached(sc, d.target.content))
    && LoadClears(sc, d.target, if NeedsLoad(sc, d) then |sc.load| else 0)
  }

  lemma {:induction false} FromChoosing(sc: Scenario, s: State, p: nat, q: nat)
    requires Inv(sc, s, p, q) && s.pc.Choosing?
    ensures Completes(sc, s) <==> InputsReady(sc, s.disk)
  {
    var s1 := Quiet(sc, s, p, q);
    assert s1.disk == s.disk;
    if NeedsLoad(sc, s.disk) {
      ReachedIsAmong(sc, p, q);
      FromLoading(sc, s1, p, q);
    } else {
      FromAttempting(sc, s1, p, q);
    }
  }

  lemma {:induction false} FromCreating(sc: Scenario, s: State, p: nat, q: nat)
    requires Inv(sc, s, p, q) && s.pc.Creating?
    ensures Completes(sc, s) <==> InputsReady(sc, s.disk)
    decreases 3 - s.disk.setup
  {
    var s1 := Quiet(sc, s, p, q);
    if s.disk.setup < 3 {
      FromCreating(sc, s1, p, q);
    } else {
      FromChoosing(sc, s1, p, q);
    }
  }

  lemma {:induction false} FromSetup(sc: Scenario, s: State, p: nat, q: nat)
    requires Inv(sc, s, p, q) && s.pc.Setup?
    ensures Completes(sc, s) <==> (s.disk.setup == 0 || s.disk.setup == 3) && InputsReady(sc, s.disk)
  {
    var s1 := Quiet(sc, s, p, q);
    if s1.pc.Creating? {
      FromCreating(sc, s1, p, q);
    } else if s1.pc.Choosing? {
      FromChoosing(sc, s1, p, q);
    } else {
      Ends(sc, s1);
    }
  }

  /** What must be on disk for one uninterrupted process to finish the story. */
  predicate CanComplete(sc: Scenario, d: Disk) {
    && (d.target.requests == 0 || d.target.content.version >= 1)
    && (d.setup == 0 || d.setup == 3)
    && InputsReady(sc, d)
  }

  lemma {:induction false} StartedKeeps(sc: Scenario, s: State, p: nat, q: nat)
    requires Inv(sc, s, p, q)
    ensures Inv(sc, Started(s), p, q) && Started(s).disk == s.disk
    ensures Started(s).pc.Setup? <==> s.disk.target.requests == 0 || s.disk.target.content.version >= 1
    ensures Started(s).pc.Setup? || Started(s).pc.Failed?
  {
    ContentShape(sc, p, q);
    ReopensIffEffective(s.disk.target);
  }

  /** A restarted story, left alone, completes exactly when its disk allows it. */
  lemma {:induction false} CompletesIff(sc: Scenario, s: State, p: nat, q: nat)
    requires Inv(sc, s, p, q)
    ensures Completes(sc, Started(s)) <==> CanComplete(sc, s.disk)
  {
    StartedKeeps(sc, s, p, q);
    if Started(s).pc.Setup? {
      FromSetup(sc, Started(s), p, q);
    } else {
      Ends(sc, Started(s));
    }
  }
}
