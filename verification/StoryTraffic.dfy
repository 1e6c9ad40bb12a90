/**
 Which writes a restarted story sends. A process that gets to its end sends exactly the writes
 that its disk calls for: nothing after a published manifest, the whole plan again after an
 application that was interrupted before its manifest, and otherwise the baseline if it is
 missing and the rest of the plan, with the one hidden write repeated in place.
 */
module StoryTraffic {
  import opened Wrappers
  import opened Warehouse
  import opened StoryTarget
  import opened Story
  import opened StoryCompletion
  import opened StoryRecovery

  // ---- what a step sends ----

  /** The write that the next step of the process sends, if it sends one. */
  function Outgoing(sc: Scenario, s: State): Option<Write> {
    match s.pc
    case Loading(i) => if i < |sc.load| then Some(sc.load[i]) else None
    case Acting(i, _) => if s.disk.applied <= i < |sc.repairs| then Some(sc.repairs[i]) else None
    case Replaying(i, _) => if i < |sc.repairs| then Some(sc.repairs[i]) else None
    case _ => None
  }

  /** The target after a step is that of the write it sends, and unchanged if it sends none. */
  predicate Sends(sc: Scenario, s: State, s': State) {
    s'.disk.target ==
    if Outgoing(sc, s).Some? then Upsert(ScriptOf(sc), s.disk.target, Outgoing(sc, s).value).0 else s.disk.target
  }

  lemma {:induction false} StepSends(sc: Scenario, s: State, p: nat, q: nat)
    requires Inv(sc, s, p, q)
    ensures Sends(sc, s, Next(sc, s))
  {
    if !Writes(s.pc) {
      QuietKeeps(sc, s, p, q);
    } else if s.pc.Acting? {
      ActingSendsIt(sc, s);
    } else if s.pc.Replaying? {
      ReplayingSendsIt(sc, s);
    } else {
      assert Next(sc, s) == NextLoading(sc, s, s.pc.index);
    }
  }

  lemma {:induction false} ActingSendsIt(sc: Scenario, s: State)
    requires s.pc.Acting?
    ensures Sends(sc, s, Next(sc, s))
  {
    assert Next(sc, s) == NextActing(sc, s, s.pc.index, s.pc.ambiguous);
  }

  lemma {:induction false} ReplayingSendsIt(sc: Scenario, s: State)
    requires s.pc.Replaying?
    ensures Sends(sc, s, Next(sc, s))
  {
    assert Next(sc, s) == NextReplaying(sc, s, s.pc.index, s.pc.ambiguous);
  }

  /** A kill cuts exactly what the next step would have sent: before its first commit, behind the
      count of the request, or behind the note of the fault; otherwise it leaves the disk alone. */
  lemma {:induction false} KillCutsOutgoing(sc: Scenario, s: State, commits: nat)
    ensures var d, d' := s.disk, Killed(sc, s, commits).disk;
            var request := d.target.requests + 1;
            && d' == d.(target := d'.target) && d'.target.content == d.target.content
            && (if Outgoing(sc, s).None? || commits == 0 then d'.target == d.target
                else
                  && d'.target.requests == request
                  && d'.target.faults ==
                     (if commits >= 2 && request == FaultRequest(sc) then d.target.faults + [request]
                      else d.target.faults))
  {
  }

  type Output = State -> Option<Write>

  function Cons(first: Option<Write>, rest: seq<Write>): seq<Write> {
    if first.Some? then [first.value] + rest else rest
  }

  /** The writes of `n` steps, in order. */
  function Traffic(step: Stepper, output: Output, s: State, n: nat): seq<Write>
    decreases n
  {
    if n == 0 then [] else Cons(output(s), Traffic(step, output, step(s), n - 1))
  }

  ghost function Sender(sc: Scenario): Output { s => Outgoing(sc, s) }

  // ---- what is still to be sent ----

  /** The repairs from `start` on, after `requests` requests: the one whose request number is
      the locked fault's is sent twice. */
  function PlanFrom(sc: Scenario, requests: nat, faults: seq<nat>, start: nat): seq<Write> {
    var hit := start + FaultRequest(sc) - requests - 1;
    if start > |sc.repairs| then []
    else if faults == [] && start <= hit < |sc.repairs| then sc.repairs[start..hit + 1] + sc.repairs[hit..]
    else sc.repairs[start..]
  }

  /** What is sent from the planning on. */
  function FromPlanning(sc: Scenario, d: Disk, completedBefore: bool, requests: nat): seq<Write> {
    if d.plan != Applied then PlanFrom(sc, requests, d.target.faults, d.applied)
    else if completedBefore then [] else sc.repairs
  }

  function FromLoad(sc: Scenario, s: State, start: nat): seq<Write>
    requires start <= |sc.load|
  {
    sc.load[start..] + FromPlanning(sc, s.disk, s.completedBefore, s.disk.target.requests + |sc.load| - start)
  }

  predicate Starts(pc: Pc) { pc.Setup? || pc.Creating? || pc.Choosing? }

  predicate Prepares(pc: Pc) {
    || pc.Observing? || pc.Attempting? || pc.Completing? || (pc.Boundary? && !pc.name.RepairApplied?)
    || pc.Finalizing? || pc.PublishingArtifact? || pc.Reconciling? || pc.Planning? || pc.Probing?
    || pc.Approving? || pc.Beginning?
  }

  function Remaining(sc: Scenario, s: State): seq<Write> {
    if Starts(s.pc) then
      if NeedsLoad(sc, s.disk) then FromLoad(sc, s, 0)
      else FromPlanning(sc, s.disk, s.completedBefore, s.disk.target.requests)
    else if s.pc.Loading? && s.pc.index <= |sc.load| then FromLoad(sc, s, s.pc.index)
    else if Prepares(s.pc) then FromPlanning(sc, s.disk, s.completedBefore, s.disk.target.requests)
    else if s.pc.Acting? then PlanFrom(sc, s.disk.target.requests, s.disk.target.faults, s.disk.applied)
    else if s.pc.Recording? then PlanFrom(sc, s.disk.target.requests, s.disk.target.faults, s.pc.index + 1)
    else if s.pc.Replaying? && s.pc.index <= |sc.repairs| then sc.repairs[s.pc.index..]
    else []
  }

  // ---- every step sends the first of it ----

  /** The step takes the first of the remaining writes. */
  predicate Takes(sc: Scenario, s: State, s': State) {
    Remaining(sc, s) == Cons(Outgoing(sc, s), Remaining(sc, s'))
  }

  /** A load that was answered. */
  predicate Loaded(s: State, s': State) {
    && s.pc.Loading? && s'.pc == Loading(s.pc.index + 1) && s'.completedBefore == s.completedBefore
    && s'.disk.plan == s.disk.plan && s'.disk.applied == s.disk.applied
    && s'.disk.target.requests == s.disk.target.requests + 1 && s'.disk.target.faults == s.disk.target.faults
  }

  lemma {:induction false} LoadedTakes(sc: Scenario, s: State, s': State)
    requires Loaded(s, s') && s.pc.index < |sc.load|
    ensures Takes(sc, s, s')
  {
    var i := s.pc.index;
    var rest := FromPlanning(sc, s.disk, s.completedBefore, s.disk.target.requests + |sc.load| - i);
    assert rest == FromPlanning(sc, s'.disk, s'.completedBefore, s'.disk.target.requests + |sc.load| - (i + 1));
    assert sc.load[i..] == [sc.load[i]] + sc.load[i + 1..];
    assert sc.load[i..] + rest == [sc.load[i]] + (sc.load[i + 1..] + rest);
  }

  lemma {:induction false} LoadEnds(sc: Scenario, s: State)
    requires s.pc == Loading(|sc.load|)
    ensures Takes(sc, s, At(s, Observing))
  {
    var rest := FromPlanning(sc, s.disk, s.completedBefore, s.disk.target.requests);
    assert sc.load[|sc.load|..] == [];
    assert sc.load[|sc.load|..] + rest == rest;
  }

  lemma {:induction false} LoadingTakes(sc: Scenario, s: State, p: nat, q: nat)
    requires Inv(sc, s, p, q) && s.pc.Loading? && !Next(sc, s).pc.Failed?
    ensures Takes(sc, s, Next(sc, s))
  {
    if s.pc.index < |sc.load| {
      var s', p' := LoadStep(sc, s, p, q);
      LoadedTakes(sc, s, s');
    } else {
      assert Next(sc, s) == At(s, Observing);
      LoadEnds(sc, s);
    }
  }

  lemma {:induction false} PlanTakes(sc: Scenario, requests: nat, faults: seq<nat>, start: nat)
    requires start < |sc.repairs| && (faults == [] || requests >= FaultRequest(sc))
    ensures var hits := requests + 1 == FaultRequest(sc);
            PlanFrom(sc, requests, faults, start) == [sc.repairs[start]] +
            if hits then PlanFrom(sc, requests + 1, [FaultRequest(sc)], start)
            else PlanFrom(sc, requests + 1, faults, start + 1)
  {
    var hit := start + FaultRequest(sc) - requests - 1;
    assert sc.repairs[start..] == [sc.repairs[start]] + sc.repairs[start + 1..];
    if faults == [] && start < hit < |sc.repairs| {
      assert sc.repairs[start..hit + 1] == [sc.repairs[start]] + sc.repairs[start + 1..hit + 1];
    } else if faults == [] && start == hit {
      assert sc.repairs[start..hit + 1] == [sc.repairs[start]];
    }
  }

  /** A repair was sent: its reply was hidden, or it was answered. */
  predicate Acted(sc: Scenario, s: State, s': State) {
    && s.pc.Acting? && s'.disk.applied == s.disk.applied
    && s'.disk.target.requests == s.disk.target.requests + 1
    && (if s'.disk.target.requests == FaultRequest(sc) then s'.pc.Acting? && s'.disk.target.faults == [FaultRequest(sc)]
        else s'.pc == Recording(s.pc.index) && s'.disk.target.faults == s.disk.target.faults)
  }

  lemma {:induction false} ActedTakes(sc: Scenario, s: State, s': State)
    requires Acted(sc, s, s') && s.disk.applied == s.pc.index < |sc.repairs|
    requires s.disk.target.faults == [] || s.disk.target.requests >= FaultRequest(sc)
    ensures Takes(sc, s, s')
  {
    PlanTakes(sc, s.disk.target.requests, s.disk.target.faults, s.pc.index);
  }

  lemma {:induction false} ReactionActs(sc: Scenario, s: State, sent: State, r: Response)
    requires s.pc.Acting? && sent.disk.applied == s.disk.applied
    requires sent.disk.target.requests == s.disk.target.requests + 1
    requires if sent.disk.target.requests == FaultRequest(sc)
             then r.Ambiguous? && sent.disk.target.faults == [FaultRequest(sc)]
             else IsAnswered(r) && sent.disk.target.faults == s.disk.target.faults
    requires !Reacted(sent, s.pc.index, s.pc.ambiguous, r).pc.Failed?
    ensures Acted(sc, s, Reacted(sent, s.pc.index, s.pc.ambiguous, r))
  {
  }

  lemma {:induction false} ActingActs(sc: Scenario, s: State, p: nat, q: nat)
    requires WellFormed(sc) && TargetInv(sc, s.disk.target, p, q) && p == |sc.load|
    requires s.pc.Acting? && s.disk.applied <= s.pc.index < |sc.repairs| && s.pc.index <= q
    requires !NextActing(sc, s, s.pc.index, s.pc.ambiguous).pc.Failed?
    ensures Acted(sc, s, NextActing(sc, s, s.pc.index, s.pc.ambiguous))
  {
    var w := sc.repairs[s.pc.index];
    var t', r := SendRepair(sc, s.disk.target, q, s.pc.index);
    assert Sent(sc, s, w).disk.target == t' && Answer(sc, s, w) == r;
    ReactionActs(sc, s, Sent(sc, s, w), r);
  }

  lemma {:induction false} SkippedTakes(sc: Scenario, s: State, s': State)
    requires s.pc.Acting? && !(s.disk.applied <= s.pc.index < |sc.repairs|)
    requires s'.disk == s.disk && (s'.pc.Acting? || (s'.pc.CompletingPlan? && s.disk.applied == |sc.repairs|))
    ensures Takes(sc, s, s')
  {
  }

  lemma {:induction false} ActingTakes(sc: Scenario, s: State, p: nat, q: nat)
    requires Inv(sc, s, p, q) && s.pc.Acting? && !Next(sc, s).pc.Failed?
    ensures Takes(sc, s, Next(sc, s))
  {
    assert Next(sc, s) == NextActing(sc, s, s.pc.index, s.pc.ambiguous);
    if s.disk.applied <= s.pc.index < |sc.repairs| {
      ActingActs(sc, s, p, q);
      ActedTakes(sc, s, Next(sc, s));
    } else {
      var s' := SkipStep(sc, s, p, q);
      SkippedTakes(sc, s, s');
    }
  }

  lemma {:induction false} ReplayedTakes(sc: Scenario, s: State, s': State)
    requires s.pc.Replaying? && s.pc.index < |sc.repairs| && s'.pc == Replaying(s.pc.index + 1, 0)
    ensures Takes(sc, s, s')
  {
    var i := s.pc.index;
    assert sc.repairs[i..] == [sc.repairs[i]] + sc.repairs[i + 1..];
  }

  lemma {:induction false} ReplayingReplays(sc: Scenario, s: State, p: nat, q: nat)
    requires Inv(sc, s, p, q) && s.pc.Replaying? && s.pc.index < |sc.repairs|
    ensures Next(sc, s).pc == Replaying(s.pc.index + 1, 0)
  {
    assert p == |sc.load| && q == |sc.repairs|;
    var t', r := SendRepair(sc, s.disk.target, q, s.pc.index);
    assert Next(sc, s) == NextReplaying(sc, s, s.pc.index, s.pc.ambiguous);
  }

  lemma {:induction false} ReplayingTakes(sc: Scenario, s: State, p: nat, q: nat)
    requires Inv(sc, s, p, q) && s.pc.Replaying? && !Next(sc, s).pc.Failed?
    ensures Takes(sc, s, Next(sc, s))
  {
    if s.pc.index < |sc.repairs| {
      ReplayingReplays(sc, s, p, q);
      ReplayedTakes(sc, s, Next(sc, s));
    } else {
      assert Next(sc, s) == At(s, Boundary(RepairApplied));
    }
  }

  /** The steps before the application touch nothing that decides what it sends. */
  predicate SamePlan(s: State, s': State) {
    && s'.disk.target == s.disk.target && s'.completedBefore == s.completedBefore
    && (s'.disk.plan == Applied <==> s.disk.plan == Applied) && s'.disk.applied == s.disk.applied
  }

  lemma {:induction false} SamePlanning(sc: Scenario, s: State, s': State, requests: nat)
    requires SamePlan(s, s')
    ensures FromPlanning(sc, s'.disk, s'.completedBefore, requests) ==
            FromPlanning(sc, s.disk, s.completedBefore, requests)
    ensures NeedsLoad(sc, s'.disk) <==> NeedsLoad(sc, s.disk)
    ensures FromLoad(sc, s, 0) == FromLoad(sc, s', 0)
  {
  }

  lemma OpeningSamePlan(sc: Scenario, s: State)
    requires Opens(s.pc)
    ensures SamePlan(s, NextOpening(sc, s))
  {
  }

  lemma PlanningSamePlan(s: State)
    requires Plans(s.pc)
    ensures SamePlan(s, NextPlanning(s))
  {
  }

  lemma {:induction false} OpeningTakes(sc: Scenario, s: State)
    requires Opens(s.pc) && !Next(sc, s).pc.Failed?
    ensures Takes(sc, s, Next(sc, s))
  {
    var s' := NextOpening(sc, s);
    assert Next(sc, s) == s';
    OpeningSamePlan(sc, s);
    SamePlanning(sc, s, s', s.disk.target.requests);
  }

  lemma {:induction false} PlanningTakes(sc: Scenario, s: State)
    requires Plans(s.pc) && !Next(sc, s).pc.Failed?
    ensures Takes(sc, s, Next(sc, s))
  {
    var s' := NextPlanning(s);
    assert Next(sc, s) == s';
    PlanningSamePlan(s);
    SamePlanning(sc, s, s', s.disk.target.requests);
  }

  lemma {:induction false} BeginningTakes(sc: Scenario, s: State)
    requires s.pc.Beginning? && !NextBeginning(s).pc.Failed? && (s.disk.plan == Approved ==> s.disk.applied == 0)
    ensures Takes(sc, s, NextBeginning(s))
  {
    assert sc.repairs[0..] == sc.repairs;
  }

  lemma {:induction false} RecordingTakes(sc: Scenario, s: State)
    requires s.pc.Recording?
    ensures Takes(sc, s, At(s.(disk := s.disk.(applied := s.pc.index + 1)), Acting(s.pc.index + 1, 0)))
  {
  }

  lemma {:induction false} ApplyingTakes(sc: Scenario, s: State)
    requires Applies(s.pc) && !Next(sc, s).pc.Failed? && (s.disk.plan == Approved ==> s.disk.applied == 0)
    ensures Takes(sc, s, Next(sc, s))
  {
    assert Next(sc, s) == NextApplying(s);
    if s.pc.Beginning? {
      BeginningTakes(sc, s);
    } else if s.pc.Recording? {
      RecordingTakes(sc, s);
    } else {
      assert Remaining(sc, s) == [] && Remaining(sc, NextApplying(s)) == [];
    }
  }

  lemma {:induction false} ClosingTakes(sc: Scenario, s: State)
    requires Running(s.pc) && !Writes(s.pc) && !Opens(s.pc) && !Plans(s.pc) && !Applies(s.pc)
    ensures Takes(sc, s, Next(sc, s))
  {
    assert Next(sc, s) == NextClosing(sc, s);
  }

  lemma {:induction false} StepTakes(sc: Scenario, s: State, p: nat, q: nat)
    requires Inv(sc, s, p, q) && Running(s.pc) && !Next(sc, s).pc.Failed?
    ensures Takes(sc, s, Next(sc, s))
  {
    if s.pc.Loading? {
      LoadingTakes(sc, s, p, q);
    } else if s.pc.Acting? {
      ActingTakes(sc, s, p, q);
    } else if s.pc.Replaying? {
      ReplayingTakes(sc, s, p, q);
    } else if Opens(s.pc) {
      OpeningTakes(sc, s);
    } else if Plans(s.pc) {
      PlanningTakes(sc, s);
    } else if Applies(s.pc) {
      ApplyingTakes(sc, s);
    } else {
      ClosingTakes(sc, s);
    }
  }

  // ---- whole runs ----

  function Size(o: Option<Write>): nat { if o.Some? then 1 else 0 }

  /** What every step takes from a list, a run to the end takes in full; and what every step
      counts, the run counts. */
  lemma {:induction false} RunTakes(
    step: Stepper, output: Output, left: State -> seq<Write>, count: State -> nat, ok: State -> bool, s: State, n: nat)
    requires ok(s) && Repeat(step, s, n).pc.Done?
    requires forall x: State :: !Running(x.pc) ==> step(x) == x && output(x).None?
    requires forall x :: ok(x) && x.pc.Done? ==> left(x) == []
    requires forall x :: ok(x) && Running(x.pc) ==> ok(step(x)) && count(step(x)) == count(x) + Size(output(x))
    requires forall x :: ok(x) && Running(x.pc) && !step(x).pc.Failed? ==> left(x) == Cons(output(x), left(step(x)))
    ensures Traffic(step, output, s, n) == left(s) && count(Repeat(step, s, n)) == count(s) + |left(s)|
    decreases n
  {
    if n > 0 {
      if Running(s.pc) {
        if step(s).pc.Failed? { RepeatStands(step, step(s), n - 1); }
        RunTakes(step, output, left, count, ok, step(s), n - 1);
      } else {
        RepeatStands(step, s, n);
        RunTakes(step, output, left, count, ok, s, n - 1);
      }
    }
  }

  lemma {:induction false} StepCounts(sc: Scenario, s: State, p: nat, q: nat)
    requires Inv(sc, s, p, q)
    ensures Next(sc, s).disk.target.requests == s.disk.target.requests + Size(Outgoing(sc, s))
  {
    StepSends(sc, s, p, q);
    if Outgoing(sc, s).Some? { UpsertCounts(sc, s.disk.target, Outgoing(sc, s).value); }
  }

  lemma UpsertCounts(sc: Scenario, t: Target, w: Write)
    ensures Upsert(ScriptOf(sc), t, w).0.requests == t.requests + 1
  {
  }

  lemma StandsStill(sc: Scenario, s: State)
    requires !Running(s.pc)
    ensures Next(sc, s) == s && Outgoing(sc, s).None?
  {
  }

  ghost predicate Reachable(sc: Scenario, s: State) { exists p, q :: Inv(sc, s, p, q) }

  lemma {:induction false} ReachableSteps(sc: Scenario, s: State)
    requires Reachable(sc, s)
    ensures Reachable(sc, Next(sc, s))
    ensures Next(sc, s).disk.target.requests == s.disk.target.requests + Size(Outgoing(sc, s))
  {
    var p, q :| Inv(sc, s, p, q);
    var p', q' := NextKeeps(sc, s, p, q);
    StepCounts(sc, s, p, q);
  }

  lemma {:induction false} ReachableTakes(sc: Scenario, s: State)
    requires Reachable(sc, s) && Running(s.pc) && !Next(sc, s).pc.Failed?
    ensures Takes(sc, s, Next(sc, s))
  {
    var p, q :| Inv(sc, s, p, q);
    StepTakes(sc, s, p, q);
  }

  /** A process that gets to its end sent what remained to be sent when it began. */
  lemma {:induction false} SendsWhatRemains(sc: Scenario, s: State, n: nat)
    requires Reachable(sc, s) && Repeat(Process(sc), s, n).pc.Done?
    ensures Traffic(Process(sc), Sender(sc), s, n) == Remaining(sc, s)
    ensures Repeat(Process(sc), s, n).disk.target.requests == s.disk.target.requests + |Remaining(sc, s)|
  {
    var step, output := Process(sc), Sender(sc);
    var left := (x: State) => Remaining(sc, x);
    var count := (x: State) => x.disk.target.requests;
    var ok := (x: State) => Reachable(sc, x);
    forall x: State | !Running(x.pc) ensures step(x) == x && output(x).None? { StandsStill(sc, x); }
    forall x | ok(x) && Running(x.pc) ensures ok(step(x)) && count(step(x)) == count(x) + Size(output(x)) {
      ReachableSteps(sc, x);
    }
    forall x | ok(x) && Running(x.pc) && !step(x).pc.Failed? ensures left(x) == Cons(output(x), left(step(x))) {
      ReachableTakes(sc, x);
    }
    RunTakes(step, output, left, count, ok, s, n);
  }

  // ---- restarts ----

  /** What a disk calls for. */
  function CalledFor(sc: Scenario, d: Disk): seq<Write> {
    if d.manifest.Some? then []
    else if d.plan == Applied then sc.repairs
    else if NeedsLoad(sc, d) then sc.load + PlanFrom(sc, d.target.requests + |sc.load|, d.target.faults, d.applied)
    else PlanFrom(sc, d.target.requests, d.target.faults, d.applied)
  }

  lemma {:induction false} StartRemains(sc: Scenario, d: Disk)
    requires d.manifest.Some? ==> d.plan == Applied
    ensures Remaining(sc, State(d, Setup, d.manifest.Some?)) == CalledFor(sc, d)
  {
    assert sc.load[0..] == sc.load;
  }

  /** The end of the story. */
  lemma {:induction false} EndIsFinal(sc: Scenario, s: State, p: nat, q: nat)
    requires Inv(sc, s, p, q) && s.pc.Done?
    ensures s.disk.target.content == FinalContent(sc) && s.disk.target.faults == [FaultRequest(sc)]
  {
    ManifestFixes(sc, s, p, q);
  }

  lemma {:induction false} RepeatInv(sc: Scenario, s: State, p: nat, q: nat, n: nat) returns (p': nat, q': nat)
    requires Inv(sc, s, p, q)
    ensures Inv(sc, Repeat(Process(sc), s, n), p', q')
  {
    var keeps := (x: State) => Reachable(sc, x);
    forall x | keeps(x) ensures keeps(Process(sc)(x)) { ReachableSteps(sc, x); }
    RepeatKeeps(Process(sc), s, n, keeps);
    p', q' :| Inv(sc, Repeat(Process(sc), s, n), p', q');
  }

  /** A restarted story that gets to its end has sent exactly what its disk called for, one
      request each, and leaves the repaired target with the one locked fault noted. */
  lemma {:induction false} RestartSends(sc: Scenario, s: State, p: nat, q: nat, n: nat)
    requires Inv(sc, s, p, q) && Repeat(Process(sc), Started(s), n).pc.Done?
    ensures Traffic(Process(sc), Sender(sc), Started(s), n) == CalledFor(sc, s.disk)
    ensures Repeat(Process(sc), Started(s), n).disk.target ==
            Target(FinalContent(sc), s.disk.target.requests + |CalledFor(sc, s.disk)|, [FaultRequest(sc)])
  {
    StartedKeeps(sc, s, p, q);
    if Started(s).pc.Failed? {
      RepeatStands(Process(sc), Started(s), n);
    } else {
      SendsWhatRemains(sc, Started(s), n);
      StartRemains(sc, s.disk);
      var p', q' := RepeatInv(sc, Started(s), p, q, n);
      EndIsFinal(sc, Repeat(Process(sc), Started(s), n), p', q');
    }
  }

  // ---- over whole histories of a new story ----

  /** A run that is not bootstrapped has done nothing else yet. */
  predicate SetUpFirst(s: State) {
    s.disk.setup == 3 ||
    (&& s.disk.setup <= 3 && (!Running(s.pc) || s.pc.Setup? || s.pc.Creating?)
     && s.disk.plan == NoPlan && s.disk.manifest.None? && !s.disk.claimed)
  }

  lemma {:induction false} NextSetsUpFirst(sc: Scenario, s: State, p: nat, q: nat)
    requires Inv(sc, s, p, q) && SetUpFirst(s)
    ensures SetUpFirst(Next(sc, s))
  {
    if s.disk.setup == 3 {
      SetupStays(sc, s);
    } else if s.pc.Setup? || s.pc.Creating? {
      assert Next(sc, s) == NextOpening(sc, s);
    } else {
      StandsStill(sc, s);
    }
  }

  lemma {:induction false} WritingKeepsSetup(sc: Scenario, s: State)
    requires Writes(s.pc)
    ensures NextWriting(sc, s).disk.setup == s.disk.setup
  {
    if s.pc.Acting? {
      assert NextActing(sc, s, s.pc.index, s.pc.ambiguous).disk.setup == s.disk.setup;
    } else if s.pc.Replaying? {
      assert NextReplaying(sc, s, s.pc.index, s.pc.ambiguous).disk.setup == s.disk.setup;
    }
  }

  lemma OpeningKeepsSetup(sc: Scenario, s: State)
    requires Opens(s.pc) && s.disk.setup == 3
    ensures NextOpening(sc, s).disk.setup == 3
  {
  }

  lemma PlanningKeepsSetup(s: State)
    ensures NextPlanning(s).disk.setup == s.disk.setup
  {
  }

  lemma ApplyingKeepsSetup(s: State)
    ensures NextApplying(s).disk.setup == s.disk.setup
  {
  }

  lemma ClosingKeepsSetup(sc: Scenario, s: State)
    ensures NextClosing(sc, s).disk.setup == s.disk.setup
  {
  }

  lemma {:induction false} SetupStays(sc: Scenario, s: State)
    requires s.disk.setup == 3
    ensures Next(sc, s).disk.setup == 3
  {
    if Writes(s.pc) {
      WritingKeepsSetup(sc, s);
    } else if Opens(s.pc) {
      OpeningKeepsSetup(sc, s);
    } else {
      PlanningKeepsSetup(s);
      ApplyingKeepsSetup(s);
      ClosingKeepsSetup(sc, s);
    }
  }

  lemma {:induction false} HistorySetsUpFirst(sc: Scenario, s: State, p: nat, q: nat, actions: seq<Action>)
    requires Inv(sc, s, p, q) && SetUpFirst(s)
    ensures SetUpFirst(History(sc, s, actions))
    decreases |actions|
  {
    if actions != [] {
      var a := actions[0];
      if a.Go? { NextSetsUpFirst(sc, s, p, q); }
      var p', q' := StepKeeps(sc, s, p, q, a);
      HistorySetsUpFirst(sc, Step(sc, s, a), p', q', actions[1..]);
    }
  }

  /** After any history that published: running the story again completes, sends nothing and
      leaves the target as it is, request count and noted faults included. */
  lemma {:induction false} RerunIsStill(sc: Scenario, actions: seq<Action>) returns (n: nat)
    requires WellFormed(sc)
    requires var s := History(sc, State(FRESH, Dead, false), actions);
             !Running(s.pc) && s.disk.manifest.Some?
    ensures var s := History(sc, State(FRESH, Dead, false), actions);
            var end := Repeat(Process(sc), Started(s), n);
            && end.pc.Done? && end.disk.target == s.disk.target && end.disk.manifest == s.disk.manifest
            && Traffic(Process(sc), Sender(sc), Started(s), n) == []
  {
    var s := History(sc, State(FRESH, Dead, false), actions);
    var p, q := HistoryKeeps(sc, State(FRESH, Dead, false), 0, 0, actions);
    HistorySetsUpFirst(sc, State(FRESH, Dead, false), 0, 0, actions);
    ManifestFixes(sc, s, p, q);
    LoadedHasVersion(sc, |sc.load|, |sc.repairs|);
    CompletesIff(sc, s, p, q);
    n :| Repeat(Process(sc), Started(s), n).pc.Done?;
    RestartSends(sc, s, p, q, n);
    RerunKeepsManifest(sc, actions, n);
  }

  lemma {:induction false} RerunKeepsManifest(sc: Scenario, actions: seq<Action>, n: nat)
    requires WellFormed(sc) && History(sc, State(FRESH, Dead, false), actions).disk.manifest.Some?
    ensures var s := History(sc, State(FRESH, Dead, false), actions);
            Repeat(Process(sc), Started(s), n).disk.manifest == s.disk.manifest
  {
    var s := History(sc, State(FRESH, Dead, false), actions);
    var p, q := HistoryKeeps(sc, State(FRESH, Dead, false), 0, 0, actions);
    EveryManifestIsFinal(sc, actions);
    StartedKeeps(sc, s, p, q);
    var keeps: State -> bool :=
      (x: State) => x.disk.manifest == Some(FinalManifest(sc)) && exists p, q :: Inv(sc, x, p, q);
    forall x | keeps(x) ensures keeps(Process(sc)(x)) {
      var p1, q1 :| Inv(sc, x, p1, q1);
      var p2, q2 := NextKeeps(sc, x, p1, q1);
      StepReportsFinal(sc, x, p1, q1, Go);
    }
    RepeatKeeps(Process(sc), Started(s), n, keeps);
  }

  /** After any history that applied the plan and did not publish: unless the disk is doomed, the
      next run completes and sends every repair again, once, in the order of the plan. */
  lemma {:induction false} AppliedIsReplayed(sc: Scenario, actions: seq<Action>) returns (n: nat)
    requires WellFormed(sc)
    requires var s := History(sc, State(FRESH, Dead, false), actions);
             !Running(s.pc) && s.disk.plan == Applied && s.disk.manifest.None? && !Doomed(sc, s.disk)
    ensures var s := History(sc, State(FRESH, Dead, false), actions);
            var end := Repeat(Process(sc), Started(s), n);
            && end.pc.Done? && Traffic(Process(sc), Sender(sc), Started(s), n) == sc.repairs
            && end.disk.target == s.disk.target.(requests := s.disk.target.requests + |sc.repairs|)
  {
    var s := History(sc, State(FRESH, Dead, false), actions);
    var p, q := HistoryKeeps(sc, State(FRESH, Dead, false), 0, 0, actions);
    CompletesIff(sc, s, p, q);
    n :| Repeat(Process(sc), Started(s), n).pc.Done?;
    RestartSends(sc, s, p, q, n);
    assert p == |sc.load| && q == |sc.repairs|;
  }

  /** A new story, undisturbed, sends the baseline and then the plan, with the repair that the
      connection loss hits sent twice in a row, and nothing else. */
  lemma {:induction false} NewStorySends(sc: Scenario) returns (n: nat)
    requires WellFormed(sc)
    ensures var begun := Started(State(FRESH, Dead, false));
            && Repeat(Process(sc), begun, n).pc.Done?
            && Traffic(Process(sc), Sender(sc), begun, n) ==
               sc.load + (sc.repairs[..sc.faultAction] + sc.repairs[sc.faultAction - 1..])
  {
    var s := State(FRESH, Dead, false);
    assert Inv(sc, s, 0, 0);
    InitialMeansLoaded(sc, s.disk.target, 0, 0);
    NothingReached(sc);
    CompletesIff(sc, s, 0, 0);
    n :| Repeat(Process(sc), Started(s), n).pc.Done?;
    RestartSends(sc, s, 0, 0, n);
    assert sc.repairs[0..sc.faultAction] == sc.repairs[..sc.faultAction];
  }

  lemma NothingReached(sc: Scenario)
    ensures NoUpdateReached(sc, EMPTY)
  {
  }
}
