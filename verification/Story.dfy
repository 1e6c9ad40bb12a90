/**
 The resumable canonical story: a process that is killed at any point and run
 again from the top over durable state.

 Durable state is the operational database, the persisted warehouse and the
 manifest file. A killed process loses its program counter and nothing else; a
 kill inside a warehouse write leaves whichever of its commits came first.
 */
module Story {
  import opened Wrappers
  import opened Warehouse
  import opened StoryTarget

  datatype PlanStatus = NoPlan | Proposed | Approved | Applying | Applied | Refused

  /** What a manifest reports: the verified target, the recorded attempts and the noted faults. */
  datatype Manifest = Manifest(content: Content, attempts: seq<nat>, faults: seq<nat>)

  /** `setup` counts the run commands committed so far: created, started, bootstrapped.
      `applied` counts the repair actions recorded as applied, in plan order. */
  datatype Disk = Disk(
    target: Target,
    setup: nat,
    claimed: bool,
    attempts: seq<nat>,
    finalized: bool,
    artifact: bool,
    reconciled: bool,
    plan: PlanStatus,
    approvals: nat,
    applied: nat,
    verified: bool,
    manifest: Option<Manifest>)

  datatype Failpoint = AttemptsRecorded | ReconciliationPersisted | RepairApproved | RepairApplied

  datatype Pc =
    | Dead | Failed | Done
    | Setup | Creating | Choosing
    | Loading(index: nat) | Observing
    | Attempting(attempt: nat) | Completing(attempt: nat)
    | Boundary(name: Failpoint)
    | Finalizing | PublishingArtifact | Reconciling | Planning
    | Probing | Approving | Beginning
    | Acting(index: nat, ambiguous: nat) | Recording(index: nat) | CompletingPlan
    | Replaying(index: nat, ambiguous: nat)
    | Verifying | RecordingVerification | Reapplying | CheckingFaults | Publishing

  /** `completedBefore` is read once when the process starts. */
  datatype State = State(disk: Disk, pc: Pc, completedBefore: bool)

  const ATTEMPTS: nat := 2
  const MAX_AMBIGUOUS: nat := 3

  const FRESH := Disk(Target(EMPTY, 0, []), 0, false, [], false, false, false, NoPlan, 0, 0, false, None)

  function FaultRequest(sc: Scenario): nat { |sc.load| + sc.faultAction }

  function ScriptOf(sc: Scenario): Script { map[FaultRequest(sc) := ConnectionLoss] }

  // ---- one step of the process ----

  function At(s: State, pc: Pc): State { s.(pc := pc) }

  function Sent(sc: Scenario, s: State, w: Write): State {
    s.(disk := s.disk.(target := Upsert(ScriptOf(sc), s.disk.target, w).0))
  }

  function Answer(sc: Scenario, s: State, w: Write): Response {
    Upsert(ScriptOf(sc), s.disk.target, w).1
  }

  predicate IsAnswered(r: Response) { r.Reply? && r.verdict.Answered? }

  function NextLoading(sc: Scenario, s: State, i: nat): State {
    if i >= |sc.load| then At(s, Observing)
    else At(Sent(sc, s, sc.load[i]), if IsAnswered(Answer(sc, s, sc.load[i])) then Loading(i + 1) else Failed)
  }

  function NextAttempting(s: State, n: nat): State {
    if n > ATTEMPTS then At(s, Boundary(AttemptsRecorded))
    else if n in s.disk.attempts then At(s, Attempting(n + 1))
    else if s.disk.claimed || |s.disk.attempts| + 1 != n then At(s, Failed)
    else At(s.(disk := s.disk.(claimed := true)), Completing(n))
  }

  /** What the applier does with the reply to a write it has sent. */
  function Reacted(s: State, i: nat, ambiguous: nat, r: Response): State {
    if IsAnswered(r) then At(s, Recording(i))
    else if r.Ambiguous? then At(s, if ambiguous + 1 > MAX_AMBIGUOUS then Failed else Acting(i, ambiguous + 1))
    else At(s.(disk := s.disk.(plan := Refused)), Failed)
  }

  function NextActing(sc: Scenario, s: State, i: nat, ambiguous: nat): State {
    if i >= |sc.repairs| then At(s, CompletingPlan)
    else if i < s.disk.applied then At(s, Acting(i + 1, 0))
    else Reacted(Sent(sc, s, sc.repairs[i]), i, ambiguous, Answer(sc, s, sc.repairs[i]))
  }

  function NextReplaying(sc: Scenario, s: State, i: nat, ambiguous: nat): State {
    if i >= |sc.repairs| then At(s, Boundary(RepairApplied))
    else
      var r := Answer(sc, s, sc.repairs[i]);
      var s' := Sent(sc, s, sc.repairs[i]);
      if IsAnswered(r) then At(s', Replaying(i + 1, 0))
      else if r.Ambiguous? then At(s', if ambiguous + 1 > MAX_AMBIGUOUS then Failed else Replaying(i, ambiguous + 1))
      else At(s', Failed)
  }

  function NextBeginning(s: State): State {
    match s.disk.plan
    case Applied => At(s, if s.completedBefore then Boundary(RepairApplied) else Replaying(0, 0))
    case Approved => At(s.(disk := s.disk.(plan := Applying)), Acting(0, 0))
    case Applying => At(s, Acting(0, 0))
    case _ => At(s, Failed)
  }

  /** Besides its writes to the target the story has four parts: it opens the run and its
      inputs, plans, applies the plan, and closes. */
  predicate Writes(pc: Pc) { pc.Loading? || pc.Acting? || pc.Replaying? }

  predicate Opens(pc: Pc) {
    pc.Setup? || pc.Creating? || pc.Choosing? || pc.Observing? || pc.Attempting? || pc.Completing?
  }

  predicate Plans(pc: Pc) {
    pc.Boundary? || pc.Finalizing? || pc.PublishingArtifact? || pc.Reconciling? || pc.Planning? || pc.Probing?
      || pc.Approving?
  }

  predicate Applies(pc: Pc) {
    pc.Beginning? || pc.Recording? || pc.CompletingPlan?
  }

  function NextOpening(sc: Scenario, s: State): State {
    match s.pc
    case Setup =>
      At(s, if s.disk.setup == 0 then Creating else if s.disk.setup == 3 then Choosing else Failed)
    case Creating =>
      if s.disk.setup >= 3 then At(s, Choosing) else s.(disk := s.disk.(setup := s.disk.setup + 1))
    case Choosing =>
      At(s, if s.disk.plan == Applied || HasInitialTarget(sc, s.disk.target.content) then Attempting(1) else Loading(0))
    case Observing => At(s, if BaselineObserved(sc, s.disk.target.content) then Attempting(1) else Failed)
    case Attempting(n) => NextAttempting(s, n)
    case Completing(n) => At(s.(disk := s.disk.(claimed := false, attempts := s.disk.attempts + [n])),
        Attempting(n + 1))
    case _ => s
  }

  function NextPlanning(s: State): State {
    match s.pc
    case Boundary(f) =>
      At(s, match f
            case AttemptsRecorded => Finalizing
            case ReconciliationPersisted => Probing
            case RepairApproved => Beginning
            case RepairApplied => Verifying)
    case Finalizing =>
      if |s.disk.attempts| == ATTEMPTS then At(s.(disk := s.disk.(finalized := true)), PublishingArtifact)
        else At(s, Failed)
    case PublishingArtifact => At(s.(disk := s.disk.(artifact := true)), Reconciling)
    case Reconciling => At(s.(disk := s.disk.(reconciled := true)), Planning)
    case Planning =>
      At(s.(disk := s.disk.(plan := if s.disk.plan == NoPlan then Proposed else s.disk.plan)),
        Boundary(ReconciliationPersisted))
    case Probing => At(s, if s.disk.approvals > 0 || s.disk.plan == Proposed then Approving else Failed)
    case Approving =>
      if s.disk.approvals > 0 then At(s, Boundary(RepairApproved))
      else if s.disk.plan == Proposed then
        At(s.(disk := s.disk.(plan := Approved, approvals := 1)), Boundary(RepairApproved))
      else At(s, Failed)
    case _ => s
  }

  function NextApplying(s: State): State {
    match s.pc
    case Beginning => NextBeginning(s)
    case Recording(i) => At(s.(disk := s.disk.(applied := i + 1)), Acting(i + 1, 0))
    case CompletingPlan => At(s.(disk := s.disk.(plan := Applied)), Boundary(RepairApplied))
    case _ => s
  }

  function NextWriting(sc: Scenario, s: State): State {
    match s.pc
    case Loading(i) => NextLoading(sc, s, i)
    case Acting(i, ambiguous) => NextActing(sc, s, i, ambiguous)
    case Replaying(i, ambiguous) => NextReplaying(sc, s, i, ambiguous)
    case _ => s
  }

  function Report(d: Disk): Manifest { Manifest(d.target.content, d.attempts, d.target.faults) }

  function NextClosing(sc: Scenario, s: State): State {
    match s.pc
    case Verifying => At(s, if ParityHolds(sc, s.disk.target.content) then RecordingVerification else Failed)
    case RecordingVerification => At(s.(disk := s.disk.(verified := true)), Reapplying)
    case Reapplying => At(s, if s.disk.plan == Applied then CheckingFaults else Failed)
    case CheckingFaults => At(s, if s.disk.target.faults == [FaultRequest(sc)] then Publishing else Failed)
    case Publishing => At(s.(disk := s.disk.(manifest := Some(Report(s.disk)))), Done)
    case _ => s
  }

  /** A process that is dead, failed or done does not move. */
  function Next(sc: Scenario, s: State): State {
    if Writes(s.pc) then NextWriting(sc, s)
    else if Opens(s.pc) then NextOpening(sc, s)
    else if Plans(s.pc) then NextPlanning(s)
    else if Applies(s.pc) then NextApplying(s)
    else NextClosing(sc, s)
  }

  // ---- kills and restarts ----

  predicate Running(pc: Pc) { !pc.Dead? && !pc.Failed? && !pc.Done? }

  /** The next step of the process is a warehouse write. */
  predicate AboutToWrite(sc: Scenario, s: State) {
    || (s.pc.Loading? && s.pc.index < |sc.load|)
    || (s.pc.Acting? && s.disk.applied <= s.pc.index < |sc.repairs|)
    || (s.pc.Replaying? && s.pc.index < |sc.repairs|)
  }

  /** What is on disk when the process dies; `commits` of the write's first two commits happened. */
  function Killed(sc: Scenario, s: State, commits: nat): State {
    var t := s.disk.target;
    var left := if !AboutToWrite(sc, s) || commits == 0 then t
                else if commits == 1 then Counted(t)
                else Noted(ScriptOf(sc), Counted(t));
    At(s.(disk := s.disk.(target := left)), Dead)
  }

  /** A new process: it first reopens the warehouse document, if there is one. */
  ghost function Started(s: State): State {
    if s.disk.target.requests == 0 || Reopen(s.disk.target).Some?
    then State(s.disk, Setup, s.disk.manifest.Some?) else At(s, Failed)
  }

  datatype Action = Go | Kill(commits: nat) | Start

  ghost function Step(sc: Scenario, s: State, a: Action): State {
    match a
    case Go => Next(sc, s)
    case Kill(commits) => if Running(s.pc) then Killed(sc, s, commits) else s
    case Start => if Running(s.pc) then s else Started(s)
  }

  ghost function History(sc: Scenario, s: State, actions: seq<Action>): State
    decreases |actions|
  {
    if actions == [] then s else History(sc, Step(sc, s, actions[0]), actions[1..])
  }

  // ---- the invariant ----

  /** The facts that hold of the disk alone, whatever process is or is not running. */
  ghost predicate DiskInv(sc: Scenario, d: Disk, p: nat, q: nat) {
    TargetInv(sc, d.target, p, q) && DatabaseInv(sc, d, p, q)
  }

  ghost predicate TargetInv(sc: Scenario, t: Target, p: nat, q: nat) {
    Reached(sc, p, q) && t.content == ContentAt(sc, p, q) && p + q <= t.requests && FaultsOk(sc, t)
  }

  ghost predicate FaultsOk(sc: Scenario, t: Target) {
    && (t.faults == [] || t.faults == [FaultRequest(sc)])
    && (t.requests < FaultRequest(sc) ==> t.faults == [])
  }

  ghost predicate DatabaseInv(sc: Scenario, d: Disk, p: nat, q: nat) {
    && d.setup <= 3
    && (d.attempts == [] || d.attempts == [1] || d.attempts == [1, 2])
    && (d.claimed ==> |d.attempts| < ATTEMPTS)
    && (d.plan != NoPlan ==>
          p == |sc.load| && d.reconciled && d.artifact && d.finalized && |d.attempts| == ATTEMPTS)
    && (d.finalized ==> |d.attempts| == ATTEMPTS)
    && d.plan != Refused
    && d.approvals == (if d.plan == NoPlan || d.plan == Proposed then 0 else 1)
    && (d.plan == Applying || d.plan == Applied || (q == 0 && d.applied == 0))
    && d.applied <= q <= d.applied + 1
    && (d.plan == Applied ==> d.applied == |sc.repairs|)
    && (d.verified ==> d.plan == Applied)
    && (d.manifest.Some? ==> d.plan == Applied && d.verified && d.target.faults == [FaultRequest(sc)])
  }

  /** What the process has established by the time it stands at a program point. */
  ghost predicate PcInv(sc: Scenario, d: Disk, pc: Pc, p: nat, q: nat) {
    match pc
    case Dead => true
    case Failed => true
    case Setup => true
    case Creating => true
    case Choosing => true
    case Loading(i) => i <= p
    case Observing => p == |sc.load|
    case Attempting(n) => p == |sc.load| && 1 <= n <= ATTEMPTS + 1 && |d.attempts| + 1 >= n
    case Completing(n) => p == |sc.load| && 1 <= n <= ATTEMPTS && |d.attempts| + 1 == n && d.claimed
    case Boundary(AttemptsRecorded) => p == |sc.load| && |d.attempts| == ATTEMPTS
    case Finalizing => p == |sc.load| && |d.attempts| == ATTEMPTS
    case PublishingArtifact => p == |sc.load| && d.finalized
    case Reconciling => p == |sc.load| && d.finalized && d.artifact
    case Planning => p == |sc.load| && d.finalized && d.artifact && d.reconciled
    case Boundary(ReconciliationPersisted) => d.plan != NoPlan
    case Probing => d.plan != NoPlan
    case Approving => d.plan != NoPlan
    case Boundary(RepairApproved) => d.approvals == 1
    case Beginning => d.approvals == 1
    case Acting(i, ambiguous) => d.plan == Applying && i <= d.applied && ambiguous <= MAX_AMBIGUOUS && i <= |sc.repairs|
    case Recording(i) => d.plan == Applying && i == d.applied && q == i + 1
    case CompletingPlan => d.plan == Applying && d.applied == |sc.repairs|
    case Replaying(i, ambiguous) => d.plan == Applied
    case Boundary(RepairApplied) => d.plan == Applied
    case Verifying => d.plan == Applied
    case RecordingVerification => d.plan == Applied
    case Reapplying => d.verified
    case CheckingFaults => d.verified
    case Publishing => d.verified && d.target.faults == [FaultRequest(sc)]
    case Done => d.manifest.Some?
  }

  ghost predicate Inv(sc: Scenario, s: State, p: nat, q: nat) {
    WellFormed(sc) && DiskInv(sc, s.disk, p, q) && PcInv(sc, s.disk, s.pc, p, q)
  }

  // ---- every step keeps it ----

  /** A request counts once, notes the scripted fault exactly at its number, and hides
      an answer only there. */
  lemma RequestCounts(sc: Scenario, t: Target, w: Write)
    requires FaultsOk(sc, t) && Commit(t.content, w).1.Answered?
    ensures var (t', r) := Upsert(ScriptOf(sc), t, w);
            && FaultsOk(sc, t')
            && t'.content == Commit(t.content, w).0
            && t'.requests == t.requests + 1
            && t'.faults == (if t.requests + 1 == FaultRequest(sc) then [FaultRequest(sc)] else t.faults)
            && (if t.requests + 1 == FaultRequest(sc) then r.Ambiguous? else IsAnswered(r))
    ensures FaultsOk(sc, Counted(t)) && FaultsOk(sc, Noted(ScriptOf(sc), Counted(t)))
  {
  }

  lemma {:induction false} SendLoad(sc: Scenario, t: Target, p: nat, q: nat, i: nat) returns (t': Target, r: Response)
    requires WellFormed(sc) && TargetInv(sc, t, p, q) && i <= p && i < |sc.load|
    ensures (t', r) == Upsert(ScriptOf(sc), t, sc.load[i])
    ensures TargetInv(sc, t', if i == p then p + 1 else p, q)
    ensures t'.requests == t.requests + 1
    ensures t'.faults == (if t'.requests == FaultRequest(sc) then [FaultRequest(sc)] else t.faults)
    ensures if t'.requests == FaultRequest(sc) then r.Ambiguous? else IsAnswered(r)
  {
    if i == p { NextLoad(sc, p); } else { AgainLoad(sc, p, q, i); }
    RequestCounts(sc, t, sc.load[i]);
    var (t1, r1) := Upsert(ScriptOf(sc), t, sc.load[i]);
    t', r := t1, r1;
  }

  lemma {:induction false} SendRepair(sc: Scenario, t: Target, q: nat, i: nat) returns (t': Target, r: Response)
    requires WellFormed(sc) && TargetInv(sc, t, |sc.load|, q) && i <= q && i < |sc.repairs|
    ensures (t', r) == Upsert(ScriptOf(sc), t, sc.repairs[i])
    ensures TargetInv(sc, t', |sc.load|, if i == q then q + 1 else q)
    ensures t'.requests == t.requests + 1
    ensures t'.faults == (if t'.requests == FaultRequest(sc) then [FaultRequest(sc)] else t.faults)
    ensures if t'.requests == FaultRequest(sc) then r.Ambiguous? else IsAnswered(r)
  {
    if i == q { NextRepair(sc, q); } else { AgainRepair(sc, q, i); }
    RequestCounts(sc, t, sc.repairs[i]);
    var (t1, r1) := Upsert(ScriptOf(sc), t, sc.repairs[i]);
    t', r := t1, r1;
  }

  lemma {:induction false} LoadingKeeps(sc: Scenario, s: State, p: nat, q: nat) returns (p': nat)
    requires Inv(sc, s, p, q) && s.pc.Loading?
    ensures Inv(sc, NextLoading(sc, s, s.pc.index), p', q)
    ensures p' == if s.pc.index == p < |sc.load| then p + 1 else p
  {
    var i := s.pc.index;
    p' := p;
    if i < |sc.load| {
      var t', r := SendLoad(sc, s.disk.target, p, q, i);
      p' := if i == p then p + 1 else p;
      var s' := NextLoading(sc, s, i);
      assert s'.disk == s.disk.(target := t');
      assert DatabaseInv(sc, s'.disk, p', q);
    }
  }

  lemma {:induction false} ActingKeeps(sc: Scenario, s: State, p: nat, q: nat) returns (q': nat)
    requires Inv(sc, s, p, q) && s.pc.Acting?
    ensures Inv(sc, NextActing(sc, s, s.pc.index, s.pc.ambiguous), p, q')
    ensures q' == if s.disk.applied <= s.pc.index < |sc.repairs| && s.pc.index == q then q + 1 else q
  {
    var i := s.pc.index;
    q' := q;
    if i < |sc.repairs| && i >= s.disk.applied {
      var t', r := SendRepair(sc, s.disk.target, q, i);
      q' := if i == q then q + 1 else q;
      var d' := s.disk.(target := t');
      assert NextActing(sc, s, i, s.pc.ambiguous).disk == d';
      assert DatabaseInv(sc, d', p, q');
    }
  }

  lemma {:induction false} ReplayingKeeps(sc: Scenario, s: State, p: nat, q: nat)
    requires Inv(sc, s, p, q) && s.pc.Replaying?
    ensures Inv(sc, NextReplaying(sc, s, s.pc.index, s.pc.ambiguous), p, q)
  {
    var i := s.pc.index;
    if i < |sc.repairs| {
      assert p == |sc.load| && q == |sc.repairs|;
      var t', r := SendRepair(sc, s.disk.target, q, i);
      var d' := s.disk.(target := t');
      var s' := NextReplaying(sc, s, i, s.pc.ambiguous);
      assert s'.disk == d' && (s'.pc.Failed? || s'.pc.Replaying?);
      assert DatabaseInv(sc, d', p, q);
    }
  }

  lemma {:induction false} InitialMeansLoaded(sc: Scenario, t: Target, p: nat, q: nat)
    requires WellFormed(sc) && TargetInv(sc, t, p, q)
    ensures HasInitialTarget(sc, t.content) <==> p == |sc.load| && q == 0
  {
    ContentShape(sc, p, q);
    InitialTargetIff(sc, p, q, t.content);
  }

  ghost predicate StepOk(sc: Scenario, s: State, s': State, p: nat, q: nat) {
    s'.disk.target == s.disk.target && DatabaseInv(sc, s'.disk, p, q) && PcInv(sc, s'.disk, s'.pc, p, q)
  }

  lemma {:induction false} ChoosingKeeps(sc: Scenario, s: State, p: nat, q: nat)
    requires Inv(sc, s, p, q) && s.pc.Choosing?
    ensures StepOk(sc, s, NextOpening(sc, s), p, q)
  {
    InitialMeansLoaded(sc, s.disk.target, p, q);
  }

  lemma {:induction false} OpeningKeeps(sc: Scenario, s: State, p: nat, q: nat)
    requires DatabaseInv(sc, s.disk, p, q) && PcInv(sc, s.disk, s.pc, p, q) && Opens(s.pc) && !s.pc.Choosing?
    ensures StepOk(sc, s, NextOpening(sc, s), p, q)
  {
    if s.pc.Attempting? && s.pc.attempt <= ATTEMPTS && |s.disk.attempts| >= s.pc.attempt {
      assert s.disk.attempts[s.pc.attempt - 1] == s.pc.attempt;
    }
  }

  lemma PlanningKeeps(sc: Scenario, s: State, p: nat, q: nat)
    requires DatabaseInv(sc, s.disk, p, q) && PcInv(sc, s.disk, s.pc, p, q) && Plans(s.pc)
    ensures StepOk(sc, s, NextPlanning(s), p, q)
  {
  }

  lemma ApplyingKeeps(sc: Scenario, s: State, p: nat, q: nat)
    requires DatabaseInv(sc, s.disk, p, q) && PcInv(sc, s.disk, s.pc, p, q) && q <= |sc.repairs| && Applies(s.pc)
    ensures StepOk(sc, s, NextApplying(s), p, q)
  {
  }

  lemma ClosingKeeps(sc: Scenario, s: State, p: nat, q: nat)
    requires DatabaseInv(sc, s.disk, p, q) && PcInv(sc, s.disk, s.pc, p, q)
    requires !Writes(s.pc) && !Opens(s.pc) && !Plans(s.pc) && !Applies(s.pc)
    ensures StepOk(sc, s, NextClosing(sc, s), p, q)
  {
  }

  lemma KilledKeeps(sc: Scenario, s: State, p: nat, q: nat, commits: nat)
    requires Inv(sc, s, p, q)
    ensures Inv(sc, Killed(sc, s, commits), p, q)
  {
  }

  lemma {:induction false} WritingKeeps(sc: Scenario, s: State, p: nat, q: nat) returns (p': nat, q': nat)
    requires Inv(sc, s, p, q) && Writes(s.pc)
    ensures Inv(sc, NextWriting(sc, s), p', q')
  {
    p', q' := p, q;
    if s.pc.Loading? {
      assert NextWriting(sc, s) == NextLoading(sc, s, s.pc.index);
      p' := LoadingKeeps(sc, s, p, q);
    } else if s.pc.Acting? {
      assert NextWriting(sc, s) == NextActing(sc, s, s.pc.index, s.pc.ambiguous);
      q' := ActingKeeps(sc, s, p, q);
    } else {
      assert NextWriting(sc, s) == NextReplaying(sc, s, s.pc.index, s.pc.ambiguous);
      ReplayingKeeps(sc, s, p, q);
    }
  }

  lemma {:induction false} QuietKeeps(sc: Scenario, s: State, p: nat, q: nat)
    requires Inv(sc, s, p, q) && !Writes(s.pc)
    ensures Inv(sc, Next(sc, s), p, q) && Next(sc, s).disk.target == s.disk.target
  {
    if s.pc.Choosing? { ChoosingKeeps(sc, s, p, q); }
    else if Opens(s.pc) { OpeningKeeps(sc, s, p, q); }
    else if Plans(s.pc) { PlanningKeeps(sc, s, p, q); }
    else if Applies(s.pc) { ApplyingKeeps(sc, s, p, q); }
    else { ClosingKeeps(sc, s, p, q); }
  }

  lemma {:induction false} NextKeeps(sc: Scenario, s: State, p: nat, q: nat) returns (p': nat, q': nat)
    requires Inv(sc, s, p, q)
    ensures Inv(sc, Next(sc, s), p', q')
  {
    p', q' := p, q;
    if Writes(s.pc) {
      assert Next(sc, s) == NextWriting(sc, s);
      p', q' := WritingKeeps(sc, s, p, q);
    } else {
      QuietKeeps(sc, s, p, q);
    }
  }

  lemma {:induction false} StepKeeps(sc: Scenario, s: State, p: nat, q: nat, a: Action) returns (p': nat, q': nat)
    requires Inv(sc, s, p, q)
    ensures Inv(sc, Step(sc, s, a), p', q')
  {
    p', q' := p, q;
    if a.Go? {
      p', q' := NextKeeps(sc, s, p, q);
    } else if a.Kill? {
      KilledKeeps(sc, s, p, q, a.commits);
    }
  }

  lemma {:induction false} HistoryKeeps(
      sc: Scenario, s: State, p: nat, q: nat, actions: seq<Action>) returns (p': nat, q': nat)
    requires Inv(sc, s, p, q)
    ensures Inv(sc, History(sc, s, actions), p', q')
    decreases |actions|
  {
    if actions == [] {
      p', q' := p, q;
    } else {
      p', q' := StepKeeps(sc, s, p, q, actions[0]);
      p', q' := HistoryKeeps(sc, Step(sc, s, actions[0]), p', q', actions[1..]);
    }
  }

  // ---- safety of every history ----

  ghost predicate Safe(sc: Scenario, s: State) {
    var d := s.disk;
    var c := d.target.content;
    // one effect at most per key, and a version that counts the effects
    && (forall k :: CountOf(c.effects, k) <= 1)
    && c.version == Total(c.effects)
    // nothing reaches a repair key before the approval is durable
    && (forall i :: RepairKey(i) in c.receipts || RepairKey(i) in c.effects ==> d.approvals == 1)
    // no attempt is recorded twice
    && (forall i, j :: 0 <= i < j < |d.attempts| ==> d.attempts[i] != d.attempts[j])
    // a plan stands for both attempts, the finished run, its artifact and its reconciliation
    && (d.plan != NoPlan ==> d.attempts == [1, 2] && d.finalized && d.artifact && d.reconciled)
    // a manifest stands for a completed application, observed parity and the one locked fault
    && (d.manifest.Some? ==>
          && d.plan == Applied && d.approvals == 1 && d.applied == |sc.repairs|
          && d.verified && d.target.faults == [FaultRequest(sc)]
          && ParityHolds(sc, c)
          && forall i :: 0 <= i < |sc.repairs| ==> CountOf(c.effects, RepairKey(i)) == 1)
    && (s.pc.Done? ==> d.manifest.Some?)
  }

  lemma {:induction false} TargetIsSafe(sc: Scenario, t: Target, p: nat, q: nat)
    requires WellFormed(sc) && TargetInv(sc, t, p, q)
    ensures forall k :: CountOf(t.content.effects, k) <= 1
    ensures t.content.version == Total(t.content.effects)
    ensures forall i :: RepairKey(i) in t.content.receipts || RepairKey(i) in t.content.effects ==> q > 0
    ensures p == |sc.load| && q == |sc.repairs| ==>
              ParityHolds(sc, t.content) && forall i :: 0 <= i < |sc.repairs| ==>
                CountOf(t.content.effects, RepairKey(i)) == 1
  {
    ContentShape(sc, p, q);
    TotalOfOnes(t.content.effects);
    ParityAtTheEnd(sc);
  }

  lemma {:induction false} InvIsSafe(sc: Scenario, s: State, p: nat, q: nat)
    requires Inv(sc, s, p, q)
    ensures Safe(sc, s)
  {
    TargetIsSafe(sc, s.disk.target, p, q);
  }

  /** Every history of kills and restarts of the story is safe in every state. */
  lemma {:induction false} EveryHistoryIsSafe(sc: Scenario, actions: seq<Action>)
    requires WellFormed(sc)
    ensures Safe(sc, History(sc, State(FRESH, Dead, false), actions))
  {
    var p, q := HistoryKeeps(sc, State(FRESH, Dead, false), 0, 0, actions);
    InvIsSafe(sc, History(sc, State(FRESH, Dead, false), actions), p, q);
  }

  // ---- an earlier manifest ----

  /** The target a published manifest stands for. */
  function FinalContent(sc: Scenario): Content {
    ContentAt(sc, |sc.load|, |sc.repairs|)
  }

  lemma ManifestFixes(sc: Scenario, s: State, p: nat, q: nat)
    requires Inv(sc, s, p, q) && s.disk.manifest.Some?
    ensures s.disk.target.content == FinalContent(sc)
  {
  }

  lemma ActingKeepsManifest(sc: Scenario, s: State, i: nat, n: nat)
    ensures NextActing(sc, s, i, n).disk.manifest == s.disk.manifest
  {
  }

  lemma ReplayingKeepsManifest(sc: Scenario, s: State, i: nat, n: nat)
    ensures NextReplaying(sc, s, i, n).disk.manifest == s.disk.manifest
  {
  }

  lemma {:induction false} WritingKeepsManifest(sc: Scenario, s: State)
    requires Writes(s.pc)
    ensures NextWriting(sc, s).disk.manifest == s.disk.manifest
  {
    if s.pc.Acting? {
      assert NextWriting(sc, s) == NextActing(sc, s, s.pc.index, s.pc.ambiguous);
      ActingKeepsManifest(sc, s, s.pc.index, s.pc.ambiguous);
    } else if s.pc.Replaying? {
      assert NextWriting(sc, s) == NextReplaying(sc, s, s.pc.index, s.pc.ambiguous);
      ReplayingKeepsManifest(sc, s, s.pc.index, s.pc.ambiguous);
    } else {
      assert NextWriting(sc, s) == NextLoading(sc, s, s.pc.index);
    }
  }

  lemma OpeningKeepsManifest(sc: Scenario, s: State)
    ensures NextOpening(sc, s).disk.manifest == s.disk.manifest
  {
  }

  lemma PlanningKeepsManifest(s: State)
    ensures NextPlanning(s).disk.manifest == s.disk.manifest
  {
  }

  lemma ApplyingKeepsManifest(s: State)
    ensures NextApplying(s).disk.manifest == s.disk.manifest
  {
  }

  /** Only the last step writes a manifest, and it reports the disk. */
  lemma {:induction false} OnlyPublishingReports(sc: Scenario, s: State)
    ensures Next(sc, s).disk.manifest == if s.pc.Publishing? then Some(Report(s.disk)) else s.disk.manifest
  {
    if Writes(s.pc) {
      WritingKeepsManifest(sc, s);
    } else {
      OpeningKeepsManifest(sc, s);
      PlanningKeepsManifest(s);
      ApplyingKeepsManifest(s);
    }
  }

  /** The one manifest a scenario can have. */
  function FinalManifest(sc: Scenario): Manifest {
    Manifest(FinalContent(sc), [1, 2], [FaultRequest(sc)])
  }

  predicate ReportsFinal(sc: Scenario, m: Option<Manifest>) { m.Some? ==> m.value == FinalManifest(sc) }

  /** What is reported is always the same, also by a process that replaces an earlier manifest. */
  lemma {:induction false} PublishingReportsFinal(sc: Scenario, s: State, p: nat, q: nat)
    requires Inv(sc, s, p, q) && s.pc.Publishing?
    ensures Report(s.disk) == FinalManifest(sc)
  {
  }

  lemma {:induction false} StepReportsFinal(sc: Scenario, s: State, p: nat, q: nat, a: Action)
    requires Inv(sc, s, p, q) && ReportsFinal(sc, s.disk.manifest)
    ensures ReportsFinal(sc, Step(sc, s, a).disk.manifest)
    ensures s.disk.manifest.Some? ==> Step(sc, s, a).disk.manifest == s.disk.manifest
  {
    if a.Go? {
      OnlyPublishingReports(sc, s);
      if s.pc.Publishing? { PublishingReportsFinal(sc, s, p, q); }
    } else if a.Kill? {
      assert Killed(sc, s, a.commits).disk.manifest == s.disk.manifest;
    }
  }

  lemma {:induction false} HistoryReportsFinal(sc: Scenario, s: State, p: nat, q: nat, actions: seq<Action>)
    requires Inv(sc, s, p, q) && ReportsFinal(sc, s.disk.manifest)
    ensures ReportsFinal(sc, History(sc, s, actions).disk.manifest)
    ensures s.disk.manifest.Some? ==> History(sc, s, actions).disk.manifest == s.disk.manifest
    decreases |actions|
  {
    if actions != [] {
      StepReportsFinal(sc, s, p, q, actions[0]);
      var p', q' := StepKeeps(sc, s, p, q, actions[0]);
      HistoryReportsFinal(sc, Step(sc, s, actions[0]), p', q', actions[1..]);
    }
  }

  /** Whatever is killed and run again, every manifest that is ever published has one value:
      the expected target, both attempts and the one locked fault. */
  lemma {:induction false} EveryManifestIsFinal(sc: Scenario, actions: seq<Action>)
    requires WellFormed(sc)
    ensures ReportsFinal(sc, History(sc, State(FRESH, Dead, false), actions).disk.manifest)
  {
    HistoryReportsFinal(sc, State(FRESH, Dead, false), 0, 0, actions);
  }

  /** Whatever is interrupted and run again later, an earlier manifest stays in value and the
      target under it stays as it was. */
  lemma {:induction false} ManifestStays(sc: Scenario, s: State, p: nat, q: nat, actions: seq<Action>)
    requires Inv(sc, s, p, q) && s.disk.manifest == Some(FinalManifest(sc))
    ensures var s' := History(sc, s, actions);
            s'.disk.manifest == s.disk.manifest && s'.disk.target.content == s.disk.target.content
  {
    HistoryReportsFinal(sc, s, p, q, actions);
    var p', q' := HistoryKeeps(sc, s, p, q, actions);
    ManifestFixes(sc, s, p, q);
    ManifestFixes(sc, History(sc, s, actions), p', q');
  }
}
