/**
 Publishing a fixture directory by backup and swap. A publication may fail or be killed at
 any step; renames are atomic, writing and removing a tree are not.
 */
module Publication {
  import opened Wrappers

  /** A directory tree: all files of one version, or some of the files of one. */
  datatype Tree = Complete(version: nat) | Partial

  datatype Pc =
    | Idle
    | WriteCandidate | VerifyCandidate | CheckBackup | MoveOld | MoveNew | DropBackup
    | Recover | RecoverDrop | RecoverRestore
    | RemoveCandidate

  /** `version` is what the running attempt publishes, `raised` whether it failed. */
  datatype State = State(
    directory: Option<Tree>, backup: Option<Tree>, candidate: Option<Tree>,
    pc: Pc, version: nat, raised: bool)

  /** The next step when nothing goes wrong. */
  function Next(s: State): State {
    match s.pc
    case Idle => s
    case WriteCandidate => s.(candidate := Some(Complete(s.version)), pc := VerifyCandidate)
    case VerifyCandidate => if s.candidate == Some(Complete(s.version)) then s.(pc := CheckBackup) else Failed(s)
    case CheckBackup => if s.backup.Some? then Failed(s) else s.(pc := MoveOld)
    case MoveOld => if s.directory.Some? then s.(backup := s.directory, directory := None, pc := MoveNew)
        else s.(pc := MoveNew)
    case MoveNew => s.(directory := s.candidate, candidate := None, pc := DropBackup)
    case DropBackup => s.(backup := None, pc := RemoveCandidate)
    case Recover =>
      if s.directory.Some? then (if s.backup.Some? then s.(pc := RecoverDrop) else s.(pc := RemoveCandidate))
      else if s.backup.Some? then s.(pc := RecoverRestore) else s.(pc := RemoveCandidate)
    case RecoverDrop => s.(backup := None, pc := RemoveCandidate)
    case RecoverRestore => s.(directory := s.backup, backup := None, pc := RemoveCandidate)
    case RemoveCandidate => s.(candidate := None, pc := Idle)
  }

  /** An exception at the current step: recovery runs once the publication has started. */
  function Failed(s: State): State {
    match s.pc
    case MoveOld => s.(pc := Recover, raised := true)
    case MoveNew => s.(pc := Recover, raised := true)
    case DropBackup => s.(pc := Recover, raised := true)
    case RemoveCandidate => s.(pc := Idle, raised := true)
    case Idle => s
    case _ => s.(pc := RemoveCandidate, raised := true)
  }

  /** What an interrupted write or removal leaves of a tree. */
  function Torn(s: State): State {
    match s.pc
    case WriteCandidate => s.(candidate := Some(Partial))
    case DropBackup => if s.backup.Some? then s.(backup := Some(Partial)) else s
    case RecoverDrop => s.(backup := Some(Partial))
    case RemoveCandidate => if s.candidate.Some? then s.(candidate := Some(Partial)) else s
    case _ => s
  }

  /** `torn` says that the step had begun to change a tree when it was cut off. */
  datatype Action = Go | Fail(torn: bool) | Kill(torn: bool) | Start(version: nat)

  function Step(s: State, a: Action): State {
    match a
    case Go => Next(s)
    case Fail(torn) => Failed(if torn then Torn(s) else s)
    case Kill(torn) => if s.pc.Idle? then s
        else (if torn then Torn(s) else s).(candidate := None, pc := Idle, raised := true)
    case Start(version) => if s.pc.Idle?
        then State(s.directory, s.backup, Some(Partial), WriteCandidate, version, false) else s
  }

  function Run(s: State, actions: seq<Action>): State
    decreases |actions|
  {
    if actions == [] then s else Run(Step(s, actions[0]), actions[1..])
  }

  // ---- a complete copy always survives ----

  predicate IsComplete(t: Option<Tree>) { t.Some? && t.value.Complete? }

  /** The published copy, wherever it is. */
  predicate HasCopy(s: State) { IsComplete(s.directory) || (s.directory.None? && IsComplete(s.backup)) }

  /** Steps that touch the backup run only with the directory in place, and the swap
      installs only a verified candidate. */
  predicate StageInv(s: State) {
    match s.pc
    case CheckBackup => s.candidate == Some(Complete(s.version))
    case MoveOld => s.candidate == Some(Complete(s.version)) && s.backup.None?
    case MoveNew => s.candidate == Some(Complete(s.version)) && s.directory.None?
    case DropBackup => s.directory == Some(Complete(s.version))
    case RecoverDrop => s.directory.Some? && s.backup.Some?
    case RecoverRestore => s.directory.None? && s.backup.Some?
    case _ => true
  }

  lemma StepKeepsCopy(s: State, a: Action)
    requires HasCopy(s) && StageInv(s)
    ensures HasCopy(Step(s, a)) && StageInv(Step(s, a))
  {
  }

  /** Whatever fails, is killed and is tried again, a complete copy is in the directory, or
      in the backup while the directory is missing. */
  lemma {:induction false} CopySurvives(s: State, actions: seq<Action>)
    requires HasCopy(s) && StageInv(s)
    ensures HasCopy(Run(s, actions)) && StageInv(Run(s, actions))
    decreases |actions|
  {
    if actions != [] {
      StepKeepsCopy(s, actions[0]);
      CopySurvives(Step(s, actions[0]), actions[1..]);
    }
  }

  // ---- failures with a working recovery leave no trace ----

  predicate Recovering(pc: Pc) { pc.Recover? || pc.RecoverDrop? || pc.RecoverRestore? || pc.RemoveCandidate? }

  /** The attempt may fail at any step but not inside its own cleanup, and is not killed. */
  predicate WorkingRecovery(s: State, actions: seq<Action>)
    decreases |actions|
  {
    actions != [] ==>
      && !actions[0].Kill? && !actions[0].Start? && (actions[0].Fail? ==> !Recovering(s.pc))
      && WorkingRecovery(Step(s, actions[0]), actions[1..])
  }

  /** From `prior` to the attempt's version: where both are at each step. */
  predicate SwapInv(s: State, prior: Option<Tree>) {
    var wanted := Some(Complete(s.version));
    match s.pc
    case WriteCandidate => s.directory == prior && s.backup.None? && !s.raised
    case VerifyCandidate => s.directory == prior && s.backup.None? && s.candidate == wanted && !s.raised
    case CheckBackup => s.directory == prior && s.backup.None? && s.candidate == wanted && !s.raised
    case MoveOld => s.directory == prior && s.backup.None? && s.candidate == wanted && !s.raised
    case MoveNew => s.directory.None? && s.backup == prior && s.candidate == wanted && !s.raised
    case DropBackup => s.directory == wanted && !s.raised
    case Recover => s.raised && ((s.directory == prior && s.backup.None?)
        || (s.directory.None? && s.backup == prior) || s.directory == wanted)
    case RecoverDrop => s.raised && s.directory == wanted
    case RecoverRestore => s.raised && s.directory.None? && s.backup == prior
    case RemoveCandidate => s.backup.None? && (s.directory == wanted || (s.raised && s.directory == prior))
    case Idle => s.backup.None? && s.candidate.None? && (s.directory == wanted || (s.raised && s.directory == prior))
  }

  lemma StepSwaps(s: State, prior: Option<Tree>, a: Action)
    requires SwapInv(s, prior) && (prior.None? || IsComplete(prior))
    requires !a.Kill? && !a.Start? && (a.Fail? ==> !Recovering(s.pc))
    ensures SwapInv(Step(s, a), prior)
  {
  }

  lemma {:induction false} RunSwaps(s: State, prior: Option<Tree>, actions: seq<Action>)
    requires SwapInv(s, prior) && (prior.None? || IsComplete(prior)) && WorkingRecovery(s, actions)
    ensures SwapInv(Run(s, actions), prior) && Run(s, actions).version == s.version
    decreases |actions|
  {
    if actions != [] {
      StepSwaps(s, prior, actions[0]);
      RunSwaps(Step(s, actions[0]), prior, actions[1..]);
    }
  }

  /** An attempt that ends, however it failed on the way, leaves exactly the prior or exactly
      the new directory and neither backup nor candidate; without failure it is the new one. */
  lemma {:induction false} AttemptLeavesOldOrNew(prior: Option<Tree>, version: nat, actions: seq<Action>)
    requires prior.None? || IsComplete(prior)
    requires WorkingRecovery(State(prior, None, Some(Partial), WriteCandidate, version, false), actions)
    ensures var s := Run(State(prior, None, Some(Partial), WriteCandidate, version, false), actions);
            s.pc.Idle? ==>
              && s.backup.None? && s.candidate.None?
              && (s.directory == Some(Complete(version)) || (s.raised && s.directory == prior))
  {
    RunSwaps(State(prior, None, Some(Partial), WriteCandidate, version, false), prior, actions);
  }

  // ---- what an interruption leaves ----

  /** The step works on the tree of the backup. */
  predicate Removing(pc: Pc) { pc.DropBackup? || pc.RecoverDrop? }

  /** A kill or a failure never touches the published directory. It leaves the backup as it was,
      or in part if it was being removed; a kill ends the attempt and a failure leads to its
      recovery, once the publication has started, and to the removal of its candidate. */
  lemma {:induction false} InterruptionLeaves(s: State, torn: bool)
    requires !s.pc.Idle? && (s.pc.RecoverDrop? ==> s.backup.Some?)
    ensures var backup := if torn && Removing(s.pc) && s.backup.Some? then Some(Partial) else s.backup;
            && Step(s, Kill(torn)) == State(s.directory, backup, None, Idle, s.version, true)
            && var f := Step(s, Fail(torn));
               && f.directory == s.directory && f.backup == backup && f.version == s.version && f.raised
               && f.pc == (if s.pc.MoveOld? || s.pc.MoveNew? || s.pc.DropBackup? then Recover
                           else if s.pc.RemoveCandidate? then Idle else RemoveCandidate)
               && (f.candidate == s.candidate
                   || (torn && f.candidate == Some(Partial) && (s.pc.WriteCandidate? || s.pc.RemoveCandidate?)))
               && (torn && s.pc.WriteCandidate? ==> f.candidate == Some(Partial))
  {
  }

  // ---- after a kill ----

  function Steps(s: State, n: nat): State
    decreases n
  {
    if n == 0 then s else Steps(Next(s), n - 1)
  }

  /** An attempt that nothing disturbs publishes exactly when there is no backup in its way;
      the leftover backup of a killed attempt makes every later one fail and change nothing. */
  lemma {:induction false} PublishesIffNoBackup(s: State, version: nat)
    requires s.pc.Idle?
    ensures var begun := Step(s, Start(version));
            var end := Steps(begun, 7);
            && end.pc.Idle? && end.candidate.None?
            && (!end.raised <==> s.backup.None?)
            && (!end.raised ==> end.directory == Some(Complete(version)) && end.backup.None?)
            && (end.raised ==> end.directory == s.directory && end.backup == s.backup)
  {
    var s0 := Step(s, Start(version));
    var s1 := Next(s0);
    var s2 := Next(s1);
    var s3 := Next(s2);
    var s4 := Next(s3);
    var s5 := Next(s4);
    var s6 := Next(s5);
    var s7 := Next(s6);
    assert Steps(s6, 1) == Steps(s7, 0) == s7;
    assert Steps(s5, 2) == s7;
    assert Steps(s4, 3) == s7;
    assert Steps(s3, 4) == s7;
    assert Steps(s2, 5) == s7;
    assert Steps(s1, 6) == s7;
    assert Steps(s0, 7) == s7;
  }

  /** The directory is missing and its old content lies in the backup, out of reach of the
      steps an attempt can still take. */
  predicate Stranded(s: State, prior: nat) {
    && s.directory.None? && s.backup == Some(Complete(prior))
    && (s.pc.Idle? || s.pc.WriteCandidate? || s.pc.VerifyCandidate? || s.pc.CheckBackup? || s.pc.RemoveCandidate?)
  }

  lemma {:induction false} StrandedStays(s: State, prior: nat, actions: seq<Action>)
    requires Stranded(s, prior)
    ensures Stranded(Run(s, actions), prior)
    decreases |actions|
  {
    if actions != [] { StrandedStays(Step(s, actions[0]), prior, actions[1..]); }
  }

  /** A publication that is killed between its two renames. */
  function KilledBetweenRenames(version: nat): seq<Action> {
    [Start(version), Go, Go, Go, Go, Kill(false)]
  }

  lemma {:induction false} KillStrands(prior: nat, version: nat)
    ensures Stranded(
              Run(State(Some(Complete(prior)), None, None, Idle, 0, false), KilledBetweenRenames(version)), prior)
  {
    var s0 := State(Some(Complete(prior)), None, None, Idle, 0, false);
    var s1 := Step(s0, Start(version));
    var s5 := Next(Next(Next(Next(s1))));
    assert s5.pc == MoveNew && s5.directory.None? && s5.backup == Some(Complete(prior));
    assert KilledBetweenRenames(version)[1..] == [Go, Go, Go, Go, Kill(false)];
    assert [Go, Go, Go, Go, Kill(false)][1..] == [Go, Go, Go, Kill(false)];
    assert [Go, Go, Go, Kill(false)][1..] == [Go, Go, Kill(false)];
    assert [Go, Go, Kill(false)][1..] == [Go, Kill(false)];
    assert [Go, Kill(false)][1..] == [Kill(false)];
    assert [Kill(false)][1..] == [];
    assert Run(s5, [Kill(false)]) == Step(s5, Kill(false));
    assert Run(Next(Next(Next(s1))), [Go, Kill(false)]) == Step(s5, Kill(false));
    assert Run(Next(Next(s1)), [Go, Go, Kill(false)]) == Step(s5, Kill(false));
    assert Run(Next(s1), [Go, Go, Go, Kill(false)]) == Step(s5, Kill(false));
    assert Run(s1, [Go, Go, Go, Go, Kill(false)]) == Step(s5, Kill(false));
  }

  /** After a kill between the two renames the directory is missing for good: whatever is
      tried, fails or is killed later, it is neither restored nor replaced. */
  lemma {:induction false} KillBetweenRenames(prior: nat, version: nat, later: seq<Action>)
    ensures var killed := Run(State(Some(Complete(prior)), None, None, Idle, 0, false), KilledBetweenRenames(version));
            Run(killed, later).directory.None? && Run(killed, later).backup == Some(Complete(prior))
  {
    KillStrands(prior, version);
    StrandedStays(
      Run(State(Some(Complete(prior)), None, None, Idle, 0, false), KilledBetweenRenames(version)), prior, later);
  }
}
