/**
 The order of the markers. However the two threads of the crash worker interleave, the markers
 of each are a beginning of the protocol written out here, and the two sides wait for each
 other and for the database where the protocol says so.
 */
module WorkerProtocol {
  import opened Wrappers
  import opened MarkerText
  import opened RowVersions
  import opened CrashWorker

  /** What the writer says about each command, in order. */
  function OneCommand(): seq<Marker> {
    [PreCommit, CommitEntered, CommitConfirmed, SessionCloseEntered, SessionClosed,
     ReceiptResolved, NotificationEntered, NotificationOffered]
  }

  const PER_COMMAND: nat := 8

  function WriterMark(i: nat): Mark { (OneCommand()[i % PER_COMMAND], i / PER_COMMAND + 1) }

  /** The first `n` markers of the writer, command after command. */
  function WriterLog(n: nat): seq<Mark> { if n == 0 then [] else WriterLog(n - 1) + [WriterMark(n - 1)] }

  /** All the main thread says. */
  function MainLog(f: Failpoint): seq<Mark> {
    if f == ShutdownDrain then
      [(WorkerReady, 0), (CommandAdmitted, 1), (CommandObserved, 1), (CommandAdmitted, 2), (CommandAdmitted, 3),
       (ShutdownEntered, 0)]
    else [(WorkerReady, 0), (CommandAdmitted, 1), (CommandObserved, 1), (ShutdownEntered, 0), (ShutdownDrained, 0)]
  }

  predicate OfMain(m: Marker) {
    m.WorkerReady? || m.CommandAdmitted? || m.CommandObserved? || m.ShutdownEntered? || m.ShutdownDrained?
  }

  /** The markers of one side, in order. */
  function Side(markers: seq<Mark>, main: bool): seq<Mark> {
    if markers == [] then []
    else
      var n := |markers| - 1;
      if OfMain(markers[n].0) == main then Side(markers[..n], main) + [markers[n]] else Side(markers[..n], main)
  }

  lemma {:induction false} SideGrows(markers: seq<Mark>, mark: Mark, main: bool)
    ensures Side(markers + [mark], main) ==
            if OfMain(mark.0) == main then Side(markers, main) + [mark] else Side(markers, main)
  {
    assert (markers + [mark])[..|markers|] == markers;
  }

  // ---- how far each side has come ----

  function SaidOf(stage: Stage): nat {
    match stage
    case Gate => 0 case Dispatch => 0 case EmitPreCommit => 0
    case SetBoundary => 1 case HoldBefore => 1 case EmitEntered => 1
    case AwaitRelease => 2 case Commit => 2 case EmitConfirmed => 2
    case EmitCloseEntered => 3
    case HoldClose => 4 case EmitClosed => 4
    case Resolve => 5 case EmitResolved => 5
    case EmitNotification => 6
    case HoldNotification => 7 case Offer => 7
    case SignalOffered => 8
  }

  function WriterSaid(t: Threads): int {
    if t.writer.Serving? then PER_COMMAND * (t.writer.ordinal - 1) + SaidOf(t.writer.stage)
    else PER_COMMAND * t.resolved
  }

  function MainSaid(f: Failpoint, main: MainPc): nat {
    match main
    case EmitReady => 0
    case StartWriter => 1
    case Submit(k) => if k <= 1 then 1 else k + 1
    case Admit(k) => if k <= 1 then 1 else k + 1
    case OpenGate(k) => if k <= 1 then 2 else k + 2
    case AwaitReceipt => 2
    case AwaitNotification => 2
    case EmitObserved => 2
    case AwaitSecond => 4
    case EmitShutdown => if f == ShutdownDrain then 5 else 3
    case CloseWriter => if f == ShutdownDrain then 6 else 4
    case HoldForParent => if f == ShutdownDrain then 6 else 4
    case AwaitDrain => 4
    case EmitDrained => 4
    case Exited => 5
    case Failed => 0
  }

  /** Beyond its gate a command is admitted, and notified means offered. */
  predicate GateInv(t: Threads) {
    && (t.writer.Serving? && !t.writer.stage.Gate? ==> t.writer.ordinal <= t.admitted)
    && t.resolved <= t.admitted
    && (t.notified ==> WriterSaid(t) >= PER_COMMAND)
  }

  predicate Known(f: Failpoint, t: Threads) { LiveInv(f, t) && GateInv(t) }

  /** The next marker of the main thread. */
  predicate SaysMain(f: Failpoint, t: Threads, move: Move) {
    && move.effect.Emits? && WriterSaid(move.threads) == WriterSaid(t) && MainSaid(f, t.main) < |MainLog(f)|
    && OfMain(move.effect.mark.0) && move.effect.mark == MainLog(f)[MainSaid(f, t.main)]
    && MainSaid(f, move.threads.main) == MainSaid(f, t.main) + 1
  }

  predicate SaysWriter(f: Failpoint, t: Threads, move: Move) {
    && move.effect.Emits? && MainSaid(f, move.threads.main) == MainSaid(f, t.main) && WriterSaid(t) >= 0
    && !OfMain(move.effect.mark.0) && move.effect.mark == WriterMark(WriterSaid(t))
    && WriterSaid(move.threads) == WriterSaid(t) + 1
  }

  predicate SaysNothing(f: Failpoint, t: Threads, move: Move) {
    WriterSaid(move.threads) == WriterSaid(t) && MainSaid(f, move.threads.main) == MainSaid(f, t.main)
  }

  /** A move says the next marker of its side, or nothing. */
  predicate SaysNext(f: Failpoint, t: Threads, move: Move) {
    if move.effect.Emits? then SaysMain(f, t, move) || SaysWriter(f, t, move) else SaysNothing(f, t, move)
  }

  lemma {:induction false} AdmitSaysNext(f: Failpoint, t: Threads)
    requires Known(f, t) && (t.main.Admit? || t.main.OpenGate? || t.main.Submit?) && MainMove(f, t).Some?
    ensures SaysNext(f, t, MainMove(f, t).value)
  {
    var k := t.main.ordinal;
    assert k == 1 || ((k == 2 || k == 3) && f == ShutdownDrain);
  }

  lemma {:induction false} ShutdownSaysNext(f: Failpoint, t: Threads)
    requires ShutsDown(t.main) && MainMove(f, t).Some? && (Closes(t.main) ==> f != ShutdownDrain)
    ensures SaysNext(f, t, MainMove(f, t).value) || MainMove(f, t).value.threads.main.Failed?
  {
  }

  lemma {:induction false} MainSaysNext(f: Failpoint, t: Threads)
    requires Known(f, t) && MainMove(f, t).Some?
    ensures SaysNext(f, t, MainMove(f, t).value)
  {
    if t.main.Submit? || t.main.Admit? || t.main.OpenGate? {
      AdmitSaysNext(f, t);
    } else if ShutsDown(t.main) {
      ShutdownSaysNext(f, t);
    }
  }

  lemma {:induction false} MainKeepsGate(f: Failpoint, t: Threads)
    requires Known(f, t) && MainMove(f, t).Some?
    ensures GateInv(MainMove(f, t).value.threads)
  {
  }

  lemma WriterMarkIs(k: nat, j: nat)
    requires k >= 1 && j < PER_COMMAND
    ensures WriterMark(PER_COMMAND * (k - 1) + j) == (OneCommand()[j], k)
  {
  }

  /** A stage that says its marker and goes on. */
  lemma {:induction false} TellSays(f: Failpoint, t: Threads, k: nat, stage: Stage, next: Stage, marker: Marker)
    requires t.writer == Serving(k, stage) && k >= 1 && SaidOf(stage) < PER_COMMAND
    requires marker == OneCommand()[SaidOf(stage)] && SaidOf(next) == SaidOf(stage) + 1
    ensures SaysNext(f, t, Tell(t, k, next, marker).value)
  {
    WriterMarkIs(k, SaidOf(stage));
  }

  lemma {:induction false} BeforeSaysNext(f: Failpoint, t: Threads, k: nat, stage: Stage)
    requires Known(f, t) && t.writer == Serving(k, stage) && Before(stage) && BeforeMove(f, t, k, stage, true).Some?
    ensures SaysNext(f, t, BeforeMove(f, t, k, stage, true).value)
    ensures GateInv(BeforeMove(f, t, k, stage, true).value.threads)
  {
    if stage.EmitPreCommit? {
      TellSays(f, t, k, stage, SetBoundary, PreCommit);
    } else if stage.EmitEntered? {
      TellSays(f, t, k, stage, AwaitRelease, CommitEntered);
    }
  }

  lemma {:induction false} AfterKeepsGate(f: Failpoint, t: Threads, k: nat, stage: Stage)
    requires Known(f, t) && t.writer == Serving(k, stage) && !Before(stage) && AfterMove(f, t, k, stage).Some?
    ensures GateInv(AfterMove(f, t, k, stage).value.threads)
  {
  }

  lemma {:induction false} AfterTells(f: Failpoint, t: Threads, k: nat, stage: Stage)
    requires t.writer == Serving(k, stage) && !Before(stage) && k >= 1
    requires !stage.HoldClose? && !stage.Resolve? && !stage.HoldNotification? && !stage.SignalOffered?
    ensures AfterMove(f, t, k, stage).Some? && SaysNext(f, t, AfterMove(f, t, k, stage).value)
  {
    match stage
    case EmitConfirmed => TellSays(f, t, k, stage, EmitCloseEntered, CommitConfirmed);
    case EmitCloseEntered => TellSays(f, t, k, stage, HoldClose, SessionCloseEntered);
    case EmitClosed => TellSays(f, t, k, stage, Resolve, SessionClosed);
    case EmitResolved => TellSays(f, t, k, stage, EmitNotification, ReceiptResolved);
    case EmitNotification => TellSays(f, t, k, stage, HoldNotification, NotificationEntered);
    case Offer => TellSays(f, t, k, stage, SignalOffered, NotificationOffered);
  }

  lemma {:induction false} AfterSaysNext(f: Failpoint, t: Threads, k: nat, stage: Stage)
    requires t.writer == Serving(k, stage) && !Before(stage) && k >= 1 && AfterMove(f, t, k, stage).Some?
    requires stage.SignalOffered? ==> t.resolved == k
    ensures SaysNext(f, t, AfterMove(f, t, k, stage).value)
  {
    if !stage.HoldClose? && !stage.Resolve? && !stage.HoldNotification? && !stage.SignalOffered? {
      AfterTells(f, t, k, stage);
    } else {
      assert SaysNothing(f, t, AfterMove(f, t, k, stage).value);
    }
  }

  lemma {:induction false} WriterSaysNext(f: Failpoint, t: Threads)
    requires Known(f, t) && WriterMove(f, t, true).Some?
    ensures SaysNext(f, t, WriterMove(f, t, true).value) && GateInv(WriterMove(f, t, true).value.threads)
  {
    if t.writer.Serving? {
      if Before(t.writer.stage) {
        BeforeSaysNext(f, t, t.writer.ordinal, t.writer.stage);
      } else {
        AfterSaysNext(f, t, t.writer.ordinal, t.writer.stage);
        AfterKeepsGate(f, t, t.writer.ordinal, t.writer.stage);
      }
    }
  }

  // ---- every interleaving ----

  predicate Keeps(f: Failpoint, w: Worker) {
    && WriterSaid(w.threads) >= 0 && Side(w.markers, false) == WriterLog(WriterSaid(w.threads))
    && MainSaid(f, w.threads.main) <= |MainLog(f)|
    && Side(w.markers, true) == MainLog(f)[..MainSaid(f, w.threads.main)]
  }

  lemma {:induction false} MainLogGrows(f: Failpoint, n: nat)
    requires n < |MainLog(f)|
    ensures MainLog(f)[..n + 1] == MainLog(f)[..n] + [MainLog(f)[n]]
  {
  }

  lemma {:induction false} PerformMain(f: Failpoint, w: Worker, move: Move)
    requires Keeps(f, w) && SaysMain(f, w.threads, move)
    ensures Keeps(f, Perform(w, Some(move)))
  {
    SideGrows(w.markers, move.effect.mark, true);
    SideGrows(w.markers, move.effect.mark, false);
    MainLogGrows(f, MainSaid(f, w.threads.main));
  }

  lemma {:induction false} PerformWriter(f: Failpoint, w: Worker, move: Move)
    requires Keeps(f, w) && SaysWriter(f, w.threads, move)
    ensures Keeps(f, Perform(w, Some(move)))
  {
    SideGrows(w.markers, move.effect.mark, true);
    SideGrows(w.markers, move.effect.mark, false);
  }

  lemma {:induction false} PerformSays(f: Failpoint, w: Worker, move: Move)
    requires Keeps(f, w) && SaysNext(f, w.threads, move)
    ensures Keeps(f, Perform(w, Some(move)))
  {
    if SaysMain(f, w.threads, move) {
      PerformMain(f, w, move);
    } else if SaysWriter(f, w.threads, move) {
      PerformWriter(f, w, move);
    }
  }

  lemma {:induction false} StepSays(f: Failpoint, w: Worker, turn: Turn)
    requires Live(f, w) && GateInv(w.threads) && Keeps(f, w)
    ensures GateInv(Step(f, w, turn).threads) && Keeps(f, Step(f, w, turn))
  {
    match turn
    case Main =>
      if MainMove(f, w.threads).Some? {
        MainSaysNext(f, w.threads);
        MainKeepsGate(f, w.threads);
        PerformSays(f, w, MainMove(f, w.threads).value);
      }
    case Writer =>
      AcceptedOrIdle(f, w);
      if WriterMove(f, w.threads, true).Some? {
        WriterSaysNext(f, w.threads);
        PerformSays(f, w, WriterMove(f, w.threads, true).value);
      }
    case Release =>
  }

  lemma {:induction false} RunSays(f: Failpoint, w: Worker, turns: seq<Turn>)
    requires Live(f, w) && GateInv(w.threads) && Keeps(f, w)
    ensures Live(f, Run(f, w, turns)) && GateInv(Run(f, w, turns).threads) && Keeps(f, Run(f, w, turns))
    decreases |turns|
  {
    if turns != [] {
      StepLive(f, w, turns[0]);
      StepSays(f, w, turns[0]);
      RunSays(f, Step(f, w, turns[0]), turns[1..]);
    }
  }

  /** Where the main thread announces a command. */
  function AnnouncedAt(k: nat): nat { if k <= 1 then 2 else k + 2 }

  lemma {:induction false} SaidMeansDurable(f: Failpoint, t: Threads, k: nat)
    requires Known(f, t) && k >= 1
    ensures WriterSaid(t) >= PER_COMMAND * (k - 1) + 3 ==> Durable(t) >= k
    ensures WriterSaid(t) < PER_COMMAND * (k - 1) + 2 ==> Durable(t) < k
  {
    var j := if t.writer.Serving? then t.writer.ordinal else t.resolved + 1;
    if j < k { assert PER_COMMAND * (k - 1) >= PER_COMMAND * j; }
    if j > k { assert PER_COMMAND * (j - 1) >= PER_COMMAND * k; }
  }

  lemma {:induction false} SaidMeansAnnounced(f: Failpoint, t: Threads, k: nat)
    requires Known(f, t) && k >= 1 && WriterSaid(t) > PER_COMMAND * (k - 1)
    ensures MainSaid(f, t.main) >= AnnouncedAt(k)
  {
    var j := if t.writer.Serving? then t.writer.ordinal else t.resolved;
    assert j >= k;
  }

  lemma ObservedMeansOffered(f: Failpoint, t: Threads)
    requires Known(f, t) && MainSaid(f, t.main) >= 3
    ensures WriterSaid(t) >= PER_COMMAND
  {
  }

  /** In every interleaving, at every moment: the markers of the writer are a beginning of its
      protocol and those of the main thread a beginning of theirs; a command is announced
      before the writer says anything about it, its commit is entered before it is durable and
      confirmed after, and it is observed after its notification was offered. */
  lemma {:induction false} MarkersFollowProtocol(f: Failpoint, turns: seq<Turn>, k: nat)
    requires k >= 1
    ensures var w := Run(f, Launched(), turns);
            var writer, main := Side(w.markers, false), Side(w.markers, true);
            && writer == WriterLog(|writer|) && |main| <= |MainLog(f)| && main == MainLog(f)[..|main|]
            && (|writer| > PER_COMMAND * (k - 1) ==> |main| >= AnnouncedAt(k))
            && (|main| >= 3 ==> |writer| >= PER_COMMAND)
            && Durable(w.threads) <= ITEMS && w.database == Projection(ITEMS, Durable(w.threads))
            && (|writer| >= PER_COMMAND * (k - 1) + 3 ==> Durable(w.threads) >= k)
            && (|writer| < PER_COMMAND * (k - 1) + 2 ==> Durable(w.threads) < k)
  {
    var w := Run(f, Launched(), turns);
    LaunchedIsLive(f);
    RunSays(f, Launched(), turns);
    WriterLogSize(WriterSaid(w.threads));
    SaidMeansDurable(f, w.threads, k);
    if WriterSaid(w.threads) > PER_COMMAND * (k - 1) { SaidMeansAnnounced(f, w.threads, k); }
    if MainSaid(f, w.threads.main) >= 3 { ObservedMeansOffered(f, w.threads); }
  }

  lemma {:induction false} WriterLogSize(n: nat)
    ensures |WriterLog(n)| == n
  {
    if n > 0 { WriterLogSize(n - 1); }
  }

  // ---- the holds ----

  /** How many markers the writer gets to say before it is held. */
  function HeldAfter(f: Failpoint): nat {
    match f
    case BeforeCommit => 1
    case AfterCommitBeforeReceipt => 4
    case AfterReceiptBeforeNotification => 7
    case ShutdownDrain => PER_COMMAND + 1
    case _ => PER_COMMAND
  }

  lemma {:induction false} SaidIsHeld(f: Failpoint, t: Threads)
    requires Known(f, t)
    ensures WriterSaid(t) <= HeldAfter(f)
  {
    if t.writer.Serving? { assert HoldsBefore(f, t.writer.ordinal) ==> SaidOf(t.writer.stage) <= 1; }
  }

  /** The writer never says more than the case allows: it stays at the boundary it is held at. */
  lemma {:induction false} HeldAtBoundary(f: Failpoint, turns: seq<Turn>)
    ensures |Side(Run(f, Launched(), turns).markers, false)| <= HeldAfter(f)
  {
    LaunchedIsLive(f);
    RunSays(f, Launched(), turns);
    WriterLogSize(WriterSaid(Run(f, Launched(), turns).threads));
    SaidIsHeld(f, Run(f, Launched(), turns).threads);
  }

  /** An ambiguous commit waits for the parent. */
  predicate Unreleased(t: Threads) {
    !t.released && t.resolved == 0 &&
    (t.writer.Serving? ==> t.writer.ordinal == 1 && Before(t.writer.stage) && !t.writer.stage.Commit?)
  }

  lemma {:induction false} StaysUnreleased(w: Worker, turn: Turn)
    requires Known(CommitAmbiguous, w.threads) && Unreleased(w.threads) && !turn.Release?
    ensures Unreleased(Step(CommitAmbiguous, w, turn).threads)
  {
  }

  lemma {:induction false} RunUnreleased(w: Worker, turns: seq<Turn>)
    requires Live(CommitAmbiguous, w) && GateInv(w.threads) && Keeps(CommitAmbiguous, w) && Unreleased(w.threads)
    requires Release !in turns
    ensures Unreleased(Run(CommitAmbiguous, w, turns).threads)
    decreases |turns|
  {
    if turns != [] {
      StaysUnreleased(w, turns[0]);
      StepLive(CommitAmbiguous, w, turns[0]);
      StepSays(CommitAmbiguous, w, turns[0]);
      RunUnreleased(Step(CommitAmbiguous, w, turns[0]), turns[1..]);
    }
  }

  /** Without the parent's release an ambiguous commit is entered and does not happen. */
  lemma {:induction false} NothingWithoutRelease(turns: seq<Turn>)
    requires Release !in turns
    ensures Run(CommitAmbiguous, Launched(), turns).database == Projection(ITEMS, 0)
  {
    LaunchedIsLive(CommitAmbiguous);
    RunUnreleased(Launched(), turns);
    RunSays(CommitAmbiguous, Launched(), turns);
  }

  lemma MainDoesNotRelease(f: Failpoint, t: Threads)
    requires MainMove(f, t).Some?
    ensures MainMove(f, t).value.threads.released == t.released
  {
  }

  lemma BeforeDoesNotRelease(f: Failpoint, t: Threads, k: nat, stage: Stage, accepted: bool)
    requires BeforeMove(f, t, k, stage, accepted).Some?
    ensures BeforeMove(f, t, k, stage, accepted).value.threads.released == t.released
  {
  }

  lemma AfterDoesNotRelease(f: Failpoint, t: Threads, k: nat, stage: Stage)
    requires AfterMove(f, t, k, stage).Some?
    ensures AfterMove(f, t, k, stage).value.threads.released == t.released
  {
  }

  lemma {:induction false} WriterDoesNotRelease(f: Failpoint, t: Threads, accepted: bool)
    requires WriterMove(f, t, accepted).Some?
    ensures WriterMove(f, t, accepted).value.threads.released == t.released
  {
    if t.writer.Serving? {
      if Before(t.writer.stage) {
        BeforeDoesNotRelease(f, t, t.writer.ordinal, t.writer.stage, accepted);
      } else {
        AfterDoesNotRelease(f, t, t.writer.ordinal, t.writer.stage);
      }
    }
  }

  lemma PerformKeepsMarks(w: Worker, move: Move, m: Mark)
    requires move.threads.released == w.threads.released && (w.threads.released ==> m in w.markers)
    ensures Perform(w, Some(move)).threads.released ==> m in Perform(w, Some(move)).markers
  {
  }

  lemma {:induction false} ReleaseWaits(w: Worker, turn: Turn)
    requires w.threads.released ==> Target(CommitAmbiguous) in w.markers
    ensures var w' := Step(CommitAmbiguous, w, turn);
            w'.threads.released ==> Target(CommitAmbiguous) in w'.markers
  {
    var f := CommitAmbiguous;
    match turn
    case Main =>
      var move := MainMove(f, w.threads);
      if move.Some? {
        MainDoesNotRelease(f, w.threads);
        PerformKeepsMarks(w, move.value, Target(f));
      }
    case Writer =>
      var move := WriterMove(f, w.threads, Accepts(w));
      if move.Some? {
        WriterDoesNotRelease(f, w.threads, Accepts(w));
        PerformKeepsMarks(w, move.value, Target(f));
      }
    case Release =>
  }

  lemma {:induction false} ReleaseAlwaysWaits(w: Worker, turns: seq<Turn>)
    requires w.threads.released ==> Target(CommitAmbiguous) in w.markers
    ensures var w' := Run(CommitAmbiguous, w, turns);
            w'.threads.released ==> Target(CommitAmbiguous) in w'.markers
    decreases |turns|
  {
    if turns != [] {
      ReleaseWaits(w, turns[0]);
      ReleaseAlwaysWaits(Step(CommitAmbiguous, w, turns[0]), turns[1..]);
    }
  }

  /** The parent releases an ambiguous commit only after it was entered. */
  lemma {:induction false} ReleasedAfterEntered(turns: seq<Turn>)
    ensures var w := Run(CommitAmbiguous, Launched(), turns);
            w.threads.released ==> (CommitEntered, 1) in w.markers
  {
    ReleaseAlwaysWaits(Launched(), turns);
  }
}
