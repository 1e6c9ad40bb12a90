/**
 The crash worker and the parent that kills it. The worker's main thread submits
 completions and its writer thread commits them; hooks emit markers and hold the
 writer at the boundary of the chosen failpoint. The parent stops the process at any
 time after it saw the marker of that boundary, then classifies the database.

 The steps of the two threads interleave freely. A hold never ends: the worker's hold
 timeout exceeds the time the parent waits for its marker.
 */
module CrashWorker {
  import opened Wrappers
  import opened MarkerText
  import opened CrashMarkers
  import opened RowVersions

  datatype Failpoint =
    | Normal | BeforeCommit | CommitAmbiguous | AfterCommitBeforeReceipt
    | AfterReceiptBeforeNotification | ShutdownDrain

  /** The work items of the crash scenario. */
  const ITEMS: nat := 3

  datatype MainPc =
    | EmitReady | StartWriter | Submit(ordinal: nat) | Admit(ordinal: nat) | OpenGate(ordinal: nat)
    | AwaitReceipt | AwaitNotification | EmitObserved | AwaitSecond
    | EmitShutdown | CloseWriter | HoldForParent | AwaitDrain | EmitDrained | Exited | Failed

  datatype Stage =
    | Gate | Dispatch | EmitPreCommit | SetBoundary | HoldBefore | EmitEntered | AwaitRelease | Commit
    | EmitConfirmed | EmitCloseEntered | HoldClose | EmitClosed | Resolve | EmitResolved
    | EmitNotification | HoldNotification | Offer | SignalOffered

  /** `Serving(k, stage)` is the writer at a stage of its k-th command. */
  datatype WriterPc = NotStarted | Waiting | Serving(ordinal: nat, stage: Stage) | Closed | Broken

  /** The threads and the events they wait for. `submitted` counts the commands that were
      queued, `admitted` the open admission gates, `preCommitted` the commands that
      reached their pre-commit boundary, `resolved` the resolved receipts. */
  datatype Threads = Threads(
    main: MainPc, writer: WriterPc,
    submitted: nat, admitted: nat, preCommitted: nat, resolved: nat,
    notified: bool, closing: bool, released: bool)

  type Mark = (Marker, nat)

  /** What a step does outside the threads. */
  datatype Effect = Silent | Emits(mark: Mark) | Commits(ordinal: nat)

  datatype Move = Move(threads: Threads, effect: Effect)

  // ---- the main thread; `None` is a thread that waits ----

  function Go(t: Threads, main: MainPc): Option<Move> { Some(Move(t.(main := main), Silent)) }

  function Say(t: Threads, main: MainPc, marker: Marker, ordinal: nat): Option<Move> {
    Some(Move(t.(main := main), Emits((marker, ordinal))))
  }

  function AfterAdmit(k: nat): MainPc {
    if k == 1 then AwaitReceipt else if k == 2 then AwaitSecond else EmitShutdown
  }

  function MainMove(f: Failpoint, t: Threads): Option<Move> {
    match t.main
    case EmitReady => Say(t, StartWriter, WorkerReady, 0)
    case StartWriter => Go(t.(writer := Waiting), Submit(1))
    case Submit(k) => Go(t.(submitted := t.submitted + 1), Admit(k))
    case Admit(k) => Say(t, OpenGate(k), CommandAdmitted, k)
    case OpenGate(k) => Go(t.(admitted := k), AfterAdmit(k))
    case AwaitReceipt =>
      if t.writer.Broken? then Go(t, MainPc.Failed) else if t.resolved >= 1 then Go(t, AwaitNotification) else None
    case AwaitNotification => if t.notified then Go(t, EmitObserved) else None
    case EmitObserved => Say(t, if f == ShutdownDrain then Submit(2) else EmitShutdown, CommandObserved, 1)
    case AwaitSecond => if t.preCommitted >= 2 then Go(t, Submit(3)) else None
    case EmitShutdown => Say(t, CloseWriter, ShutdownEntered, 0)
    case CloseWriter => Go(t.(closing := true), if f == ShutdownDrain then HoldForParent else AwaitDrain)
    case HoldForParent => None
    case AwaitDrain =>
      if t.writer.Closed? then Go(t, EmitDrained) else if t.writer.Broken? then Go(t, MainPc.Failed) else None
    case EmitDrained => Say(t, Exited, ShutdownDrained, 0)
    case Exited => None
    case Failed => None
  }

  // ---- the writer thread ----

  function To(t: Threads, k: nat, stage: Stage): Option<Move> {
    Some(Move(t.(writer := Serving(k, stage)), Silent))
  }

  function Tell(t: Threads, k: nat, stage: Stage, marker: Marker): Option<Move> {
    Some(Move(t.(writer := Serving(k, stage)), Emits((marker, k))))
  }

  predicate HoldsBefore(f: Failpoint, k: nat) { (f == BeforeCommit && k == 1) || (f == ShutdownDrain && k == 2) }

  /** Up to the commit; `accepted` says whether the database takes the command. */
  function BeforeMove(f: Failpoint, t: Threads, k: nat, stage: Stage, accepted: bool): Option<Move> {
    match stage
    case Gate => if k <= t.admitted then To(t, k, Dispatch) else None
    case Dispatch => if accepted then To(t, k, EmitPreCommit) else Some(Move(t.(writer := Broken), Silent))
    case EmitPreCommit => Tell(t, k, SetBoundary, PreCommit)
    case SetBoundary => To(t.(preCommitted := k), k, HoldBefore)
    case HoldBefore => if HoldsBefore(f, k) then None else To(t, k, EmitEntered)
    case EmitEntered => Tell(t, k, AwaitRelease, CommitEntered)
    case AwaitRelease => if f == CommitAmbiguous && k == 1 && !t.released then None else To(t, k, Commit)
    case _ => Some(Move(t.(writer := Serving(k, EmitConfirmed)), Commits(k)))
  }

  function AfterMove(f: Failpoint, t: Threads, k: nat, stage: Stage): Option<Move> {
    match stage
    case EmitConfirmed => Tell(t, k, EmitCloseEntered, CommitConfirmed)
    case EmitCloseEntered => Tell(t, k, HoldClose, SessionCloseEntered)
    case HoldClose => if f == AfterCommitBeforeReceipt && k == 1 then None else To(t, k, EmitClosed)
    case EmitClosed => Tell(t, k, Resolve, SessionClosed)
    case Resolve => To(t.(resolved := k), k, EmitResolved)
    case EmitResolved => Tell(t, k, EmitNotification, ReceiptResolved)
    case EmitNotification => Tell(t, k, HoldNotification, NotificationEntered)
    case HoldNotification => if f == AfterReceiptBeforeNotification && k == 1 then None else To(t, k, Offer)
    case Offer => Tell(t, k, SignalOffered, NotificationOffered)
    case _ => Some(Move(t.(notified := true, writer := Waiting), Silent))
  }

  predicate Before(stage: Stage) {
    || stage.Gate? || stage.Dispatch? || stage.EmitPreCommit? || stage.SetBoundary? || stage.HoldBefore?
    || stage.EmitEntered? || stage.AwaitRelease? || stage.Commit?
  }

  /** Commands are taken in the order they were queued. */
  function WriterMove(f: Failpoint, t: Threads, accepted: bool): Option<Move> {
    match t.writer
    case Waiting =>
      if t.resolved < t.submitted then To(t, t.resolved + 1, Gate)
      else if t.closing then Some(Move(t.(writer := Closed), Silent)) else None
    case Serving(k, stage) => if Before(stage) then BeforeMove(f, t, k, stage, accepted) else AfterMove(f, t, k, stage)
    case _ => None
  }

  // ---- the parent ----

  /** The marker and ordinal at which the parent acts. */
  function Target(f: Failpoint): Mark {
    match f
    case Normal => (ShutdownDrained, 0)
    case BeforeCommit => (PreCommit, 1)
    case CommitAmbiguous => (CommitEntered, 1)
    case AfterCommitBeforeReceipt => (SessionCloseEntered, 1)
    case AfterReceiptBeforeNotification => (NotificationEntered, 1)
    case ShutdownDrain => (ShutdownEntered, 0)
  }

  // ---- the process ----

  datatype Worker = Worker(threads: Threads, database: Database, markers: seq<Mark>)

  function Launched(): Worker {
    Worker(Threads(EmitReady, NotStarted, 0, 0, 0, 0, false, false, false), Projection(ITEMS, 0), [])
  }

  function Completion(k: nat): Command { CompletionCommand(ITEMS, if k == 0 then 0 else k - 1) }

  function Perform(w: Worker, move: Option<Move>): Worker {
    if move.None? then w
    else
      var m := move.value;
      match m.effect
      case Silent => w.(threads := m.threads)
      case Emits(mark) => Worker(m.threads, w.database, w.markers + [mark])
      case Commits(k) =>
        var after := Apply(w.database, Completion(k));
        Worker(m.threads, if after.Some? then after.value else w.database, w.markers)
  }

  predicate Accepts(w: Worker) {
    w.threads.writer.Serving? && Apply(w.database, Completion(w.threads.writer.ordinal)).Some?
  }

  datatype Turn = Main | Writer | Release

  /** The parent releases an ambiguous commit only after it saw the commit entered. */
  function Step(f: Failpoint, w: Worker, turn: Turn): Worker {
    match turn
    case Main => Perform(w, MainMove(f, w.threads))
    case Writer => Perform(w, WriterMove(f, w.threads, Accepts(w)))
    case Release => if f == CommitAmbiguous && Target(f) in w.markers
        then w.(threads := w.threads.(released := true)) else w
  }

  function Run(f: Failpoint, w: Worker, turns: seq<Turn>): Worker
    decreases |turns|
  {
    if turns == [] then w else Run(f, Step(f, w, turns[0]), turns[1..])
  }

  // ---- what every interleaving of the threads keeps ----

  predicate AfterResolve(stage: Stage) {
    stage.EmitResolved? || stage.EmitNotification? || stage.HoldNotification? || stage.Offer? || stage.SignalOffered?
  }

  /** How many completions are durable, read off the writer's position. */
  function Durable(t: Threads): nat {
    if t.writer.Serving? && !Before(t.writer.stage) then t.writer.ordinal else t.resolved
  }

  predicate UpToHold(stage: Stage) {
    stage.Gate? || stage.Dispatch? || stage.EmitPreCommit? || stage.SetBoundary? || stage.HoldBefore?
  }

  predicate ServingInv(f: Failpoint, t: Threads, k: nat, stage: Stage) {
    && 1 <= k <= t.submitted
    && t.resolved == (if AfterResolve(stage) then k else k - 1)
    && (HoldsBefore(f, k) ==> UpToHold(stage))
  }

  predicate WriterInv(f: Failpoint, t: Threads) {
    && t.resolved <= t.submitted <= ITEMS
    && (t.submitted >= 2 ==> f == ShutdownDrain && t.resolved >= 1)
    && (f == BeforeCommit ==> t.resolved == 0)
    && (f == ShutdownDrain ==> t.resolved <= 1)
    && match t.writer
       case NotStarted => t.submitted == 0
       case Waiting => true
       case Serving(k, stage) => ServingInv(f, t, k, stage)
       case Closed => t.resolved == t.submitted && t.closing
       case Broken => false
  }

  predicate MainInv(f: Failpoint, t: Threads) {
    match t.main
    case EmitReady => t.writer.NotStarted? && !t.closing
    case StartWriter => t.writer.NotStarted? && !t.closing
    case Submit(k) =>
      && t.submitted == k - 1 && !t.closing && !t.writer.NotStarted?
      && (k == 1 || (f == ShutdownDrain && 2 <= k <= 3 && t.resolved >= 1))
    case Admit(k) => t.submitted == k && 1 <= k <= 3 && !t.closing
    case OpenGate(k) => t.submitted == k && 1 <= k <= 3 && !t.closing
    case AwaitReceipt => t.submitted == 1 && !t.closing
    case AwaitNotification => t.submitted == 1 && t.resolved >= 1 && !t.closing
    case EmitObserved => t.submitted == 1 && t.resolved >= 1 && !t.closing
    case AwaitSecond => t.submitted == 2 && !t.closing
    case Failed => false
    case _ => t.resolved >= 1
  }

  predicate ThreadsInv(f: Failpoint, t: Threads) { WriterInv(f, t) && MainInv(f, t) }

  /** The markers behind which the first completion is durable. */
  predicate Promises(m: Mark) {
    m == (SessionCloseEntered, 1) || m == (NotificationEntered, 1) || m == (ShutdownEntered, 0)
      || m == (ShutdownDrained, 0)
  }

  /** A move keeps the threads in order, commits exactly the next completion, and emits a
      promising marker only behind it. */
  predicate GoodMove(f: Failpoint, t: Threads, move: Move) {
    && ThreadsInv(f, move.threads)
    && (if move.effect.Commits? then move.effect.ordinal == Durable(t) + 1 == Durable(move.threads) <= ITEMS
        else Durable(move.threads) == Durable(t))
    && (move.effect.Emits? && Promises(move.effect.mark) ==> Durable(t) >= 1)
  }

  lemma {:induction false} MainIsGood(f: Failpoint, t: Threads)
    requires ThreadsInv(f, t) && MainMove(f, t).Some?
    ensures GoodMove(f, t, MainMove(f, t).value)
  {
    MainKeepsWriter(f, t);
    MainKeepsMain(f, t);
    MainPromises(f, t);
  }

  /** The writer notices of the main thread only new commands and the close. */
  lemma WriterUndisturbed(f: Failpoint, t: Threads, t': Threads)
    requires WriterInv(f, t) && t'.writer == t.writer && t'.resolved == t.resolved
    requires t'.submitted == t.submitted
        || (t'.submitted == t.submitted + 1 <= ITEMS && !t.closing && !t.writer.NotStarted?)
    requires t'.submitted >= 2 ==> f == ShutdownDrain && t.resolved >= 1
    requires t.closing ==> t'.closing
    ensures WriterInv(f, t') && Durable(t') == Durable(t)
  {
  }

  lemma {:induction false} MainKeepsWriter(f: Failpoint, t: Threads)
    requires ThreadsInv(f, t) && MainMove(f, t).Some?
    ensures var move := MainMove(f, t).value;
            WriterInv(f, move.threads) && Durable(move.threads) == Durable(t) && !move.effect.Commits?
  {
    var t' := MainMove(f, t).value.threads;
    if !t.main.StartWriter? {
      WriterUndisturbed(f, t, t');
    }
  }

  lemma MainPromises(f: Failpoint, t: Threads)
    requires ThreadsInv(f, t) && MainMove(f, t).Some?
    ensures var move := MainMove(f, t).value;
            move.effect.Emits? && Promises(move.effect.mark) ==> Durable(t) >= 1
  {
  }

  lemma {:induction false} MainKeepsMain(f: Failpoint, t: Threads)
    requires ThreadsInv(f, t) && MainMove(f, t).Some?
    ensures MainInv(f, MainMove(f, t).value.threads)
  {
    var main' := MainMove(f, t).value.threads.main;
    match t.main
    case EmitReady => assert main' == StartWriter;
    case StartWriter => assert main' == Submit(1);
    case Submit(k) => assert main' == Admit(k);
    case Admit(k) => assert main' == OpenGate(k);
    case OpenGate(k) => assert main' == AfterAdmit(k);
    case AwaitReceipt => assert main' == AwaitNotification;
    case AwaitNotification => assert main' == EmitObserved;
    case EmitObserved => assert main' == Submit(2) || main' == EmitShutdown;
    case AwaitSecond => assert main' == Submit(3);
    case EmitShutdown => assert main' == CloseWriter;
    case CloseWriter => assert main' == HoldForParent || main' == AwaitDrain;
    case AwaitDrain => assert main' == EmitDrained;
    case EmitDrained => assert main' == Exited;
    case _ =>
  }

  /** The main thread does not notice the writer's steps. */
  lemma MainUndisturbed(f: Failpoint, t: Threads, t': Threads)
    requires MainInv(f, t) && t'.main == t.main && t'.submitted == t.submitted && t'.closing == t.closing
    requires t'.resolved >= t.resolved && !t.writer.NotStarted? && !t'.writer.NotStarted?
    ensures MainInv(f, t')
  {
  }

  lemma {:induction false} BeforeIsGood(f: Failpoint, t: Threads, k: nat, stage: Stage)
    requires ThreadsInv(f, t) && t.writer == Serving(k, stage) && Before(stage)
        && BeforeMove(f, t, k, stage, true).Some?
    ensures GoodMove(f, t, BeforeMove(f, t, k, stage, true).value)
  {
    MainUndisturbed(f, t, BeforeMove(f, t, k, stage, true).value.threads);
  }

  lemma {:induction false} AfterIsGood(f: Failpoint, t: Threads, k: nat, stage: Stage)
    requires ThreadsInv(f, t) && t.writer == Serving(k, stage) && !Before(stage) && AfterMove(f, t, k, stage).Some?
    ensures GoodMove(f, t, AfterMove(f, t, k, stage).value)
  {
    MainUndisturbed(f, t, AfterMove(f, t, k, stage).value.threads);
  }

  lemma {:induction false} WriterIsGood(f: Failpoint, t: Threads)
    requires ThreadsInv(f, t) && WriterMove(f, t, true).Some?
    ensures GoodMove(f, t, WriterMove(f, t, true).value)
  {
    if t.writer.Serving? {
      if Before(t.writer.stage) {
        BeforeIsGood(f, t, t.writer.ordinal, t.writer.stage);
      } else {
        AfterIsGood(f, t, t.writer.ordinal, t.writer.stage);
      }
    }
  }

  // ---- what every interleaving of the process keeps ----

  predicate Inv(f: Failpoint, w: Worker) {
    && ThreadsInv(f, w.threads) && Durable(w.threads) <= ITEMS
    && w.database == Projection(ITEMS, Durable(w.threads))
    && (forall m :: m in w.markers && Promises(m) ==> Durable(w.threads) >= 1)
  }

  lemma {:induction false} PerformKeeps(f: Failpoint, w: Worker, move: Move)
    requires Inv(f, w) && GoodMove(f, w.threads, move)
    ensures Inv(f, Perform(w, Some(move)))
  {
    if move.effect.Commits? {
      CompletionAccepted(ITEMS, Durable(w.threads));
    }
  }

  /** The writer's next command is always one the database accepts. */
  lemma {:induction false} NextIsAccepted(f: Failpoint, w: Worker)
    requires Inv(f, w) && w.threads.writer.Serving? && Before(w.threads.writer.stage)
    ensures Accepts(w)
  {
    CompletionAccepted(ITEMS, Durable(w.threads));
  }

  lemma {:induction false} StepKeeps(f: Failpoint, w: Worker, turn: Turn)
    requires Inv(f, w)
    ensures Inv(f, Step(f, w, turn))
  {
    match turn
    case Main =>
      if MainMove(f, w.threads).Some? {
        MainIsGood(f, w.threads);
        PerformKeeps(f, w, MainMove(f, w.threads).value);
      }
    case Writer =>
      if w.threads.writer.Serving? && Before(w.threads.writer.stage) {
        NextIsAccepted(f, w);
      }
      assert WriterMove(f, w.threads, Accepts(w)) == WriterMove(f, w.threads, true);
      if WriterMove(f, w.threads, true).Some? {
        WriterIsGood(f, w.threads);
        PerformKeeps(f, w, WriterMove(f, w.threads, true).value);
      }
    case Release =>
  }

  lemma {:induction false} RunKeeps(f: Failpoint, w: Worker, turns: seq<Turn>)
    requires Inv(f, w)
    ensures Inv(f, Run(f, w, turns))
    decreases |turns|
  {
    if turns != [] {
      StepKeeps(f, w, turns[0]);
      RunKeeps(f, Step(f, w, turns[0]), turns[1..]);
    }
  }

  // ---- classification and recovery ----

  datatype Outcome = Absent | Committed

  /** Exactly the old or exactly the new state; anything else is an integrity error. */
  function Classify(database: Database): Option<Outcome> {
    if database == Projection(ITEMS, 0) then Some(Absent)
    else if database == Projection(ITEMS, 1) then Some(Committed)
    else None
  }

  function Expected(f: Failpoint): set<Outcome> {
    match f
    case BeforeCommit => {Absent}
    case CommitAmbiguous => {Absent, Committed}
    case _ => {Committed}
  }

  datatype CaseResult = CaseResult(observed: Outcome, final: Outcome, retried: bool, database: Database)

  /** The part of a case after the worker stopped: classify, retry once if the target is absent, classify again. */
  function Recover(f: Failpoint, database: Database): Option<CaseResult> {
    var observed := Classify(database);
    if observed.None? || observed.value !in Expected(f) then None
    else
      var retry := observed.value == Absent;
      var after := if retry then Apply(database, Completion(1)) else Some(database);
      if after.None? then None
      else
        var final := Classify(after.value);
        if final == Some(Committed) then Some(CaseResult(observed.value, Committed, retry, after.value)) else None
  }

  lemma {:induction false} DurableAtTarget(f: Failpoint, w: Worker)
    requires Inv(f, w) && Target(f) in w.markers
    ensures f == BeforeCommit ==> Durable(w.threads) == 0
    ensures f == CommitAmbiguous ==> Durable(w.threads) <= 1
    ensures f != BeforeCommit && f != CommitAmbiguous ==> Durable(w.threads) == 1
  {
    assert f != BeforeCommit && f != CommitAmbiguous ==> Promises(Target(f));
  }

  lemma {:induction false} ProjectionsDiffer()
    ensures Projection(ITEMS, 0) != Projection(ITEMS, 1)
  {
    assert Projection(ITEMS, 0).runVersion != Projection(ITEMS, 1).runVersion;
  }

  /** Whichever way the threads interleave and whenever after its marker the worker is
      stopped, the case succeeds: the outcome is one of those expected, the target is
      retried exactly when it is absent, and it ends applied exactly once. */
  lemma {:induction false} EveryCaseRecovers(f: Failpoint, turns: seq<Turn>)
    requires Target(f) in Run(f, Launched(), turns).markers
    ensures var w := Run(f, Launched(), turns);
            var r := Recover(f, w.database);
            && r.Some? && r.value.observed in Expected(f)
            && r.value.retried == (r.value.observed == Absent)
            && r.value.final == Committed && r.value.database == Projection(ITEMS, 1)
  {
    var w := Run(f, Launched(), turns);
    RunKeeps(f, Launched(), turns);
    DurableAtTarget(f, w);
    ProjectionsDiffer();
    if Durable(w.threads) == 0 {
      CompletionAccepted(ITEMS, 0);
    }
  }

  // ---- the boundary is always reached ----

  predicate Closes(main: MainPc) { main.AwaitDrain? || main.EmitDrained? || main.Exited? }

  predicate ShutsDown(main: MainPc) { main.EmitShutdown? || main.CloseWriter? || main.HoldForParent? || Closes(main) }

  predicate PastPreCommit(writer: WriterPc) {
    && writer.Serving? && writer.ordinal >= 2
    && !writer.stage.Gate? && !writer.stage.Dispatch? && !writer.stage.EmitPreCommit? && !writer.stage.SetBoundary?
  }

  /** Nobody waits for something that will not come: an unopened gate has the main thread
      on its way to it, and every receipt is followed by its notification. */
  predicate WaitInv(f: Failpoint, t: Threads) {
    && t.submitted == t.admitted + (if t.main.Admit? || t.main.OpenGate? then 1 else 0)
    && (t.resolved >= 1 ==> t.notified || (t.writer.Serving? && t.writer.ordinal == 1))
    && (PastPreCommit(t.writer) ==> t.preCommitted >= 2)
    && (t.main.AwaitDrain? ==> t.closing)
    && (Closes(t.main) ==> f != ShutdownDrain)
    && (t.main.HoldForParent? ==> f == ShutdownDrain)
    && (ShutsDown(t.main) || t.main.EmitObserved? || t.submitted >= 2 || t.main == Submit(2) ==> t.notified)
  }

  /** The marker of the boundary was emitted. */
  predicate PassedTarget(f: Failpoint, t: Threads) {
    match f
    case Normal => t.main.Exited?
    case BeforeCommit => t.writer == Serving(1, SetBoundary) || t.writer == Serving(1, HoldBefore)
    case CommitAmbiguous => t.resolved >= 1
        || (t.writer.Serving? && (t.writer.stage.AwaitRelease? || t.writer.stage.Commit? || !Before(t.writer.stage)))
    case AfterCommitBeforeReceipt => t.writer == Serving(1, HoldClose)
    case AfterReceiptBeforeNotification => t.writer == Serving(1, HoldNotification)
    case ShutdownDrain => t.main.CloseWriter? || t.main.HoldForParent?
  }

  /** The writer does not get past the boundary that holds it. */
  predicate HoldInv(f: Failpoint, t: Threads) {
    && (f == AfterCommitBeforeReceipt ==>
        t.resolved == 0 && (t.writer.Serving? ==> !t.writer.stage.EmitClosed? && !t.writer.stage.Resolve?))
    && (f == AfterReceiptBeforeNotification ==>
          !t.notified && (t.writer.Serving? ==> !t.writer.stage.Offer? && !t.writer.stage.SignalOffered?))
  }

  predicate LiveInv(f: Failpoint, t: Threads) { ThreadsInv(f, t) && WaitInv(f, t) && HoldInv(f, t) }

  /** Two threads that both wait are past the marker. */
  lemma OnlyHeldWaits(f: Failpoint, t: Threads)
    requires LiveInv(f, t) && MainMove(f, t).None? && WriterMove(f, t, true).None?
    ensures PassedTarget(f, t)
  {
  }

  /** A move keeps the threads live and passes the boundary only by emitting its marker. */
  predicate LiveMove(f: Failpoint, t: Threads, move: Move) {
    && WaitInv(f, move.threads) && HoldInv(f, move.threads)
    && (PassedTarget(f, move.threads) && !PassedTarget(f, t) ==> move.effect == Emits(Target(f)))
  }

  predicate BeforeObserved(main: MainPc) {
    || main.EmitReady? || main.StartWriter? || main.Submit? || main.Admit? || main.OpenGate?
    || main.AwaitReceipt? || main.AwaitNotification?
  }

  lemma {:induction false} EarlyMainWaits(f: Failpoint, t: Threads)
    requires LiveInv(f, t) && MainMove(f, t).Some? && BeforeObserved(t.main)
    ensures WaitInv(f, MainMove(f, t).value.threads)
  {
    var main' := MainMove(f, t).value.threads.main;
    match t.main
    case EmitReady => assert main' == StartWriter;
    case StartWriter => assert main' == Submit(1);
    case Submit(k) => assert main' == Admit(k);
    case Admit(k) => assert main' == OpenGate(k);
    case OpenGate(k) => assert main' == AfterAdmit(k);
    case AwaitReceipt => assert main' == AwaitNotification;
    case AwaitNotification => assert main' == EmitObserved;
  }

  lemma {:induction false} MainWaits(f: Failpoint, t: Threads)
    requires LiveInv(f, t) && MainMove(f, t).Some?
    ensures WaitInv(f, MainMove(f, t).value.threads)
  {
    if BeforeObserved(t.main) {
      EarlyMainWaits(f, t);
    } else {
      var main' := MainMove(f, t).value.threads.main;
      match t.main
      case EmitObserved => assert main' == Submit(2) || main' == EmitShutdown;
      case AwaitSecond => assert main' == Submit(3);
      case EmitShutdown => assert main' == CloseWriter;
      case CloseWriter => assert main' == HoldForParent || main' == AwaitDrain;
      case AwaitDrain => assert main' == EmitDrained;
      case EmitDrained => assert main' == Exited;
      case _ =>
    }
  }

  lemma {:induction false} MainPasses(f: Failpoint, t: Threads)
    requires LiveInv(f, t) && MainMove(f, t).Some?
    ensures var move := MainMove(f, t).value;
            HoldInv(f, move.threads) && (PassedTarget(f, move.threads) && !PassedTarget(f, t) ==>
              move.effect == Emits(Target(f)))
  {
    var move := MainMove(f, t).value;
    assert move.threads.writer == t.writer || (t.main.StartWriter? && move.threads.writer == Waiting);
    assert move.threads.resolved == t.resolved && move.threads.notified == t.notified;
  }

  lemma {:induction false} MainIsLive(f: Failpoint, t: Threads)
    requires LiveInv(f, t) && MainMove(f, t).Some?
    ensures LiveMove(f, t, MainMove(f, t).value)
  {
    MainWaits(f, t);
    MainPasses(f, t);
  }

  lemma {:induction false} BeforeIsLive(f: Failpoint, t: Threads, k: nat, stage: Stage)
    requires LiveInv(f, t) && t.writer == Serving(k, stage) && Before(stage) && BeforeMove(f, t, k, stage, true).Some?
    ensures LiveMove(f, t, BeforeMove(f, t, k, stage, true).value)
  {
    BeforePasses(f, t, k, stage);
    BeforeWaits(f, t, k, stage);
  }

  lemma {:induction false} BeforeWaits(f: Failpoint, t: Threads, k: nat, stage: Stage)
    requires LiveInv(f, t) && t.writer == Serving(k, stage) && Before(stage) && BeforeMove(f, t, k, stage, true).Some?
    ensures WaitInv(f, BeforeMove(f, t, k, stage, true).value.threads)
  {
    var t' := BeforeMove(f, t, k, stage, true).value.threads;
    assert t'.main == t.main && t'.resolved == t.resolved && t'.notified == t.notified;
    assert t'.writer.Serving? && t'.writer.ordinal == k;
  }

  lemma BeforePasses(f: Failpoint, t: Threads, k: nat, stage: Stage)
    requires ThreadsInv(f, t) && t.writer == Serving(k, stage) && Before(stage)
        && BeforeMove(f, t, k, stage, true).Some?
    ensures var move := BeforeMove(f, t, k, stage, true).value;
            PassedTarget(f, move.threads) && !PassedTarget(f, t) ==> move.effect == Emits(Target(f))
  {
  }

  lemma AfterWaits(f: Failpoint, t: Threads, k: nat, stage: Stage)
    requires LiveInv(f, t) && t.writer == Serving(k, stage) && !Before(stage) && AfterMove(f, t, k, stage).Some?
    ensures WaitInv(f, AfterMove(f, t, k, stage).value.threads)
  {
  }

  lemma AfterPasses(f: Failpoint, t: Threads, k: nat, stage: Stage)
    requires LiveInv(f, t) && t.writer == Serving(k, stage) && !Before(stage) && AfterMove(f, t, k, stage).Some?
    ensures var move := AfterMove(f, t, k, stage).value;
            && HoldInv(f, move.threads)
            && (PassedTarget(f, move.threads) && !PassedTarget(f, t) ==> move.effect == Emits(Target(f)))
  {
  }

  lemma {:induction false} AfterIsLive(f: Failpoint, t: Threads, k: nat, stage: Stage)
    requires LiveInv(f, t) && t.writer == Serving(k, stage) && !Before(stage) && AfterMove(f, t, k, stage).Some?
    ensures LiveMove(f, t, AfterMove(f, t, k, stage).value)
  {
    AfterWaits(f, t, k, stage);
    AfterPasses(f, t, k, stage);
  }

  lemma {:induction false} WriterIsLive(f: Failpoint, t: Threads)
    requires LiveInv(f, t) && WriterMove(f, t, true).Some?
    ensures LiveMove(f, t, WriterMove(f, t, true).value)
  {
    if t.writer.Serving? {
      if Before(t.writer.stage) {
        BeforeIsLive(f, t, t.writer.ordinal, t.writer.stage);
      } else {
        AfterIsLive(f, t, t.writer.ordinal, t.writer.stage);
      }
    }
  }

  // ---- and every step comes closer to it ----

  function MainLeft(main: MainPc): nat {
    match main
    case EmitReady => 23
    case StartWriter => 22
    case Submit(k) => if k <= 1 then 21 else if k == 2 then 15 else 11
    case Admit(k) => if k <= 1 then 20 else if k == 2 then 14 else 10
    case OpenGate(k) => if k <= 1 then 19 else if k == 2 then 13 else 9
    case AwaitReceipt => 18
    case AwaitNotification => 17
    case EmitObserved => 16
    case AwaitSecond => 12
    case EmitShutdown => 8
    case CloseWriter => 7
    case HoldForParent => 6
    case AwaitDrain => 6
    case EmitDrained => 5
    case Exited => 0
    case Failed => 0
  }

  function StageLeft(stage: Stage): nat {
    match stage
    case Gate => 19 case Dispatch => 18 case EmitPreCommit => 17 case SetBoundary => 16 case HoldBefore => 15
    case EmitEntered => 14 case AwaitRelease => 13 case Commit => 12 case EmitConfirmed => 11
    case EmitCloseEntered => 10 case HoldClose => 9 case EmitClosed => 8 case Resolve => 7 case EmitResolved => 6
    case EmitNotification => 5 case HoldNotification => 4 case Offer => 3 case SignalOffered => 2
  }

  function WriterLeft(writer: WriterPc, resolved: nat): int {
    match writer
    case NotStarted => 20 * ITEMS + 1
    case Waiting => 20 * (ITEMS - resolved) + 1
    case Serving(k, stage) => 20 * (ITEMS - k) + StageLeft(stage)
    case Closed => 0
    case Broken => 0
  }

  /** An upper bound on the moves that are left to the two threads. */
  function MovesLeft(t: Threads): int { MainLeft(t.main) + WriterLeft(t.writer, t.resolved) }

  lemma MovesBounded(f: Failpoint, t: Threads)
    requires ThreadsInv(f, t)
    ensures 0 <= MovesLeft(t) <= 84
  {
  }

  lemma MainAdvances(f: Failpoint, t: Threads)
    requires MainInv(f, t) && MainMove(f, t).Some?
    ensures MainLeft(MainMove(f, t).value.threads.main) < MainLeft(t.main)
  {
  }

  lemma {:induction false} MainMovesOn(f: Failpoint, t: Threads)
    requires ThreadsInv(f, t) && MainMove(f, t).Some?
    ensures MovesLeft(MainMove(f, t).value.threads) < MovesLeft(t)
  {
    MainAdvances(f, t);
    var t' := MainMove(f, t).value.threads;
    assert t'.resolved == t.resolved && (t'.writer == t.writer || (t.main.StartWriter? && t'.writer == Waiting));
  }

  lemma ServingMovesOn(f: Failpoint, t: Threads, k: nat, stage: Stage)
    requires t.writer == Serving(k, stage)
    ensures Before(stage) && BeforeMove(f, t, k, stage, true).Some? ==>
        MovesLeft(BeforeMove(f, t, k, stage, true).value.threads) < MovesLeft(t)
    ensures !Before(stage) && AfterResolve(stage) && t.resolved == k && AfterMove(f, t, k, stage).Some? ==>
              MovesLeft(AfterMove(f, t, k, stage).value.threads) < MovesLeft(t)
    ensures !Before(stage) && !AfterResolve(stage) && AfterMove(f, t, k, stage).Some? ==>
              MovesLeft(AfterMove(f, t, k, stage).value.threads) < MovesLeft(t)
  {
  }

  lemma {:induction false} WriterMovesOn(f: Failpoint, t: Threads)
    requires ThreadsInv(f, t) && WriterMove(f, t, true).Some?
    ensures MovesLeft(WriterMove(f, t, true).value.threads) < MovesLeft(t)
  {
    if t.writer.Serving? {
      ServingMovesOn(f, t, t.writer.ordinal, t.writer.stage);
    }
  }

  /** All that holds in every reachable state of the worker. */
  predicate Live(f: Failpoint, w: Worker) {
    Inv(f, w) && LiveInv(f, w.threads) && (PassedTarget(f, w.threads) ==> Target(f) in w.markers)
  }

  lemma {:induction false} PerformLive(f: Failpoint, w: Worker, move: Move)
    requires Live(f, w) && GoodMove(f, w.threads, move) && LiveMove(f, w.threads, move)
    ensures Live(f, Perform(w, Some(move)))
  {
    PerformKeeps(f, w, move);
  }

  lemma {:induction false} StepLive(f: Failpoint, w: Worker, turn: Turn)
    requires Live(f, w)
    ensures Live(f, Step(f, w, turn))
  {
    match turn
    case Main =>
      if MainMove(f, w.threads).Some? {
        MainIsGood(f, w.threads);
        MainIsLive(f, w.threads);
        PerformLive(f, w, MainMove(f, w.threads).value);
      }
    case Writer =>
      AcceptedOrIdle(f, w);
      if WriterMove(f, w.threads, true).Some? {
        WriterIsGood(f, w.threads);
        WriterIsLive(f, w.threads);
        PerformLive(f, w, WriterMove(f, w.threads, true).value);
      }
    case Release =>
  }

  lemma {:induction false} AcceptedOrIdle(f: Failpoint, w: Worker)
    requires Inv(f, w)
    ensures WriterMove(f, w.threads, Accepts(w)) == WriterMove(f, w.threads, true)
  {
    if w.threads.writer.Serving? && Before(w.threads.writer.stage) {
      NextIsAccepted(f, w);
    }
  }

  lemma {:induction false} RunLive(f: Failpoint, w: Worker, turns: seq<Turn>)
    requires Live(f, w)
    ensures Live(f, Run(f, w, turns))
    decreases |turns|
  {
    if turns != [] {
      StepLive(f, w, turns[0]);
      RunLive(f, Step(f, w, turns[0]), turns[1..]);
    }
  }

  lemma {:induction false} LiveMovesOn(f: Failpoint, w: Worker) returns (turn: Turn)
    requires Live(f, w) && Target(f) !in w.markers
    ensures MovesLeft(Step(f, w, turn).threads) < MovesLeft(w.threads)
  {
    AcceptedOrIdle(f, w);
    if MainMove(f, w.threads).Some? {
      turn := Main;
      MainMovesOn(f, w.threads);
    } else {
      turn := Writer;
      if WriterMove(f, w.threads, true).None? {
        OnlyHeldWaits(f, w.threads);
      } else {
        WriterMovesOn(f, w.threads);
      }
    }
  }

  /** From every reachable state the boundary can still be reached, and it takes no more
      moves than are left to the two threads. */
  lemma {:induction false} BoundaryIsReached(f: Failpoint, w: Worker) returns (turns: seq<Turn>)
    requires Live(f, w)
    ensures Target(f) in Run(f, w, turns).markers
    ensures |turns| <= MovesLeft(w.threads) <= 84
    decreases MovesLeft(w.threads)
  {
    MovesBounded(f, w.threads);
    if Target(f) in w.markers {
      turns := [];
    } else {
      var turn := LiveMovesOn(f, w);
      StepLive(f, w, turn);
      MovesBounded(f, Step(f, w, turn).threads);
      var rest := BoundaryIsReached(f, Step(f, w, turn));
      turns := [turn] + rest;
      assert turns[1..] == rest;
    }
  }

  lemma LaunchedIsLive(f: Failpoint)
    ensures Live(f, Launched())
  {
  }

  /** No interleaving keeps the parent waiting: however the threads ran so far, the marker
      it waits for is at most 84 moves away. */
  lemma {:induction false} ParentIsServed(f: Failpoint, turns: seq<Turn>) returns (more: seq<Turn>)
    ensures Target(f) in Run(f, Run(f, Launched(), turns), more).markers && |more| <= 84
  {
    LaunchedIsLive(f);
    RunLive(f, Launched(), turns);
    more := BoundaryIsReached(f, Run(f, Launched(), turns));
  }
}
