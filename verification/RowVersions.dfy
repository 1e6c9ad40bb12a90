/**
 The optimistic row-version schedule of the crash database: one run with one node and
 n work items, created, started, and then bootstrapped and claimed one by one, before
 completions move it on. Every command is one transaction: it applies whole or not at all.
 */
module RowVersions {
  import opened Wrappers

  datatype WorkState = Pending | Working | Succeeded

  /** A work row and the head row of its partition. */
  datatype Work = Work(id: nat, state: WorkState, rowVersion: nat, attempts: nat, checkpoint: nat, headVersion: nat)

  function PendingRow(id: nat): Work { Work(id, Pending, 1, 0, 0, 1) }

  /** The aggregate of the node's work; its status is a function of these counts. */
  datatype Node = Node(started: bool, rowVersion: nat, total: nat, pending: nat, running: nat, succeeded: nat)

  datatype Event = RunCreated | RunStarted | WorkCreated(work: nat) | WorkClaimed(work: nat)
    | CheckpointCommitted(work: nat)

  datatype RunState = Missing | Queued | RunRunning

  /** `counter` is both the next event sequence number and the counter's row version:
      every append advances the two together. */
  datatype Database = Database(
    run: RunState, runVersion: nat, counter: nat, node: Node, works: seq<Work>, events: seq<Event>)

  function Empty(): Database { Database(Missing, 0, 0, Node(false, 0, 0, 0, 0, 0), [], []) }

  datatype Command =
    | CreateRun(sequence: nat)
    | StartRun(run: nat, sequence: nat)
    | Bootstrap(work: nat, node: nat, run: nat, sequence: nat)
    | Claim(work: nat, row: nat, node: nat, run: nat, sequence: nat)
    | Complete(work: nat, row: nat, node: nat, run: nat, sequence: nat)

  // ---- the work table ----

  predicate Holds(works: seq<Work>, id: nat) {
    exists i :: 0 <= i < |works| && works[i].id == id
  }

  /** The first row at or after `i` of a work item, or the end of the table. */
  function RowFrom(works: seq<Work>, id: nat, i: nat): (row: nat)
    requires i <= |works|
    ensures i <= row <= |works|
    ensures row < |works| ==> works[row].id == id
    ensures forall j :: i <= j < row ==> works[j].id != id
    decreases |works| - i
  {
    if i == |works| || works[i].id == id then i else RowFrom(works, id, i + 1)
  }

  function RowOf(works: seq<Work>, id: nat): nat { RowFrom(works, id, 0) }

  // ---- the parts of a transaction ----

  /** Appending at the frontier advances the counter; appending again exactly what was
      appended last is accepted as a replay and changes nothing. */
  function Append(db: Database, sequence: nat, event: Event): Option<Database> {
    if db.counter == sequence + 1 then
      if 1 <= sequence <= |db.events| && db.events[sequence - 1] == event then Some(db) else None
    else if db.counter != sequence then None
    else Some(db.(counter := sequence + 1, events := db.events + [event]))
  }

  /** The rows in a state among the first `n`. */
  function CountTo(works: seq<Work>, state: WorkState, n: nat): nat
    requires n <= |works|
  {
    if n == 0 then 0 else CountTo(works, state, n - 1) + if works[n - 1].state == state then 1 else 0
  }

  function CountIn(works: seq<Work>, state: WorkState): nat { CountTo(works, state, |works|) }

  /** All work of the node has ended. */
  predicate Terminal(node: Node) { node.total > 0 && node.pending == 0 && node.running == 0 }

  /** The stored aggregate must be the one that the given counts determine. */
  predicate Matches(node: Node, pending: int, running: int, succeeded: int) {
    && node.pending == pending && node.running == running && node.succeeded == succeeded
    && node.total == pending + running + succeeded
  }

  /** Check the stored aggregate against the work table with the change reversed, then
      store what the table now holds. */
  function Aggregate(
      db: Database, expected: nat, dPending: int, dRunning: int, dSucceeded: int, started: bool): Option<Database> {
    var pending := CountIn(db.works, Pending);
    var running := CountIn(db.works, Working);
    var succeeded := CountIn(db.works, Succeeded);
    if db.node.rowVersion != expected then None
    else if !Matches(db.node, pending - dPending, running - dRunning, succeeded - dSucceeded) then None
    else
      Some(db.(node := Node(started, expected + 1, pending + running + succeeded, pending, running, succeeded)))
  }

  function Advance(db: Database, expected: nat): Option<Database> {
    if db.run.Missing? || db.runVersion != expected then None else Some(db.(runVersion := expected + 1))
  }

  // ---- the commands ----

  /** What a command does to the work table, and what it reports about it. */
  datatype Change = Change(works: seq<Work>, event: Event, dPending: int, dRunning: int, dSucceeded: int, started: bool)

  predicate OnWork(c: Command) { c.Bootstrap? || c.Claim? || c.Complete? }

  function WorkChange(db: Database, c: Command): Option<Change>
    requires OnWork(c)
  {
    var i := RowOf(db.works, c.work);
    match c
    case Bootstrap(work, _, _, _) =>
      if db.run.Missing? || i < |db.works| || Terminal(db.node) then None
      else Some(Change(db.works + [PendingRow(work)], WorkCreated(work), 1, 0, 0, db.node.started))
    case Claim(work, row, _, _, _) =>
      if db.run != RunRunning || i == |db.works| || db.works[i].rowVersion != row || db.works[i].state != Pending then
        None
      else Some(Change(db.works[i := db.works[i].(state := Working, rowVersion := row + 1)],
                       WorkClaimed(work), -1, 1, 0, true))
    case Complete(work, row, _, _, _) =>
      if i == |db.works| || db.works[i].rowVersion != row || db.works[i].state != Working then None
      else if db.works[i].headVersion != db.works[i].checkpoint + 1 then None
      else if Terminal(db.node) || !db.node.started then None
      else
        var w := db.works[i];
        // the completion and the checkpoint each advance the row once
        Some(Change(db.works[i := Work(work, Succeeded, row + 2, w.attempts + 1, w.checkpoint + 1, w.headVersion + 1)],
                    CheckpointCommitted(work), 0, -1, 1, true))
  }

  /** Event, aggregate and run revision, in the order the writer applies them. */
  function Companions(db: Database, change: Change, sequence: nat, node: nat, run: nat): Option<Database> {
    var appended := Append(db.(works := change.works), sequence, change.event);
    if appended.None? then None
    else
      var aggregated := Aggregate(appended.value, node, change.dPending, change.dRunning, change.dSucceeded,
          change.started);
      if aggregated.None? then None else Advance(aggregated.value, run)
  }

  function Apply(db: Database, c: Command): Option<Database> {
    match c
    case CreateRun(sequence) =>
      if !db.run.Missing? then None
      else Append(db.(run := Queued, runVersion := 1, counter := 1, node := Node(false, 1, 0, 0, 0, 0)),
                  sequence, RunCreated)
    case StartRun(run, sequence) =>
      if db.run != Queued || db.runVersion != run then None
      else Append(db.(run := RunRunning, runVersion := run + 1), sequence, RunStarted)
    case _ =>
      var change := WorkChange(db, c);
      if change.None? then None else Companions(db, change.value, c.sequence, c.node, c.run)
  }

  function ApplyAll(db: Database, commands: seq<Command>): Option<Database>
    decreases |commands|
  {
    if commands == [] then Some(db)
    else
      var first := Apply(db, commands[0]);
      if first.None? then None else ApplyAll(first.value, commands[1..])
  }

  // ---- every accepted command keeps the aggregate true ----

  /** The node row tells the truth about the work table, and the counter about the log. */
  predicate Consistent(db: Database) {
    && Matches(db.node, CountIn(db.works, Pending), CountIn(db.works, Working), CountIn(db.works, Succeeded))
    && UniqueIds(db.works)
    && (db.run.Missing? ==> db.events == [] && db.node.total == 0 && db.runVersion == 0)
    && (!db.run.Missing? ==> db.counter == |db.events| + 1)
  }

  lemma CompanionsKeep(db: Database, change: Change, sequence: nat, node: nat, run: nat)
    requires !db.run.Missing? && db.counter == |db.events| + 1
    requires Companions(db, change, sequence, node, run).Some? && UniqueIds(change.works)
    ensures var db' := Companions(db, change, sequence, node, run).value;
            && Consistent(db') && db'.works == change.works && db'.runVersion == db.runVersion + 1 && db'.run == db.run
  {
  }

  lemma {:induction false} CreateKeepsConsistent(db: Database, sequence: nat)
    requires Consistent(db) && Apply(db, CreateRun(sequence)).Some?
    ensures Consistent(Apply(db, CreateRun(sequence)).value)
  {
    var db' := Apply(db, CreateRun(sequence)).value;
    assert db'.works == db.works && |db'.events| == 1;
  }

  /** Whatever command a caller sends, an accepted one leaves a consistent database. */
  lemma {:induction false} ApplyKeepsConsistent(db: Database, c: Command)
    requires Consistent(db) && Apply(db, c).Some?
    ensures Consistent(Apply(db, c).value)
  {
    if c.CreateRun? {
      CreateKeepsConsistent(db, c.sequence);
    } else if OnWork(c) {
      WorkChangeMovesOn(db, c);
      CompanionsKeep(db, WorkChange(db, c).value, c.sequence, c.node, c.run);
    }
  }

  // ---- no command applies twice ----

  predicate RowPassed(works: seq<Work>, id: nat, row: nat) {
    exists i :: 0 <= i < |works| && works[i].id == id && works[i].rowVersion > row
  }

  /** What the versions have passed, for good. */
  predicate Passed(db: Database, c: Command) {
    match c
    case CreateRun(_) => !db.run.Missing?
    case StartRun(run, _) => !db.run.Missing? && db.runVersion > run
    case Bootstrap(work, _, _, _) => Holds(db.works, work)
    case Claim(work, row, _, _, _) => RowPassed(db.works, work, row)
    case Complete(work, row, _, _, _) => RowPassed(db.works, work, row)
  }

  /** Rows are never deleted and versions never fall. */
  predicate NotBefore(db: Database, db': Database) {
    && (!db.run.Missing? ==> !db'.run.Missing?)
    && db'.runVersion >= db.runVersion
    && |db'.works| >= |db.works|
    && (forall i :: 0 <= i < |db.works| ==>
        db'.works[i].id == db.works[i].id && db'.works[i].rowVersion >= db.works[i].rowVersion)
  }

  predicate UniqueIds(works: seq<Work>) {
    forall i, j :: 0 <= i < j < |works| ==> works[i].id != works[j].id
  }

  lemma {:induction false} WorkChangeMovesOn(db: Database, c: Command)
    requires OnWork(c) && WorkChange(db, c).Some? && UniqueIds(db.works)
    ensures var works := WorkChange(db, c).value.works;
            UniqueIds(works) && NotBefore(db, db.(works := works)) && Passed(db.(works := works), c)
  {
    var works := WorkChange(db, c).value.works;
    var i := RowOf(db.works, c.work);
    assert works[i].id == c.work;
  }

  lemma {:induction false} ApplyMovesOn(db: Database, c: Command)
    requires Consistent(db) && Apply(db, c).Some?
    ensures NotBefore(db, Apply(db, c).value) && Passed(Apply(db, c).value, c)
  {
    if OnWork(c) {
      WorkChangeMovesOn(db, c);
      CompanionsKeep(db, WorkChange(db, c).value, c.sequence, c.node, c.run);
    }
  }

  lemma {:induction false} ApplyAllMovesOn(db: Database, commands: seq<Command>)
    requires Consistent(db) && ApplyAll(db, commands).Some?
    ensures NotBefore(db, ApplyAll(db, commands).value) && Consistent(ApplyAll(db, commands).value)
    decreases |commands|
  {
    if commands != [] {
      ApplyMovesOn(db, commands[0]);
      ApplyKeepsConsistent(db, commands[0]);
      ApplyAllMovesOn(Apply(db, commands[0]).value, commands[1..]);
    }
  }

  /** A command that was applied once is rejected ever after, whatever came in between. */
  lemma {:induction false} AppliedOnce(db: Database, c: Command, later: seq<Command>)
    requires Consistent(db) && Apply(db, c).Some?
    requires ApplyAll(Apply(db, c).value, later).Some?
    ensures Apply(ApplyAll(Apply(db, c).value, later).value, c).None?
  {
    ApplyMovesOn(db, c);
    ApplyKeepsConsistent(db, c);
    ApplyAllMovesOn(Apply(db, c).value, later);
  }

  /** The event log alone would not reject the repetition: it takes it for a replay. */
  lemma LogAcceptsReplay(db: Database, sequence: nat, event: Event)
    requires !db.run.Missing? && db.counter == |db.events| + 1 && sequence >= 1
    requires Append(db, sequence, event).Some?
    ensures Append(Append(db, sequence, event).value, sequence, event) == Append(db, sequence, event)
  {
  }

  // ---- the schedule for n work items ----

  function BootstrapCommand(i: nat): Command { Bootstrap(i, 1 + 2 * i, 2 + 2 * i, 3 + 2 * i) }

  function ClaimCommand(i: nat): Command { Claim(i, 1, 2 + 2 * i, 3 + 2 * i, 4 + 2 * i) }

  function CompletionCommand(n: nat, i: nat): Command { Complete(i, 2, 1 + 2 * n + i, 2 + 2 * n + i, 3 + 2 * n + i) }

  /** Create and start, then bootstrap and claim each of the items. */
  function Schedule(n: nat): seq<Command> {
    if n == 0 then [CreateRun(1), StartRun(1, 2)] else Schedule(n - 1) + [BootstrapCommand(n - 1), ClaimCommand(n - 1)]
  }

  function Completions(n: nat, done: nat): seq<Command> {
    if done == 0 then [] else Completions(n, done - 1) + [CompletionCommand(n, done - 1)]
  }

  function WorkRow(i: nat, done: nat): Work {
    if i < done then Work(i, Succeeded, 4, 1, 1, 2) else Work(i, Working, 2, 0, 0, 1)
  }

  function WorkTable(n: nat, done: nat): seq<Work> {
    seq(n, (i: nat) => WorkRow(i, done))
  }

  function ScheduleEvents(n: nat): (events: seq<Event>)
    ensures |events| == 2 + 2 * n
  {
    if n == 0 then [RunCreated, RunStarted] else ScheduleEvents(n - 1) + [WorkCreated(n - 1), WorkClaimed(n - 1)]
  }

  function CompletionEvents(done: nat): (events: seq<Event>)
    ensures |events| == done
  {
    if done == 0 then [] else CompletionEvents(done - 1) + [CheckpointCommitted(done - 1)]
  }

  /** The projection the harness compares with: n items claimed, the first `done` of them completed. */
  function Projection(n: nat, done: nat): Database
    requires done <= n
  {
    Database(
      RunRunning, 2 + 2 * n + done, 3 + 2 * n + done,
      Node(n > 0, 1 + 2 * n + done, n, 0, n - done, done),
      WorkTable(n, done), ScheduleEvents(n) + CompletionEvents(done))
  }

  predicate Counts(works: seq<Work>, pending: nat, running: nat, succeeded: nat) {
    CountIn(works, Pending) == pending && CountIn(works, Working) == running && CountIn(works, Succeeded) == succeeded
  }

  lemma {:induction false} CountPrefix(works: seq<Work>, w: Work, state: WorkState, n: nat)
    requires n <= |works|
    ensures CountTo(works + [w], state, n) == CountTo(works, state, n)
  {
    if n > 0 { CountPrefix(works, w, state, n - 1); }
  }

  lemma {:induction false} CountAppend(works: seq<Work>, w: Work, state: WorkState)
    ensures CountIn(works + [w], state) == CountIn(works, state) + if w.state == state then 1 else 0
  {
    CountPrefix(works, w, state, |works|);
  }

  /** One more row, and what it adds to the counts. */
  lemma {:induction false} CountsAppend(works: seq<Work>, w: Work, pending: nat, running: nat, succeeded: nat)
    requires Counts(works, pending, running, succeeded)
    ensures Counts(works + [w], pending + (if w.state.Pending? then 1 else 0),
                   running + (if w.state.Working? then 1 else 0), succeeded + (if w.state.Succeeded? then 1 else 0))
  {
    CountAppend(works, w, Pending);
    CountAppend(works, w, Working);
    CountAppend(works, w, Succeeded);
  }

  lemma {:induction false} CountRows(n: nat, done: nat)
    requires done <= n
    ensures Counts(WorkTable(n, done), 0, n - done, done)
  {
    if n > 0 {
      var before := if done == n then n - 1 else done;
      CountRows(n - 1, before);
      CountsAppend(WorkTable(n - 1, before), WorkRow(n - 1, done), 0, n - 1 - before, before);
      assert WorkTable(n, done) == WorkTable(n - 1, before) + [WorkRow(n - 1, done)];
    }
  }

  lemma {:induction false} ProjectionConsistent(n: nat, done: nat)
    requires done <= n
    ensures Consistent(Projection(n, done))
  {
    CountRows(n, done);
  }

  lemma {:induction false} ApplyAllConcat(db: Database, first: seq<Command>, second: seq<Command>)
    requires ApplyAll(db, first).Some?
    ensures ApplyAll(db, first + second) == ApplyAll(ApplyAll(db, first).value, second)
    decreases |first|
  {
    if first == [] {
      assert first + second == second;
    } else {
      assert (first + second)[1..] == first[1..] + second;
      ApplyAllConcat(Apply(db, first[0]).value, first[1..], second);
    }
  }

  /** One more accepted command at the end. */
  lemma {:induction false} ApplyLast(db: Database, first: seq<Command>, mid: Database, c: Command)
    requires ApplyAll(db, first) == Some(mid)
    ensures ApplyAll(db, first + [c]) == Apply(mid, c)
  {
    ApplyAllConcat(db, first, [c]);
    assert [c][1..] == [];
  }

  function BootstrappedTable(n: nat): seq<Work> {
    WorkTable(n, 0) + [PendingRow(n)]
  }

  /** Halfway between two prepared databases: item n is bootstrapped and not yet claimed. */
  function Bootstrapped(n: nat): Database {
    Database(
      RunRunning, 3 + 2 * n, 4 + 2 * n,
      Node(n > 0, 2 + 2 * n, n + 1, 1, n, 0),
      BootstrappedTable(n), ScheduleEvents(n) + [WorkCreated(n)])
  }

  /** The database after an accepted change that leaves the given counts. */
  function After(db: Database, change: Change, pending: nat, running: nat, succeeded: nat): Database {
    Database(db.run, db.runVersion + 1, db.counter + 1,
             Node(change.started, db.node.rowVersion + 1, pending + running + succeeded, pending, running, succeeded),
             change.works, db.events + [change.event])
  }

  /** A change whose expectations all hold is accepted. */
  lemma Accepted(db: Database, c: Command, change: Change, pending: nat, running: nat, succeeded: nat)
    requires OnWork(c) && WorkChange(db, c) == Some(change) && Counts(change.works, pending, running, succeeded)
    requires !db.run.Missing? && db.counter == c.sequence == |db.events| + 1 && db.node.rowVersion == c.node
        && db.runVersion == c.run
    requires Matches(db.node, pending - change.dPending, running - change.dRunning, succeeded - change.dSucceeded)
    ensures Apply(db, c) == Some(After(db, change, pending, running, succeeded))
  {
  }

  lemma {:induction false} CountBootstrapped(n: nat)
    ensures Counts(BootstrappedTable(n), 1, n, 0)
  {
    CountRows(n, 0);
    CountsAppend(WorkTable(n, 0), PendingRow(n), 0, n, 0);
  }

  lemma {:induction false} BootstrapChange(n: nat)
    ensures WorkChange(Projection(n, 0), BootstrapCommand(n)) ==
        Some(Change(BootstrappedTable(n), WorkCreated(n), 1, 0, 0, n > 0))
    ensures Projection(n, 0).events == ScheduleEvents(n)
  {
    assert !Holds(WorkTable(n, 0), n);
  }

  lemma {:induction false} BootstrapAccepted(n: nat)
    ensures Apply(Projection(n, 0), BootstrapCommand(n)) == Some(Bootstrapped(n))
  {
    var change := Change(BootstrappedTable(n), WorkCreated(n), 1, 0, 0, n > 0);
    BootstrapChange(n);
    CountBootstrapped(n);
    Accepted(Projection(n, 0), BootstrapCommand(n), change, 1, n, 0);
    assert After(Projection(n, 0), change, 1, n, 0) == Bootstrapped(n);
  }

  lemma {:induction false} ClaimChange(n: nat)
    ensures WorkChange(Bootstrapped(n), ClaimCommand(n)) ==
        Some(Change(WorkTable(n + 1, 0), WorkClaimed(n), -1, 1, 0, true))
    ensures Bootstrapped(n).events + [WorkClaimed(n)] == Projection(n + 1, 0).events
  {
    var works := BootstrappedTable(n);
    assert works[n].id == n;
    assert RowOf(works, n) == n;
    assert works[n].(state := Working, rowVersion := 2) == WorkRow(n, 0);
    assert works[n := WorkRow(n, 0)] == WorkTable(n + 1, 0);
    assert Bootstrapped(n).events + [WorkClaimed(n)] == ScheduleEvents(n + 1);
  }

  lemma {:induction false} ClaimAccepted(n: nat)
    ensures Apply(Bootstrapped(n), ClaimCommand(n)) == Some(Projection(n + 1, 0))
  {
    var change := Change(WorkTable(n + 1, 0), WorkClaimed(n), -1, 1, 0, true);
    ClaimChange(n);
    CountRows(n + 1, 0);
    Accepted(Bootstrapped(n), ClaimCommand(n), change, 0, n + 1, 0);
    assert After(Bootstrapped(n), change, 0, n + 1, 0) == Projection(n + 1, 0);
  }

  lemma {:induction false} StartAccepted()
    ensures ApplyAll(Empty(), [CreateRun(1), StartRun(1, 2)]) == Some(Projection(0, 0))
  {
    var created := Database(Queued, 1, 2, Node(false, 1, 0, 0, 0, 0), [], [RunCreated]);
    assert [] + [RunCreated] == [RunCreated];
    assert Apply(Empty(), CreateRun(1)) == Some(created);
    assert [RunCreated] + [RunStarted] == [RunCreated, RunStarted];
    assert Apply(created, StartRun(1, 2)) ==
        Some(created.(run := RunRunning, runVersion := 2, counter := 3, events := [RunCreated, RunStarted]));
    assert Projection(0, 0).events == [RunCreated, RunStarted] && WorkTable(0, 0) == [];
    assert [CreateRun(1)] == [] + [CreateRun(1)] && [CreateRun(1)] + [StartRun(1, 2)] == [CreateRun(1), StartRun(1, 2)];
    ApplyLast(Empty(), [], Empty(), CreateRun(1));
    ApplyLast(Empty(), [CreateRun(1)], created, StartRun(1, 2));
  }

  lemma {:induction false} HalfStep(n: nat)
    requires ApplyAll(Empty(), Schedule(n)) == Some(Projection(n, 0))
    ensures ApplyAll(Empty(), Schedule(n) + [BootstrapCommand(n)]) == Some(Bootstrapped(n))
  {
    BootstrapAccepted(n);
    ApplyLast(Empty(), Schedule(n), Projection(n, 0), BootstrapCommand(n));
  }

  lemma {:induction false} ScheduleStep(n: nat)
    requires ApplyAll(Empty(), Schedule(n)) == Some(Projection(n, 0))
    ensures ApplyAll(Empty(), Schedule(n + 1)) == Some(Projection(n + 1, 0))
  {
    var half := Schedule(n) + [BootstrapCommand(n)];
    HalfStep(n);
    ClaimAccepted(n);
    ApplyLast(Empty(), half, Bootstrapped(n), ClaimCommand(n));
    assert Schedule(n + 1) == half + [ClaimCommand(n)];
  }

  /** Every version check of the schedule passes and it ends at the prepared projection. */
  lemma {:induction false} SchedulePrepares(n: nat)
    ensures ApplyAll(Empty(), Schedule(n)) == Some(Projection(n, 0))
  {
    if n == 0 {
      StartAccepted();
    } else {
      SchedulePrepares(n - 1);
      ScheduleStep(n - 1);
    }
  }

  lemma {:induction false} CompletionChange(n: nat, done: nat)
    requires done < n
    ensures WorkChange(Projection(n, done), CompletionCommand(n, done)) ==
            Some(Change(WorkTable(n, done + 1), CheckpointCommitted(done), 0, -1, 1, true))
    ensures Projection(n, done).events + [CheckpointCommitted(done)] == Projection(n, done + 1).events
  {
    assert WorkTable(n, done)[done].id == done;
    assert RowOf(WorkTable(n, done), done) == done;
    assert WorkTable(n, done)[done := WorkRow(done, done + 1)] == WorkTable(n, done + 1);
    assert Projection(n, done).events + [CheckpointCommitted(done)] == ScheduleEvents(n) + CompletionEvents(done + 1);
  }

  /** The next completion is accepted and moves to the next projection. */
  lemma {:induction false} CompletionAccepted(n: nat, done: nat)
    requires done < n
    ensures Apply(Projection(n, done), CompletionCommand(n, done)) == Some(Projection(n, done + 1))
  {
    var change := Change(WorkTable(n, done + 1), CheckpointCommitted(done), 0, -1, 1, true);
    CompletionChange(n, done);
    CountRows(n, done + 1);
    Accepted(Projection(n, done), CompletionCommand(n, done), change, 0, n - done - 1, done + 1);
    assert After(Projection(n, done), change, 0, n - done - 1, done + 1) == Projection(n, done + 1);
  }

  lemma {:induction false} CompletionsStep(n: nat, done: nat)
    requires done < n && ApplyAll(Empty(), Schedule(n) + Completions(n, done)) == Some(Projection(n, done))
    ensures ApplyAll(Empty(), Schedule(n) + Completions(n, done + 1)) ==
        Apply(Projection(n, done), CompletionCommand(n, done))
  {
    var before := Schedule(n) + Completions(n, done);
    assert Schedule(n) + Completions(n, done + 1) == before + [CompletionCommand(n, done)];
    ApplyLast(Empty(), before, Projection(n, done), CompletionCommand(n, done));
  }

  /** From nothing to any number of completions, in one run of accepted commands. */
  lemma {:induction false} CompletionsApply(n: nat, done: nat)
    requires done <= n
    ensures ApplyAll(Empty(), Schedule(n) + Completions(n, done)) == Some(Projection(n, done))
  {
    if done == 0 {
      SchedulePrepares(n);
      assert Schedule(n) + Completions(n, 0) == Schedule(n);
    } else {
      CompletionsApply(n, done - 1);
      CompletionsStep(n, done - 1);
      CompletionAccepted(n, done - 1);
    }
  }

  /** A completion that was applied is rejected in every later projection. */
  lemma {:induction false} CompletionRejectedAgain(n: nat, i: nat, done: nat)
    requires i < done <= n
    ensures Apply(Projection(n, done), CompletionCommand(n, i)).None?
  {
    assert WorkTable(n, done)[i].id == i;
  }

  // ---- what an accepted command expects ----

  /** The row a command on existing work expects, if it expects one. */
  predicate ExpectsRow(db: Database, c: Command) {
    c.Claim? || c.Complete? ==>
      exists i :: 0 <= i < |db.works| && db.works[i].id == c.work && db.works[i].rowVersion == c.row
  }

  /** A command is accepted only if everything it expects is current: the event sequence, the run
      revision, the node revision and the work row. Anything stale is rejected. */
  lemma {:induction false} AcceptedIsCurrent(db: Database, c: Command)
    requires Consistent(db) && Apply(db, c).Some? && OnWork(c)
    ensures c.run == db.runVersion && c.node == db.node.rowVersion && ExpectsRow(db, c)
    ensures c.sequence == db.counter || c.sequence + 1 == db.counter
  {
    var change := WorkChange(db, c).value;
    var i := RowOf(db.works, c.work);
    if !c.Bootstrap? { assert db.works[i].id == c.work && db.works[i].rowVersion == c.row; }
  }
}
