/**
 The durable marker protocol of the crash worker: every marker is appended to the
 ledger and synced before the same bytes appear on stdout, under one lock.

 The emitter is interleaved atomic steps of any number of threads; a crash is any
 point between two of them. Appending and syncing one record is one step.
 */
module CrashMarkers {
  import opened Wrappers
  import opened MarkerText

  // ---- the emitter as steps of many threads ----

  type ThreadId = nat

  datatype Stage = Idle | Holding | Bumped | Built(record: MarkerRecord) | Appended(record: MarkerRecord)

  datatype Request = Request(marker: Marker, ordinal: int)

  /** `at` is the thread inside the lock, if any; the others are outside or waiting. */
  datatype Emitter = Emitter(
    invocation: Invocation,
    sequence: nat,
    at: Option<ThreadId>,
    stage: Stage,
    request: Request,
    ledger: seq<MarkerRecord>,
    stdout: seq<MarkerRecord>)

  function Opened(invocation: Invocation): Emitter {
    Emitter(invocation, 0, None, Idle, Request(WorkerReady, 0), [], [])
  }

  datatype Action = Enter(thread: ThreadId, request: Request) | Continue

  /** The next step of the thread that holds the lock. */
  function Next(e: Emitter): Emitter {
    match e.stage
    case Idle => e
    case Holding => e.(sequence := e.sequence + 1, stage := Bumped)
    case Bumped =>
      var r := MarkerRecord(e.invocation, e.sequence, e.request.ordinal, e.request.marker);
      if Constructible(r) then e.(stage := Built(r)) else e.(at := None, stage := Idle)
    case Built(r) => e.(ledger := e.ledger + [r], stage := Appended(r))
    case Appended(r) => e.(stdout := e.stdout + [r], at := None, stage := Idle)
  }

  function Step(e: Emitter, a: Action): Emitter {
    match a
    case Enter(thread, request) =>
      if e.at.None? then e.(at := Some(thread), stage := Holding, request := request) else e
    case Continue => Next(e)
  }

  function Run(e: Emitter, actions: seq<Action>): Emitter
    decreases |actions|
  {
    if actions == [] then e else Run(Step(e, actions[0]), actions[1..])
  }

  /** No thread asks for an ordinal that the record would refuse. */
  predicate ServesOrdinals(actions: seq<Action>) {
    forall i :: 0 <= i < |actions| && actions[i].Enter? ==> 0 <= actions[i].request.ordinal <= MAX_ORDINAL
  }

  predicate IsPrefix<T(==)>(s: seq<T>, t: seq<T>) {
    |s| <= |t| && t[..|s|] == s
  }

  /** What a crash leaves: stdout a prefix of the ledger, at most one record behind. */
  predicate LedgerLeads(e: Emitter) {
    IsPrefix(e.stdout, e.ledger) && |e.ledger| <= |e.stdout| + 1
  }

  predicate Numbered(e: Emitter) {
    forall i :: 0 <= i < |e.ledger| ==>
      e.ledger[i].sequence == i + 1 && e.ledger[i].invocation == e.invocation && Constructible(e.ledger[i])
  }

  predicate LockInv(e: Emitter) {
    && (e.at.None? <==> e.stage.Idle?)
    && (if e.stage.Appended? then e.ledger == e.stdout + [e.stage.record] else e.ledger == e.stdout)
  }

  /** Without refused ordinals the counter counts the records, except that past the
      limit it runs ahead and nothing is appended any more. */
  predicate CountInv(e: Emitter) {
    && 0 <= e.request.ordinal <= MAX_ORDINAL
    && |e.ledger| == (if e.sequence <= MAX_SEQUENCE then e.sequence else MAX_SEQUENCE)
                     - (if (e.stage.Bumped? || e.stage.Built?) && e.sequence <= MAX_SEQUENCE then 1 else 0)
    && (e.stage.Built? ==> e.stage.record == MarkerRecord(e.invocation, e.sequence, e.request.ordinal, e.request.marker)
                           && e.sequence <= MAX_SEQUENCE && 1 <= e.sequence)
    && Numbered(e)
  }

  lemma StepKeepsLock(e: Emitter, a: Action)
    requires LockInv(e)
    ensures LockInv(Step(e, a)) && Step(e, a).invocation == e.invocation
  {
  }

  lemma StepKeepsCount(e: Emitter, a: Action)
    requires LockInv(e) && CountInv(e)
    requires a.Enter? ==> 0 <= a.request.ordinal <= MAX_ORDINAL
    ensures CountInv(Step(e, a))
  {
  }

  lemma {:induction false} RunKeepsLock(e: Emitter, actions: seq<Action>)
    requires LockInv(e)
    ensures LockInv(Run(e, actions)) && Run(e, actions).invocation == e.invocation
    decreases |actions|
  {
    if actions != [] {
      StepKeepsLock(e, actions[0]);
      RunKeepsLock(Step(e, actions[0]), actions[1..]);
    }
  }

  lemma {:induction false} RunKeepsCount(e: Emitter, actions: seq<Action>)
    requires LockInv(e) && CountInv(e) && ServesOrdinals(actions)
    ensures CountInv(Run(e, actions))
    decreases |actions|
  {
    if actions != [] {
      StepKeepsLock(e, actions[0]);
      StepKeepsCount(e, actions[0]);
      RunKeepsCount(Step(e, actions[0]), actions[1..]);
    }
  }

  /** A crash between any two steps of any threads, whatever they ask for. */
  lemma {:induction false} CrashLeavesPrefix(invocation: Invocation, actions: seq<Action>)
    ensures LedgerLeads(Run(Opened(invocation), actions))
  {
    RunKeepsLock(Opened(invocation), actions);
  }

  /** The ledger of a crashed worker is numbered without gaps. */
  lemma {:induction false} CrashLeavesNumbers(invocation: Invocation, actions: seq<Action>)
    requires ServesOrdinals(actions)
    ensures Numbered(Run(Opened(invocation), actions))
    ensures |Run(Opened(invocation), actions).ledger| <= MAX_SEQUENCE
    ensures Run(Opened(invocation), actions).invocation == invocation
  {
    RunKeepsLock(Opened(invocation), actions);
    RunKeepsCount(Opened(invocation), actions);
  }

  // ---- refused records ----

  predicate Appends(requests: seq<Request>, i: nat)
    requires i < |requests|
  {
    i < MAX_SEQUENCE && 0 <= requests[i].ordinal <= MAX_ORDINAL
  }

  /** The ledger after emitting the requests one after the other: the counter advances
      before a record is checked, also for a record that is refused. */
  function LedgerOf(invocation: Invocation, requests: seq<Request>): (ledger: seq<MarkerRecord>)
    ensures |ledger| <= |requests|
  {
    if requests == [] then []
    else
      var n := |requests| - 1;
      LedgerOf(invocation, requests[..n]) +
      if Appends(requests, n) then [MarkerRecord(invocation, n + 1, requests[n].ordinal, requests[n].marker)] else []
  }

  /** Whatever was asked for, the ledger holds records of the invocation only. */
  predicate AllOf(invocation: Invocation, records: seq<MarkerRecord>) {
    forall i :: 0 <= i < |records| ==> Constructible(records[i]) && records[i].invocation == invocation
  }

  lemma {:induction false} LedgerOfRecords(invocation: Invocation, requests: seq<Request>)
    ensures AllOf(invocation, LedgerOf(invocation, requests))
  {
    if requests != [] { LedgerOfRecords(invocation, requests[..|requests| - 1]); }
  }

  predicate GapFree(ledger: seq<MarkerRecord>) {
    forall i :: 0 <= i < |ledger| ==> ledger[i].sequence == i + 1
  }

  /** No refused ordinal comes before a record that is appended. */
  predicate RefusedLast(requests: seq<Request>) {
    forall i, j :: 0 <= i < j < |requests| && Appends(requests, j) ==> Appends(requests, i)
  }

  lemma {:induction false} LedgerLength(invocation: Invocation, requests: seq<Request>)
    requires RefusedLast(requests)
    ensures |requests| > 0 && Appends(requests, |requests| - 1) ==> |LedgerOf(invocation, requests)| == |requests|
  {
    if |requests| > 1 && Appends(requests, |requests| - 1) {
      var n := |requests| - 1;
      assert Appends(requests, n - 1);
      assert forall i :: 0 <= i < n ==> Appends(requests[..n], i) == Appends(requests, i);
      LedgerLength(invocation, requests[..n]);
    }
  }

  lemma {:induction false} HoleStays(invocation: Invocation, requests: seq<Request>, i: nat)
    requires i < |requests| && !Appends(requests, i)
    ensures |LedgerOf(invocation, requests)| < |requests|
  {
    var n := |requests| - 1;
    if i < n {
      HoleStays(invocation, requests[..n], i);
    }
  }

  /** The numbering is without gaps exactly when nothing is appended after a refused record. */
  lemma {:induction false} GapFreeIff(invocation: Invocation, requests: seq<Request>)
    ensures GapFree(LedgerOf(invocation, requests)) <==> RefusedLast(requests)
  {
    if requests != [] {
      var n := |requests| - 1;
      var before := LedgerOf(invocation, requests[..n]);
      var ledger := LedgerOf(invocation, requests);
      GapFreeIff(invocation, requests[..n]);
      assert forall i :: 0 <= i < n ==> Appends(requests[..n], i) == Appends(requests, i);
      assert before == ledger[..|before|];
      if Appends(requests, n) {
        assert ledger[|before|].sequence == n + 1;
        if RefusedLast(requests) {
          LedgerLength(invocation, requests);
        } else if RefusedLast(requests[..n]) {
          var i :| 0 <= i < n && !Appends(requests, i);
          HoleStays(invocation, requests[..n], i);
        }
      }
    }
  }

  // ---- the ledger of every interleaving ----

  /** The requests that got the lock, in the order they got it, after those that had it before. */
  function Entered(before: seq<Request>, e: Emitter, actions: seq<Action>): seq<Request>
    decreases |actions|
  {
    if actions == [] then before else Entered(After(before, e, actions[0]), Step(e, actions[0]), actions[1..])
  }

  function After(before: seq<Request>, e: Emitter, a: Action): seq<Request> {
    if a.Enter? && e.at.None? then before + [a.request] else before
  }

  /** The last request is still before its append. */
  predicate InFlight(e: Emitter) { e.stage.Holding? || e.stage.Bumped? || e.stage.Built? }

  /** Those of the requests whose outcome is decided: appended, or refused. */
  function Decided(e: Emitter, entered: seq<Request>): seq<Request> {
    if InFlight(e) && entered != [] then entered[..|entered| - 1] else entered
  }

  /** The emitter after some requests got the lock. */
  predicate Serves(e: Emitter, entered: seq<Request>) {
    && (e.at.None? <==> e.stage.Idle?)
    && |entered| == e.sequence + (if e.stage.Holding? then 1 else 0)
    && (InFlight(e) ==> |entered| > 0 && entered[|entered| - 1] == e.request)
    && (e.stage.Built? ==>
          && Appends(entered, |entered| - 1)
          && e.stage.record == MarkerRecord(e.invocation, e.sequence, e.request.ordinal, e.request.marker))
    && e.ledger == LedgerOf(e.invocation, Decided(e, entered))
  }

  lemma {:induction false} LedgerOfLast(invocation: Invocation, requests: seq<Request>, request: Request)
    ensures LedgerOf(invocation, requests + [request]) ==
            LedgerOf(invocation, requests) +
            (if Appends(requests + [request], |requests|)
             then [MarkerRecord(invocation, |requests| + 1, request.ordinal, request.marker)] else [])
  {
    assert (requests + [request])[..|requests|] == requests;
  }

  lemma {:induction false} NextServes(e: Emitter, entered: seq<Request>)
    requires Serves(e, entered)
    ensures Serves(Next(e), entered)
  {
    if InFlight(e) {
      var before := entered[..|entered| - 1];
      assert entered == before + [e.request];
      LedgerOfLast(e.invocation, before, e.request);
    }
  }

  lemma {:induction false} StepServes(e: Emitter, entered: seq<Request>, a: Action)
    requires Serves(e, entered)
    ensures Serves(Step(e, a), After(entered, e, a))
  {
    if a.Enter? && e.at.None? {
      assert (entered + [a.request])[..|entered|] == entered;
    } else if a.Continue? {
      NextServes(e, entered);
    }
  }

  lemma {:induction false} RunServes(e: Emitter, entered: seq<Request>, actions: seq<Action>)
    requires Serves(e, entered)
    ensures Serves(Run(e, actions), Entered(entered, e, actions)) && Run(e, actions).invocation == e.invocation
    decreases |actions|
  {
    if actions != [] {
      StepServes(e, entered, actions[0]);
      RunServes(Step(e, actions[0]), After(entered, e, actions[0]), actions[1..]);
    }
  }

  /** What any threads emitted, wherever they crashed, as the requests that were decided. */
  function DecidedBy(invocation: Invocation, actions: seq<Action>): seq<Request> {
    Decided(Run(Opened(invocation), actions), Entered([], Opened(invocation), actions))
  }

  /** The ledger of every interleaving is that of its decided requests, one after the other. */
  lemma {:induction false} LedgerIsSequential(invocation: Invocation, actions: seq<Action>)
    ensures Run(Opened(invocation), actions).ledger == LedgerOf(invocation, DecidedBy(invocation, actions))
  {
    RunServes(Opened(invocation), [], actions);
  }

  /** For any threads, requests and crash point: the ledger is numbered without gaps if and
      only if nothing was appended after a refused record. */
  lemma {:induction false} RunGapFreeIff(invocation: Invocation, actions: seq<Action>)
    ensures GapFree(Run(Opened(invocation), actions).ledger) <==> RefusedLast(DecidedBy(invocation, actions))
  {
    LedgerIsSequential(invocation, actions);
    GapFreeIff(invocation, DecidedBy(invocation, actions));
  }

  /** A thread that asks for ordinal 4 is refused; the next record is the first in the
      ledger and carries the number 2. */
  lemma {:induction false} HoleAfterRefusal(invocation: Invocation)
    ensures var actions := [Enter(0, Request(PreCommit, 4)), Continue, Continue,
                            Enter(1, Request(PreCommit, 1)), Continue, Continue, Continue];
            && Run(Opened(invocation), actions).ledger == [MarkerRecord(invocation, 2, 1, PreCommit)]
            && !GapFree(Run(Opened(invocation), actions).ledger)
  {
    var refused, served := Request(PreCommit, 4), Request(PreCommit, 1);
    var actions := [Enter(0, refused), Continue, Continue, Enter(1, served), Continue, Continue, Continue];
    var e0 := Opened(invocation);
    var e3 := Next(Next(Step(e0, Enter(0, refused))));
    var e7 := Next(Next(Next(Step(e3, Enter(1, served)))));
    assert e3 == e0.(sequence := 1, request := refused);
    assert [] + [MarkerRecord(invocation, 2, 1, PreCommit)] == [MarkerRecord(invocation, 2, 1, PreCommit)];
    assert e7.ledger == [MarkerRecord(invocation, 2, 1, PreCommit)] && e7.ledger[0].sequence == 2;
    ThreeSteps(e0, Enter(0, refused), Continue, Continue, actions[3..]);
    ThreeSteps(e3, Enter(1, served), Continue, Continue, [Continue]);
    assert actions == [Enter(0, refused), Continue, Continue] + actions[3..];
    assert actions[3..] == [Enter(1, served), Continue, Continue] + [Continue];
    assert [Continue][1..] == [];
    assert Run(Next(Next(Step(e3, Enter(1, served)))), [Continue]) == e7;
  }

  lemma {:induction false} ThreeSteps(e: Emitter, a: Action, b: Action, c: Action, rest: seq<Action>)
    ensures Run(e, [a, b, c] + rest) == Run(Step(Step(Step(e, a), b), c), rest)
  {
    assert ([a, b, c] + rest)[1..] == [b, c] + rest;
    assert ([b, c] + rest)[1..] == [c] + rest;
    assert ([c] + rest)[1..] == rest;
    assert Run(Step(e, a), [b, c] + rest) == Run(Step(Step(e, a), b), [c] + rest);
  }

  // ---- the emitter object ----

  class CrashMarkerEmitter {
    const invocation: Invocation
    var sequence: nat
    var ledger: seq<MarkerRecord>
    var stdout: seq<MarkerRecord>

    constructor (invocation: Invocation)
      ensures this.invocation == invocation && sequence == 0 && ledger == [] && stdout == []
    {
      this.invocation := invocation;
      sequence, ledger, stdout := 0, [], [];
    }

    ghost function Value(): Emitter
      reads this
    {
      Emitter(invocation, sequence, None, Idle, Request(WorkerReady, 0), ledger, stdout)
    }

    /** The body of the lock: the four steps of `Next` in a row. */
    method Emit(thread: ThreadId, marker: Marker, ordinal: int) returns (record: Option<MarkerRecord>)
      modifies this
      ensures record.Some? <==> old(sequence) + 1 <= MAX_SEQUENCE && 0 <= ordinal <= MAX_ORDINAL
      ensures record.Some? ==> record.value == MarkerRecord(invocation, old(sequence) + 1, ordinal, marker)
      ensures record.Some? ==> ledger == old(ledger) + [record.value] && stdout == old(stdout) + [record.value]
      ensures record.None? ==> ledger == old(ledger) && stdout == old(stdout)
      ensures sequence == old(sequence) + 1
      ensures var steps := [Enter(thread, Request(marker, ordinal)), Continue, Continue, Continue, Continue];
              Run(old(Value()), steps).(request := Request(WorkerReady, 0)) == Value()
    {
      ghost var e0 := Value();
      sequence := sequence + 1;
      var r := MarkerRecord(invocation, sequence, ordinal, marker);
      if Constructible(r) {
        ledger := ledger + [r];
        stdout := stdout + [r];
        record := Some(r);
      } else {
        record := None;
      }
      FiveSteps(e0, Enter(thread, Request(marker, ordinal)));
    }
  }

  lemma {:induction false} FiveSteps(e: Emitter, a: Action)
    ensures Run(e, [a, Continue, Continue, Continue, Continue]) == Next(Next(Next(Next(Step(e, a)))))
  {
    var e1 := Step(e, a);
    var e2 := Next(e1);
    var e3 := Next(e2);
    assert [a, Continue, Continue, Continue, Continue][1..] == [Continue, Continue, Continue, Continue];
    assert [Continue, Continue, Continue, Continue][1..] == [Continue, Continue, Continue];
    assert [Continue, Continue, Continue][1..] == [Continue, Continue];
    assert [Continue, Continue][1..] == [Continue];
    assert [Continue][1..] == [];
    assert Run(Next(e3), [Continue]) == Next(Next(e3));
    assert Run(e3, [Continue, Continue]) == Next(Next(e3));
    assert Run(e2, [Continue, Continue, Continue]) == Next(Next(e3));
    assert Run(e1, [Continue, Continue, Continue, Continue]) == Next(Next(e3));
  }

  // ---- lines ----

  function Concat(lines: seq<string>): string {
    if lines == [] then "" else lines[0] + Concat(lines[1..])
  }

  /** The position behind the first line break at or after `i`, or the end. A line feed, a
      carriage return and the two together are line breaks. */
  function LineEnd(text: string, i: nat): (end: nat)
    requires i < |text|
    ensures i < end <= |text|
    ensures forall j :: i <= j < end - 1 ==> text[j] != '\n' && (text[j] == '\r' ==> text[j + 1] == '\n')
    ensures end < |text| ==> text[end - 1] == '\n' || text[end - 1] == '\r'
    decreases |text| - i
  {
    if text[i] == '\n' || i + 1 == |text| then i + 1
    else if text[i] == '\r' then if text[i + 1] == '\n' then i + 2 else i + 1
    else LineEnd(text, i + 1)
  }

  function SplitLines(text: string): seq<string>
    decreases |text|
  {
    if text == "" then [] else
      var end := LineEnd(text, 0);
      [text[..end]] + SplitLines(text[end..])
  }

  lemma {:induction false} FirstLine(line: string, rest: string)
    requires IsLine(line)
    ensures LineEnd(line + rest, 0) == |line|
  {
    var end := LineEnd(line + rest, 0);
    assert (line + rest)[|line| - 1] == '\n';
  }

  /** Lines written one after the other are split where they were joined. */
  lemma {:induction false} SplitConcat(lines: seq<string>)
    requires forall i :: 0 <= i < |lines| ==> IsLine(lines[i])
    ensures SplitLines(Concat(lines)) == lines
  {
    if lines != [] {
      var rest := Concat(lines[1..]);
      FirstLine(lines[0], rest);
      assert (lines[0] + rest)[..|lines[0]|] == lines[0] && (lines[0] + rest)[|lines[0]|..] == rest;
      SplitConcat(lines[1..]);
    }
  }

  /** The lines of the records, one after the other. */
  function Lines(records: seq<MarkerRecord>): (lines: seq<string>)
    requires forall i :: 0 <= i < |records| ==> Constructible(records[i])
    ensures |lines| == |records| && forall i :: 0 <= i < |lines| ==> lines[i] == Line(records[i])
  {
    seq(|records|, i requires 0 <= i < |records| => Line(records[i]))
  }

  lemma {:induction false} ConcatPrefix(lines: seq<string>, n: nat)
    requires n <= |lines|
    ensures IsPrefix(Concat(lines[..n]), Concat(lines))
  {
    if n > 0 {
      ConcatPrefix(lines[1..], n - 1);
      assert lines[..n][1..] == lines[1..][..n - 1];
      var head, tail := Concat(lines[1..][..n - 1]), Concat(lines[1..]);
      assert (lines[0] + tail)[..|lines[0]| + |head|] == lines[0] + tail[..|head|];
    }
  }

  // ---- the parent's two readers ----

  /** The record the parent expects at a position. */
  predicate Expected(invocation: Invocation, r: MarkerRecord, position: nat) {
    r.sequence == position + 1 && r.invocation == invocation
  }

  predicate WellNumbered(invocation: Invocation, records: seq<MarkerRecord>) {
    forall i :: 0 <= i < |records| ==> Expected(invocation, records[i], i)
  }

  /** A line of the ledger that passes at a position. */
  predicate Passes(read: Reader, invocation: Invocation, line: string, position: nat) {
    |line| <= MAX_LINE && read(line).Some? && Expected(invocation, read(line).value, position)
  }

  predicate LedgerValid(read: Reader, invocation: Invocation, ledger: string, stdout: seq<string>) {
    var lines := SplitLines(ledger);
    && IsPrefix(Concat(stdout), ledger) && lines != []
    && forall i :: 0 <= i < |lines| ==> Passes(read, invocation, lines[i], i)
  }

  /** Ledger validation accepts a non-empty ledger of numbered records that starts with
      what came over stdout, and nothing else. */
  method ValidateLedger(read: Reader, invocation: Invocation, ledger: string, stdout: seq<string>)
    returns (r: Option<seq<MarkerRecord>>)
    ensures r.Some? <==> LedgerValid(read, invocation, ledger, stdout)
    ensures r.Some? ==>
              && |r.value| == |SplitLines(ledger)| && WellNumbered(invocation, r.value)
              && forall i :: 0 <= i < |r.value| ==> read(SplitLines(ledger)[i]) == Some(r.value[i])
  {
    var lines := SplitLines(ledger);
    if !IsPrefix(Concat(stdout), ledger) || |lines| == 0 {
      return None;
    }
    var records: seq<MarkerRecord> := [];
    for i := 0 to |lines|
      invariant |records| == i && WellNumbered(invocation, records)
      invariant forall j :: 0 <= j < i ==> Passes(read, invocation, lines[j], j) && read(lines[j]) == Some(records[j])
    {
      if |lines[i]| > MAX_LINE {
        return None;
      }
      var record := read(lines[i]);
      if record.None? || !Expected(invocation, record.value, i) {
        return None;
      }
      records := records + [record.value];
    }
    return Some(records);
  }

  predicate Awaited(r: MarkerRecord, marker: Marker, ordinal: int) {
    r.marker == marker && r.ordinal == ordinal
  }

  /** The line is a record with the next number after `before` others. */
  predicate Continues(read: Reader, invocation: Invocation, line: string, before: nat) {
    read(line).Some? && Expected(invocation, read(line).value, before)
  }

  /** Reads on from `records` until the awaited marker; `lines` is what arrives before the
      deadline or the end of the stream. `None` when a line does not continue the numbering
      or the marker does not come. */
  method WaitForMarker(
    read: Reader, invocation: Invocation, lines: seq<string>, records: seq<MarkerRecord>, marker: Marker, ordinal: int)
    returns (r: Option<seq<MarkerRecord>>)
    requires WellNumbered(invocation, records)
    ensures r.Some? ==>
              && WellNumbered(invocation, r.value)
              && |records| < |r.value| <= |records| + |lines| && IsPrefix(records, r.value)
              && (forall i :: |records| <= i < |r.value| ==> read(lines[i - |records|]) == Some(r.value[i]))
              && Awaited(r.value[|r.value| - 1], marker, ordinal)
              && (forall i :: |records| <= i < |r.value| - 1 ==> !Awaited(r.value[i], marker, ordinal))
    ensures r.None? && (forall i :: 0 <= i < |lines| ==> Continues(read, invocation, lines[i], |records| + i)) ==>
              forall i :: 0 <= i < |lines| ==> !Awaited(read(lines[i]).value, marker, ordinal)
  {
    var found := records;
    for i := 0 to |lines|
      invariant |found| == |records| + i && IsPrefix(records, found) && WellNumbered(invocation, found)
      invariant forall j :: |records| <= j < |found| ==>
                  read(lines[j - |records|]) == Some(found[j]) && !Awaited(found[j], marker, ordinal)
    {
      var record := read(lines[i]);
      if record.None? || !Expected(invocation, record.value, |found|) {
        assert !Continues(read, invocation, lines[i], |records| + i);
        return None;
      }
      found := found + [record.value];
      if Awaited(record.value, marker, ordinal) {
        return Some(found);
      }
    }
    forall i | 0 <= i < |lines| ensures read(lines[i]) == Some(found[|records| + i]) {
      assert read(lines[|records| + i - |records|]) == Some(found[|records| + i]);
    }
    return None;
  }

  lemma {:induction false} LineSplits(records: seq<MarkerRecord>)
    requires forall i :: 0 <= i < |records| ==> Constructible(records[i])
    ensures SplitLines(Concat(Lines(records))) == Lines(records)
  {
    forall i | 0 <= i < |records| ensures IsLine(Lines(records)[i]) { LineFits(records[i]); }
    SplitConcat(Lines(records));
  }

  /** A ledger of records passes exactly when it is not empty and numbered without gaps. */
  lemma {:induction false} RecordsPassIff(
      read: Reader, invocation: Invocation, records: seq<MarkerRecord>, stdout: seq<string>)
    requires Sound(read) && AllOf(invocation, records)
    requires IsPrefix(Concat(stdout), Concat(Lines(records)))
    ensures LedgerValid(read, invocation, Concat(Lines(records)), stdout) <==> records != [] && GapFree(records)
  {
    var lines := Lines(records);
    LineSplits(records);
    forall i | 0 <= i < |records|
      ensures Passes(read, invocation, lines[i], i) <==> records[i].sequence == i + 1
    {
      LineFits(records[i]);
      assert read(Line(records[i])) == Some(records[i]);
    }
  }

  /** For any threads, requests and crash point, and whatever the parent read of stdout before
      the crash: validation accepts it with the text of the ledger if and only if a record was
      appended and none after a refused one. */
  lemma {:induction false} ValidationAccepts(
      read: Reader, invocation: Invocation, actions: seq<Action>, received: nat)
    requires Sound(read) && received <= |Run(Opened(invocation), actions).stdout|
    ensures var e := Run(Opened(invocation), actions);
            && AllOf(invocation, e.ledger) && AllOf(invocation, e.stdout)
            && (LedgerValid(read, invocation, Concat(Lines(e.ledger)), Lines(e.stdout)[..received]) <==>
                e.ledger != [] && RefusedLast(DecidedBy(invocation, actions)))
  {
    var e := Run(Opened(invocation), actions);
    CrashLeavesPrefix(invocation, actions);
    LedgerIsSequential(invocation, actions);
    LedgerOfRecords(invocation, DecidedBy(invocation, actions));
    RunGapFreeIff(invocation, actions);
    forall i | 0 <= i < |e.stdout| ensures e.stdout[i] == e.ledger[i] {
      assert e.ledger[..|e.stdout|][i] == e.stdout[i];
    }
    var lines := Lines(e.ledger);
    assert Lines(e.stdout)[..received] == lines[..received];
    ConcatPrefix(lines, received);
    RecordsPassIff(read, invocation, e.ledger, lines[..received]);
  }
}
