/**
 A marker record and the one line of JSON it is written as. The text determines the
 record, is a single line and always fits the byte bound of the protocol.
 */
module MarkerText {
  import opened Wrappers
  import opened Decimals
  import opened Texts

  datatype Marker =
    | WorkerReady | CommandAdmitted | PreCommit | CommitEntered | CommitConfirmed
    | SessionCloseEntered | SessionClosed | ReceiptResolved | NotificationEntered
    | NotificationOffered | CommandObserved | ShutdownEntered | ShutdownDrained

  const CASES: set<string> := {
    "normal", "before_commit", "commit_ambiguous", "after_commit_before_receipt",
    "after_receipt_before_notification", "shutdown_drain"}

  const TOKEN_LENGTH: nat := 64

  predicate IsHex(c: char) { '0' <= c <= '9' || 'a' <= c <= 'f' }

  /** A digest in hexadecimal. */
  type Token = t: string | |t| == TOKEN_LENGTH && forall i :: 0 <= i < |t| ==> IsHex(t[i])
    witness seq(TOKEN_LENGTH, _ => '0')

  type CaseId = c: string | c in CASES witness "normal"

  /** The identity every record of one invocation carries. */
  datatype Invocation = Invocation(token: Token, caseId: CaseId)

  datatype MarkerRecord = MarkerRecord(invocation: Invocation, sequence: int, ordinal: int, marker: Marker)

  const MAX_SEQUENCE := 1000
  const MAX_ORDINAL := 3
  const MAX_LINE: nat := 512

  /** The checks of a record's constructor. */
  predicate Constructible(r: MarkerRecord) {
    1 <= r.sequence <= MAX_SEQUENCE && 0 <= r.ordinal <= MAX_ORDINAL
  }

  // ---- the text ----

  function MarkerName(m: Marker): string {
    match m
    case WorkerReady => "worker_ready"
    case CommandAdmitted => "command_admitted"
    case PreCommit => "pre_commit"
    case CommitEntered => "commit_entered"
    case CommitConfirmed => "commit_confirmed"
    case SessionCloseEntered => "session_close_entered"
    case SessionClosed => "session_closed"
    case ReceiptResolved => "receipt_resolved"
    case NotificationEntered => "notification_entered"
    case NotificationOffered => "notification_offered"
    case CommandObserved => "command_observed"
    case ShutdownEntered => "shutdown_entered"
    case ShutdownDrained => "shutdown_drained"
  }

  const CASE_FIELD := "{\"case_id\":\""
  const ORDINAL_FIELD := "\",\"command_ordinal\":"
  const TOKEN_FIELD := ",\"invocation_token\":\""
  const MARKER_FIELD := "\",\"marker\":\""
  const SEQUENCE_FIELD := "\",\"protocol_version\":1,\"sequence\":"
  const END := "}\n"

  function FromSequence(r: MarkerRecord): string
    requires Constructible(r)
  {
    SEQUENCE_FIELD + (Numeral(r.sequence) + END)
  }

  function FromMarker(r: MarkerRecord): string
    requires Constructible(r)
  {
    MARKER_FIELD + (MarkerName(r.marker) + FromSequence(r))
  }

  function FromToken(r: MarkerRecord): string
    requires Constructible(r)
  {
    TOKEN_FIELD + (r.invocation.token + FromMarker(r))
  }

  function FromOrdinal(r: MarkerRecord): string
    requires Constructible(r)
  {
    ORDINAL_FIELD + (Numeral(r.ordinal) + FromToken(r))
  }

  /** The record as canonical JSON: its fields in the order of their keys, and a line feed. */
  function Line(r: MarkerRecord): string
    requires Constructible(r)
  {
    CASE_FIELD + (r.invocation.caseId + FromOrdinal(r))
  }

  // ---- it determines the record ----

  lemma {:induction false} NumeralThen(m: nat, r: string, n: nat, s: string)
    requires |r| > 0 && |s| > 0 && !IsDigit(r[0]) && !IsDigit(s[0]) && Numeral(m) + r == Numeral(n) + s
    ensures m == n && r == s
  {
    SplitsAt(IsDigit, Numeral(m), r, Numeral(n), s);
    var d, e := Digits(m), Digits(n);
    forall i | 0 <= i < |d| ensures d[i] == e[i] { assert Numeral(m)[i] == Numeral(n)[i]; }
    assert d == e;
    NumberOfDigits(m);
    NumberOfDigits(n);
  }

  predicate Unquoted(c: char) { c != '"' }

  lemma {:induction false} QuotedThen(a: string, r: string, b: string, s: string)
    requires (forall i :: 0 <= i < |a| ==> a[i] != '"') && (forall i :: 0 <= i < |b| ==> b[i] != '"')
    requires |r| > 0 && |s| > 0 && r[0] == '"' && s[0] == '"' && a + r == b + s
    ensures a == b && r == s
  {
    SplitsAt(Unquoted, a, r, b, s);
  }

  /** Letters and underscores only. */
  predicate IsWord(s: string) { forall i :: 0 <= i < |s| ==> s[i] == '_' || 'a' <= s[i] <= 'z' }

  lemma CaseIsWord(c: CaseId)
    ensures IsWord(c) && |c| <= 33
  {
  }

  /** The markers of one command, in order, up to its commit. */
  predicate UpToCommit(m: Marker) {
    m.WorkerReady? || m.CommandAdmitted? || m.PreCommit? || m.CommitEntered? || m.CommitConfirmed?
  }

  predicate AfterCommit(m: Marker) { m.SessionCloseEntered? || m.SessionClosed? || m.ReceiptResolved? }

  lemma EarlyIsWord(m: Marker)
    requires UpToCommit(m)
    ensures IsWord(MarkerName(m)) && |MarkerName(m)| <= 21
  {
  }

  lemma MiddleIsWord(m: Marker)
    requires AfterCommit(m)
    ensures IsWord(MarkerName(m)) && |MarkerName(m)| <= 21
  {
  }

  lemma LateIsWord(m: Marker)
    requires !UpToCommit(m) && !AfterCommit(m)
    ensures IsWord(MarkerName(m)) && |MarkerName(m)| <= 21
  {
  }

  lemma {:induction false} MarkerIsWord(m: Marker)
    ensures IsWord(MarkerName(m)) && |MarkerName(m)| <= 21
  {
    if UpToCommit(m) { EarlyIsWord(m); } else if AfterCommit(m) { MiddleIsWord(m); } else { LateIsWord(m); }
  }

  /** The seventh letter and the fifth last one tell the markers apart. */
  lemma {:induction false} MarkerNamesDiffer(m: Marker, n: Marker)
    requires MarkerName(m) == MarkerName(n)
    ensures m == n
  {
    var s := MarkerName(m);
    assert |s| >= 10 && s[6] == MarkerName(n)[6] && s[|s| - 5] == MarkerName(n)[|s| - 5];
  }

  /** Every constructible record can be read back from its line. */
  lemma {:induction false} LineInjective(a: MarkerRecord, b: MarkerRecord)
    requires Constructible(a) && Constructible(b) && Line(a) == Line(b)
    ensures a == b
  {
    CaseIsWord(a.invocation.caseId);
    CaseIsWord(b.invocation.caseId);
    SamePrefix(CASE_FIELD, a.invocation.caseId + FromOrdinal(a), b.invocation.caseId + FromOrdinal(b));
    QuotedThen(a.invocation.caseId, FromOrdinal(a), b.invocation.caseId, FromOrdinal(b));
    OrdinalOn(a, b);
  }

  lemma {:induction false} OrdinalOn(a: MarkerRecord, b: MarkerRecord)
    requires Constructible(a) && Constructible(b) && FromOrdinal(a) == FromOrdinal(b)
    ensures a.ordinal == b.ordinal && a.invocation.token == b.invocation.token
    ensures a.marker == b.marker && a.sequence == b.sequence
  {
    SamePrefix(ORDINAL_FIELD, Numeral(a.ordinal) + FromToken(a), Numeral(b.ordinal) + FromToken(b));
    assert FromToken(a)[0] == ',' && FromToken(b)[0] == ',';
    NumeralThen(a.ordinal, FromToken(a), b.ordinal, FromToken(b));
    TokenOn(a, b);
  }

  lemma {:induction false} TokenOn(a: MarkerRecord, b: MarkerRecord)
    requires Constructible(a) && Constructible(b) && FromToken(a) == FromToken(b)
    ensures a.invocation.token == b.invocation.token && a.marker == b.marker && a.sequence == b.sequence
  {
    SamePrefix(TOKEN_FIELD, a.invocation.token + FromMarker(a), b.invocation.token + FromMarker(b));
    assert FromMarker(a)[0] == '"' && FromMarker(b)[0] == '"';
    QuotedThen(a.invocation.token, FromMarker(a), b.invocation.token, FromMarker(b));
    MarkerOn(a, b);
  }

  lemma {:induction false} MarkerOn(a: MarkerRecord, b: MarkerRecord)
    requires Constructible(a) && Constructible(b) && FromMarker(a) == FromMarker(b)
    ensures a.marker == b.marker && a.sequence == b.sequence
  {
    var m, n := MarkerName(a.marker), MarkerName(b.marker);
    MarkerIsWord(a.marker);
    MarkerIsWord(b.marker);
    SamePrefix(MARKER_FIELD, m + FromSequence(a), n + FromSequence(b));
    assert FromSequence(a)[0] == '"' && FromSequence(b)[0] == '"';
    QuotedThen(m, FromSequence(a), n, FromSequence(b));
    MarkerNamesDiffer(a.marker, b.marker);
    SamePrefix(SEQUENCE_FIELD, Numeral(a.sequence) + END, Numeral(b.sequence) + END);
    assert END[0] == '}';
    NumeralThen(a.sequence, END, b.sequence, END);
  }

  /** The marker of a name, if there is one. */
  function MarkerNamed(name: string): Option<Marker> {
    if name == "worker_ready" then Some(WorkerReady)
    else if name == "command_admitted" then Some(CommandAdmitted)
    else if name == "pre_commit" then Some(PreCommit)
    else if name == "commit_entered" then Some(CommitEntered)
    else if name == "commit_confirmed" then Some(CommitConfirmed)
    else if name == "session_close_entered" then Some(SessionCloseEntered)
    else if name == "session_closed" then Some(SessionClosed)
    else if name == "receipt_resolved" then Some(ReceiptResolved)
    else if name == "notification_entered" then Some(NotificationEntered)
    else if name == "notification_offered" then Some(NotificationOffered)
    else if name == "command_observed" then Some(CommandObserved)
    else if name == "shutdown_entered" then Some(ShutdownEntered)
    else if name == "shutdown_drained" then Some(ShutdownDrained)
    else None
  }

  lemma FoundIsOwn(name: string)
    ensures MarkerNamed(name).Some? ==> name == MarkerName(MarkerNamed(name).value)
  {
  }

  lemma OwnIsFound(m: Marker)
    ensures MarkerNamed(MarkerName(m)).Some?
  {
  }

  /** Every marker is found under its own name, and every name found is the marker's own. */
  lemma {:induction false} NamesReadBack(m: Marker, name: string)
    ensures MarkerNamed(name) == Some(m) <==> name == MarkerName(m)
  {
    FoundIsOwn(name);
    if name == MarkerName(m) {
      OwnIsFound(m);
      MarkerNamesDiffer(m, MarkerNamed(name).value);
    }
  }

  // ---- it is one line that fits ----

  /** No line break before the end. */
  predicate Breakless(s: string) { forall i :: 0 <= i < |s| ==> s[i] != '\n' && s[i] != '\r' }

  /** The text ends with its only line break, a line feed. */
  predicate IsLine(line: string) {
    |line| > 0 && forall i :: 0 <= i < |line| ==> line[i] != '\r' && (line[i] == '\n' <==> i == |line| - 1)
  }

  lemma {:induction false} Prepend(s: string, line: string)
    requires Breakless(s) && IsLine(line)
    ensures IsLine(s + line)
  {
  }

  lemma {:induction false} ShortNumeral(n: nat, digits: nat)
    requires n < Power(digits) && digits > 0
    ensures |Numeral(n)| <= digits
  {
    if n >= 10 { ShortNumeral(n / 10, digits - 1); }
  }

  /** Every line is one line of at most 512 characters. */
  lemma {:induction false} LineFits(r: MarkerRecord)
    requires Constructible(r)
    ensures IsLine(Line(r)) && |Line(r)| <= MAX_LINE
  {
    CaseIsWord(r.invocation.caseId);
    MarkerIsWord(r.marker);
    assert Power(1) == 10 && Power(2) == 100 && Power(3) == 1000 && Power(4) == 10_000;
    ShortNumeral(r.sequence, 4);
    ShortNumeral(r.ordinal, 1);
    FieldsBreakless();
    Prepend(Numeral(r.sequence), END);
    Prepend(SEQUENCE_FIELD, Numeral(r.sequence) + END);
    Prepend(MarkerName(r.marker), FromSequence(r));
    Prepend(MARKER_FIELD, MarkerName(r.marker) + FromSequence(r));
    Prepend(r.invocation.token, FromMarker(r));
    Prepend(TOKEN_FIELD, r.invocation.token + FromMarker(r));
    Prepend(Numeral(r.ordinal), FromToken(r));
    Prepend(ORDINAL_FIELD, Numeral(r.ordinal) + FromToken(r));
    Prepend(r.invocation.caseId, FromOrdinal(r));
    Prepend(CASE_FIELD, r.invocation.caseId + FromOrdinal(r));
  }

  lemma FieldsBreakless()
    ensures Breakless(CASE_FIELD) && Breakless(ORDINAL_FIELD) && Breakless(TOKEN_FIELD)
    ensures Breakless(MARKER_FIELD) && Breakless(SEQUENCE_FIELD) && IsLine(END)
    ensures |CASE_FIELD| + |ORDINAL_FIELD| + |TOKEN_FIELD| + |MARKER_FIELD| + |SEQUENCE_FIELD| + |END| <= 150
  {
  }

  // ---- reading ----

  /** How a line is read; `None` refuses what is no record. */
  type Reader = string -> Option<MarkerRecord>

  /** Whatever else it accepts, it reads every record that was written. */
  ghost predicate Sound(read: Reader) {
    forall r: MarkerRecord :: Constructible(r) ==> read(Line(r)) == Some(r)
  }

  ghost predicate Writes(r: MarkerRecord, line: string) { Constructible(r) && Line(r) == line }

  /** The strictest reader. */
  ghost function ReadCanonical(line: string): Option<MarkerRecord> {
    if exists r :: Writes(r, line) then
      var r :| Writes(r, line);
      Some(r)
    else None
  }

  /** There is a sound reader: the one that takes exactly the written lines. */
  lemma {:induction false} ReaderExists()
    ensures Sound(ReadCanonical)
    ensures forall line :: ReadCanonical(line).Some? ==> Writes(ReadCanonical(line).value, line)
  {
    forall r: MarkerRecord | Constructible(r) ensures ReadCanonical(Line(r)) == Some(r) {
      assert Writes(r, Line(r));
      LineInjective(r, ReadCanonical(Line(r)).value);
    }
  }

  /** One line, written out. */
  lemma {:induction false} LineExample(token: Token)
    ensures Line(MarkerRecord(Invocation(token, "normal"), 7, 1, PreCommit)) ==
            "{\"case_id\":\"" + "normal" + "\",\"command_ordinal\":" + "1" + ",\"invocation_token\":\"" + token
            + "\",\"marker\":\"" + "pre_commit" + "\",\"protocol_version\":1,\"sequence\":" + "7" + "}\n"
  {
    assert Numeral(1) == "1" && Numeral(7) == "7";
    ElevenParts(CASE_FIELD, "normal", ORDINAL_FIELD, "1", TOKEN_FIELD, token, MARKER_FIELD, "pre_commit",
                SEQUENCE_FIELD, "7", END);
  }

  lemma {:induction false} ElevenParts(
    a: string, b: string, c: string, d: string, e: string, f: string, g: string, h: string, i: string, j: string,
    k: string)
    ensures a + (b + (c + (d + (e + (f + (g + (h + (i + (j + k))))))))) == a + b + c + d + e + f + g + h + i + j + k
  {
    assert h + (i + (j + k)) == h + i + j + k;
    assert e + (f + (g + (h + i + j + k))) == e + f + g + h + i + j + k;
    assert c + (d + (e + f + g + h + i + j + k)) == c + d + e + f + g + h + i + j + k;
  }
}
