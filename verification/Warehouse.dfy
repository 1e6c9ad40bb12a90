/**
 The simulated warehouse: observable versions, idempotent effects, scripted
 transport faults, and a state document persisted by atomic replacement.

 A write reaches the disk in three commits: its request is counted, a scripted
 fault is noted, and the effect is stored together with its receipt. A process
 killed between two of them leaves exactly the earlier document behind.
 */
module Warehouse {
  import opened Wrappers

  type Sku = string
  /** The canonical rendering of a record. */
  type Payload = string

  /** The idempotency keys of a story: one per baseline write, one per repair action. */
  datatype Key = LoadKey(index: nat) | RepairKey(index: nat)

  datatype Precondition = Always | MustBeAbsent | MustHold(payload: Payload)

  datatype Write = Write(sku: Sku, payload: Payload, key: Key, pre: Precondition)

  datatype Record = Record(payload: Payload, version: nat)

  datatype Receipt = Receipt(request: Write, applied: bool, targetVersion: nat, recordVersion: nat)

  /** The logical content of the target: everything a write may change. */
  datatype Content = Content(
    records: map<Sku, Record>,
    version: nat,
    receipts: map<Key, Receipt>,
    effects: map<Key, nat>)

  datatype Target = Target(content: Content, requests: nat, faults: seq<nat>)

  datatype Fault = RateLimit | TransientError | Hang | Timeout | ConnectionLoss

  type Script = map<nat, Fault>

  datatype Verdict = Answered(receipt: Receipt, replayed: bool) | KeyConflict | Full | PreconditionFailed
    | RegistryExhausted

  datatype Response = Reply(verdict: Verdict) | NotReached | Ambiguous(verdict: Verdict)

  const WAREHOUSE_CAPACITY: nat := 10_000
  const MAX_IDEMPOTENCY_ENTRIES: nat := 10_000

  const EMPTY := Content(map[], 0, map[], map[])

  predicate PreconditionHolds(pre: Precondition, c: Content, sku: Sku) {
    match pre
    case Always => true
    case MustBeAbsent => sku !in c.records
    case MustHold(payload) => sku in c.records && c.records[sku].payload == payload
  }

  function CountOf(effects: map<Key, nat>, key: Key): nat {
    if key in effects then effects[key] else 0
  }

  /** Storing a receipt; an exhausted registry refuses after the record was changed. */
  function Stored(c: Content, w: Write, receipt: Receipt, effect: nat): (Content, Verdict) {
    if w.key !in c.receipts && |c.receipts| >= MAX_IDEMPOTENCY_ENTRIES then (c, RegistryExhausted)
    else
      (c.(receipts := c.receipts[w.key := receipt],
          effects := if effect == 0 then c.effects else c.effects[w.key := CountOf(c.effects, w.key) + effect]),
       Answered(receipt, false))
  }

  /** The mutation of one accepted write. */
  function Commit(c: Content, w: Write): (Content, Verdict) {
    if w.key in c.receipts then
      if c.receipts[w.key].request != w then (c, KeyConflict) else (c, Answered(c.receipts[w.key], true))
    else if w.sku !in c.records && |c.records| >= WAREHOUSE_CAPACITY then (c, Full)
    else if !PreconditionHolds(w.pre, c, w.sku) then (c, PreconditionFailed)
    else if w.sku in c.records && c.records[w.sku].payload == w.payload then
      Stored(c, w, Receipt(w, false, c.version, c.records[w.sku].version), 0)
    else
      var record := Record(w.payload, if w.sku in c.records then c.records[w.sku].version + 1 else 1);
      var changed := c.(records := c.records[w.sku := record], version := c.version + 1);
      Stored(changed, w, Receipt(w, true, c.version + 1, record.version), 1)
  }

  // ---- the three commits of one request ----

  function Counted(t: Target): Target { t.(requests := t.requests + 1) }

  function Noted(script: Script, t: Target): Target {
    if t.requests in script then t.(faults := t.faults + [t.requests]) else t
  }

  predicate StopsBeforeCommit(script: Script, request: nat) {
    request in script && script[request] in {RateLimit, TransientError, Hang}
  }

  predicate HidesReply(script: Script, request: nat) {
    request in script && script[request] in {Timeout, ConnectionLoss}
  }

  function Upsert(script: Script, t: Target, w: Write): (Target, Response) {
    var noted := Noted(script, Counted(t));
    if StopsBeforeCommit(script, noted.requests) then (noted, NotReached)
    else
      var (content, verdict) := Commit(noted.content, w);
      (noted.(content := content),
       if verdict.Answered? && HidesReply(script, noted.requests) then Ambiguous(verdict) else Reply(verdict))
  }

  /** What each kind of fault does to a request: it strikes before the commit, or lets it through
      and hides the reply, and is noted either way. */
  lemma {:induction false} FaultKinds(script: Script, t: Target, w: Write)
    ensures var (t', r) := Upsert(script, t, w);
            var request := t.requests + 1;
            && t'.requests == request
            && t'.faults == (if request in script then t.faults + [request] else t.faults)
            && (if request !in script then t'.content == Commit(t.content, w).0 && r == Reply(Commit(t.content, w).1)
                else match script[request]
                     case RateLimit => t'.content == t.content && r == NotReached
                     case TransientError => t'.content == t.content && r == NotReached
                     case Hang => t'.content == t.content && r == NotReached
                     case Timeout => t'.content == Commit(t.content, w).0 && (r.Ambiguous? <==> r.verdict.Answered?)
                     case ConnectionLoss =>
                       t'.content == Commit(t.content, w).0 && (r.Ambiguous? <==> r.verdict.Answered?))
  {
  }

  // ---- exactly-once effects ----

  /** The promise of the target: one effect at most per key, each behind an applied
      receipt, and a version that counts exactly those effects. */
  ghost predicate ExactlyOnce(c: Content) {
    && (forall k :: k in c.effects ==> c.effects[k] == 1)
    && (forall k :: k in c.effects <==> k in c.receipts && c.receipts[k].applied)
    && c.version == |c.effects|
    && (forall k :: k in c.receipts ==> c.receipts[k].request.key == k)
    && (forall k :: k in c.receipts ==>
        c.receipts[k].targetVersion <= c.version && 1 <= c.receipts[k].recordVersion <= c.version)
    && (forall s :: s in c.records ==> 1 <= c.records[s].version <= c.version)
  }

  /** The write would need a registry entry that no longer fits. */
  predicate Exhausts(c: Content, w: Write) {
    w.key !in c.receipts && |c.receipts| >= MAX_IDEMPOTENCY_ENTRIES
  }

  /** The one way the promise breaks: an effect that the registry cannot remember. */
  predicate BreaksPromise(c: Content, w: Write) {
    && Exhausts(c, w)
    && (w.sku in c.records || |c.records| < WAREHOUSE_CAPACITY)
    && PreconditionHolds(w.pre, c, w.sku)
    && (w.sku in c.records ==> c.records[w.sku].payload != w.payload)
  }

  lemma {:induction false} InsertSize<K, V>(m: map<K, V>, k: K, v: V)
    ensures |m[k := v]| == if k in m then |m| else |m| + 1
  {
    assert m[k := v].Keys == m.Keys + {k};
    assert |m.Keys + {k}| == if k in m then |m.Keys| else |m.Keys| + 1;
  }

  lemma UnchangedKeeps(c: Content, w: Write, receipt: Receipt)
    requires ExactlyOnce(c) && w.key !in c.receipts && w.sku in c.records
    requires receipt == Receipt(w, false, c.version, c.records[w.sku].version)
    ensures ExactlyOnce(Stored(c, w, receipt, 0).0)
  {
  }

  lemma {:induction false} AppliedKeeps(c: Content, w: Write, record: Record)
    requires ExactlyOnce(c) && w.key !in c.receipts && !Exhausts(c, w)
    requires 1 <= record.version <= c.version + 1
    ensures var changed := c.(records := c.records[w.sku := record], version := c.version + 1);
            ExactlyOnce(Stored(changed, w, Receipt(w, true, c.version + 1, record.version), 1).0)
  {
    assert w.key !in c.effects;
    InsertSize(c.effects, w.key, 1);
  }

  /** One write keeps the promise of the target exactly when it is not that one. */
  lemma {:induction false} CommitKeepsPromise(c: Content, w: Write)
    requires ExactlyOnce(c)
    ensures ExactlyOnce(Commit(c, w).0) <==> !BreaksPromise(c, w)
  {
    if w.key !in c.receipts && !Exhausts(c, w) && (w.sku in c.records || |c.records| < WAREHOUSE_CAPACITY)
       && PreconditionHolds(w.pre, c, w.sku) {
      if w.sku in c.records && c.records[w.sku].payload == w.payload {
        UnchangedKeeps(c, w, Receipt(w, false, c.version, c.records[w.sku].version));
      } else {
        AppliedKeeps(c, w, Record(w.payload, if w.sku in c.records then c.records[w.sku].version + 1 else 1));
      }
    }
  }

  /** Any writes one after the other, whatever their verdicts. */
  function CommitAll(writes: seq<Write>, n: nat): Content
    requires n <= |writes|
  {
    if n == 0 then EMPTY else Commit(CommitAll(writes, n - 1), writes[n - 1]).0
  }

  lemma {:induction false} ReceiptsGrowByOne(c: Content, w: Write)
    ensures |Commit(c, w).0.receipts| <= |c.receipts| + 1
  {
    var c' := Commit(c, w).0;
    if w.key in c'.receipts { InsertSize(c.receipts, w.key, c'.receipts[w.key]); }
  }

  /** As long as there are no more writes than registry entries, every history of writes,
      replayed, conflicting or refused, keeps the promise. */
  lemma {:induction false} EveryWriteHistoryKeepsPromise(writes: seq<Write>, n: nat)
    requires n <= |writes| && n <= MAX_IDEMPOTENCY_ENTRIES
    ensures ExactlyOnce(CommitAll(writes, n)) && |CommitAll(writes, n).receipts| <= n
  {
    if n > 0 {
      EveryWriteHistoryKeepsPromise(writes, n - 1);
      CommitKeepsPromise(CommitAll(writes, n - 1), writes[n - 1]);
      ReceiptsGrowByOne(CommitAll(writes, n - 1), writes[n - 1]);
    }
  }

  /** Two payloads in turn. */
  function Turn(i: nat): Payload { if i % 2 == 0 then "even" else "odd" }

  function WriteAt(i: nat): Write { Write("sku", Turn(i), LoadKey(i), Always) }

  /** Writes of one record, each under its own key. */
  function Alternating(n: nat): (writes: seq<Write>)
    ensures |writes| == n && forall i :: 0 <= i < n ==> writes[i] == WriteAt(i)
  {
    seq(n, i requires 0 <= i < n => WriteAt(i))
  }

  lemma TurnsDiffer(i: nat)
    ensures Turn(i) != Turn(i + 1)
  {
    assert "even"[0] != "odd"[0];
  }

  /** The content after `n` of them. */
  ghost predicate Filled(c: Content, n: nat) {
    && |c.receipts| == n && (forall k :: k in c.receipts ==> k.LoadKey? && k.index < n)
    && (if n == 0 then c.records == map[] else c.records.Keys == {"sku"} && c.records["sku"].payload == Turn(n - 1))
  }

  lemma {:induction false} FillsOn(c: Content, n: nat)
    requires Filled(c, n) && n < MAX_IDEMPOTENCY_ENTRIES
    ensures Filled(Commit(c, WriteAt(n)).0, n + 1)
  {
    var w := WriteAt(n);
    var c' := Commit(c, w).0;
    if n > 0 { TurnsDiffer(n - 1); }
    assert w.key !in c.receipts;
    assert c'.records.Keys == c.records.Keys + {"sku"};
    InsertSize(c.receipts, w.key, c'.receipts[w.key]);
  }

  lemma {:induction false} AlternatingFills(m: nat, n: nat)
    requires n <= MAX_IDEMPOTENCY_ENTRIES && n <= m
    ensures Filled(CommitAll(Alternating(m), n), n)
  {
    if n > 0 {
      AlternatingFills(m, n - 1);
      FillsOn(CommitAll(Alternating(m), n - 1), n - 1);
    }
  }

  lemma {:induction false} FilledBreaks(c: Content)
    requires Filled(c, MAX_IDEMPOTENCY_ENTRIES)
    ensures BreaksPromise(c, WriteAt(MAX_IDEMPOTENCY_ENTRIES))
  {
    TurnsDiffer(MAX_IDEMPOTENCY_ENTRIES - 1);
    assert WriteAt(MAX_IDEMPOTENCY_ENTRIES).key !in c.receipts;
  }

  /** The promise can break: at the first write after those the registry remembers. */
  lemma {:induction false} PromiseBreaks()
    ensures var writes := Alternating(MAX_IDEMPOTENCY_ENTRIES + 1);
            && ExactlyOnce(CommitAll(writes, MAX_IDEMPOTENCY_ENTRIES))
            && !ExactlyOnce(CommitAll(writes, MAX_IDEMPOTENCY_ENTRIES + 1))
  {
    var n := MAX_IDEMPOTENCY_ENTRIES;
    var c := CommitAll(Alternating(n + 1), n);
    EveryWriteHistoryKeepsPromise(Alternating(n + 1), n);
    AlternatingFills(n + 1, n);
    FilledBreaks(c);
    CommitKeepsPromise(c, WriteAt(n));
  }

  /** A replayed key returns its recorded receipt and changes nothing. */
  lemma ReplayChangesNothing(c: Content, w: Write, w': Write)
    requires ExactlyOnce(c) && !Exhausts(c, w)
    requires Commit(c, w).1.Answered?
    requires w'.key == w.key
    ensures var c1 := Commit(c, w).0;
            && Commit(c1, w').0 == c1
            && (w' == w ==> Commit(c1, w').1 == Answered(Commit(c, w).1.receipt, true))
            && (w' != w ==> Commit(c1, w').1 == KeyConflict)
  {
  }

  /** A lost reply is harmless: sending the write again yields the same receipt and the
      content of a write that was answered at once. */
  lemma {:induction false} LostReplyIsHarmless(script: Script, t: Target, w: Write)
    requires ExactlyOnce(t.content) && !Exhausts(t.content, w)
    requires Upsert(script, t, w).1.Ambiguous?
    requires t.requests + 2 !in script
    ensures var first := Upsert(script, t, w);
            var second := Upsert(script, first.0, w);
            && second.0.content == first.0.content == Commit(t.content, w).0
            && second.1 == Reply(Answered(first.1.verdict.receipt, true))
  {
    ReplayChangesNothing(t.content, w, w);
  }

  // ---- reopening the state document ----

  ghost function Total(effects: map<Key, nat>): nat
    decreases |effects|
  {
    if effects == map[] then 0
    else
      var k :| k in effects;
      assert (effects - {k}).Keys == effects.Keys - {k};
      effects[k] + Total(effects - {k})
  }

  lemma {:induction false} TotalOfOnes(effects: map<Key, nat>)
    requires forall k :: k in effects ==> effects[k] == 1
    ensures Total(effects) == |effects|
    decreases |effects|
  {
    if effects != map[] {
      var k :| k in effects && Total(effects) == effects[k] + Total(effects - {k});
      assert (effects - {k}).Keys == effects.Keys - {k};
      TotalOfOnes(effects - {k});
    }
  }

  /** The checks of the loader; `None` refuses the document. */
  ghost function Reopen(t: Target): Option<Target> {
    var c := t.content;
    if && c.version >= 1
       && (forall s :: s in c.records ==> 1 <= c.records[s].version <= c.version)
       && (forall k :: k in c.receipts ==>
           c.receipts[k].targetVersion <= c.version && 1 <= c.receipts[k].recordVersion <= c.version)
       && (forall k :: k in c.effects ==> k in c.receipts && c.receipts[k].applied && c.effects[k] >= 1)
       && Total(c.effects) == c.version
       && |c.records| <= WAREHOUSE_CAPACITY && |c.receipts| <= MAX_IDEMPOTENCY_ENTRIES
    then Some(t) else None
  }

  predicate Bounded(c: Content) {
    |c.records| <= WAREHOUSE_CAPACITY && |c.receipts| <= MAX_IDEMPOTENCY_ENTRIES
  }

  lemma {:induction false} CommitStaysBounded(c: Content, w: Write)
    requires Bounded(c)
    ensures Bounded(Commit(c, w).0)
  {
    var c' := Commit(c, w).0;
    if w.sku in c'.records { InsertSize(c.records, w.sku, c'.records[w.sku]); }
    if w.key in c'.receipts { InsertSize(c.receipts, w.key, c'.receipts[w.key]); }
  }

  /** A document written under the promise reopens as itself exactly when it records at
      least one effect; the document of a request counted before the first effect does not. */
  lemma {:induction false} ReopensIffEffective(t: Target)
    requires ExactlyOnce(t.content) && Bounded(t.content)
    ensures Reopen(t) == (if t.content.version >= 1 then Some(t) else None)
  {
    TotalOfOnes(t.content.effects);
  }

  // ---- the running simulator ----

  /** The simulator object: its memory, and the document last put in place on disk. */
  class Behavior {
    const script: Script
    var records: map<Sku, Record>
    var version: nat
    var receipts: map<Key, Receipt>
    var effects: map<Key, nat>
    var requests: nat
    var faults: seq<nat>
    var document: Option<Target>

    ghost function Memory(): Target
      reads this
    {
      Target(Content(records, version, receipts, effects), requests, faults)
    }

    constructor (script: Script, persisted: Option<Target>)
      ensures this.script == script && document == persisted
      ensures Memory() == if persisted.Some? then persisted.value else Target(EMPTY, 0, [])
    {
      this.script := script;
      document := persisted;
      var t := if persisted.Some? then persisted.value else Target(EMPTY, 0, []);
      records, version := t.content.records, t.content.version;
      receipts, effects := t.content.receipts, t.content.effects;
      requests, faults := t.requests, t.faults;
    }

    method PersistState()
      modifies this`document
      ensures document == Some(Memory())
    {
      document := Some(Target(Content(records, version, receipts, effects), requests, faults));
    }

    /** Store a receipt, or report that the registry is exhausted. */
    method StoreIdempotency(key: Key, entry: Receipt) returns (stored: bool)
      modifies this`receipts
      ensures stored == (key in old(receipts) || |old(receipts)| < MAX_IDEMPOTENCY_ENTRIES)
      ensures receipts == if stored then old(receipts)[key := entry] else old(receipts)
    {
      if key !in receipts && |receipts| >= MAX_IDEMPOTENCY_ENTRIES {
        return false;
      }
      receipts := receipts[key := entry];
      return true;
    }

    /** The part of a request that may change the target. */
    method CommitWrite(w: Write) returns (verdict: Verdict)
      requires document == Some(Memory())
      modifies this
      ensures requests == old(requests) && faults == old(faults)
      ensures (Memory().content, verdict) == Commit(old(Memory()).content, w)
      ensures document == Some(if verdict == RegistryExhausted then old(Memory()) else Memory())
    {
      if w.key in receipts {
        return if receipts[w.key].request != w then KeyConflict else Answered(receipts[w.key], true);
      }
      if w.sku !in records && |records| >= WAREHOUSE_CAPACITY {
        return Full;
      }
      if !PreconditionHolds(w.pre, Content(records, version, receipts, effects), w.sku) {
        return PreconditionFailed;
      }
      var applied := w.sku !in records || records[w.sku].payload != w.payload;
      if applied {
        version := version + 1;
        records := records[w.sku := Record(w.payload, if w.sku in records then records[w.sku].version + 1 else 1)];
      }
      var receipt := Receipt(w, applied, version, records[w.sku].version);
      var stored := StoreIdempotency(w.key, receipt);
      if !stored {
        return RegistryExhausted;
      }
      if applied {
        effects := effects[w.key := CountOf(effects, w.key) + 1];
      }
      PersistState();
      return Answered(receipt, false);
    }

    /** One mutating request. The memory moves as `Upsert` says; the document follows it,
        except that an exhausted registry leaves the memory ahead of the document. */
    method HandleUpsert(w: Write) returns (response: Response)
      modifies this
      ensures (Memory(), response) == Upsert(script, old(Memory()), w)
      ensures document.Some? && document.value.requests == requests && document.value.faults == faults
      ensures document.value.content ==
              if response == Reply(RegistryExhausted) then old(Memory()).content else Memory().content
    {
      requests := requests + 1;
      PersistState();
      if requests in script {
        faults := faults + [requests];
        PersistState();
        if script[requests] in {RateLimit, TransientError, Hang} {
          return NotReached;
        }
      }
      var verdict := CommitWrite(w);
      response := if verdict.Answered? && HidesReply(script, requests) then Ambiguous(verdict) else Reply(verdict);
    }
  }
}
