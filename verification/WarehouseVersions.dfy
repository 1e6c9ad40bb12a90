/**
 The version numbers of the warehouse. A first answer states the target and the record as
 the write leaves them; over any history within the registry the applied receipts number
 the effects on the target, and those on each record, without gap or repetition.
 */
module WarehouseVersions {
  import opened Warehouse

  // ---- one answer ----

  /** The target changed by a write: its record, and nothing else. */
  ghost predicate ChangedBy(c: Content, w: Write, c': Content) {
    && w.sku in c'.records && c'.records[w.sku].payload == w.payload
    && c'.records[w.sku].version == (if w.sku in c.records then c.records[w.sku].version else 0) + 1
    && (forall s :: s != w.sku ==> (s in c'.records <==> s in c.records))
    && (forall s :: s != w.sku && s in c.records ==> c'.records[s] == c.records[s])
    && c'.version == c.version + 1
  }

  predicate IsNews(c: Content, w: Write) { w.sku !in c.records || c.records[w.sku].payload != w.payload }

  /** The first answer to a key is the receipt that is kept; it states the versions as they are
      after the write, and the write changed the target if and only if it was news. */
  lemma {:induction false} AnswerIsCurrent(c: Content, w: Write)
    requires w.key !in c.receipts && Commit(c, w).1.Answered?
    ensures var (c', verdict) := Commit(c, w);
            && !verdict.replayed && w.key in c'.receipts && c'.receipts[w.key] == verdict.receipt
            && verdict.receipt.request == w && (verdict.receipt.applied <==> IsNews(c, w))
            && w.sku in c'.records && c'.records[w.sku].payload == w.payload
            && verdict.receipt.targetVersion == c'.version
            && verdict.receipt.recordVersion == c'.records[w.sku].version
            && (if IsNews(c, w) then ChangedBy(c, w, c') else c'.records == c.records && c'.version == c.version)
  {
  }

  /** What a guard asks of the record, written out. */
  predicate Permits(c: Content, w: Write) {
    && (w.pre == MustBeAbsent ==> w.sku !in c.records)
    && (w.pre.MustHold? ==> w.sku in c.records && c.records[w.sku].payload == w.pre.payload)
  }

  /** The verdict on a new key: a new record needs room, then the guard must permit the write, and
      then the registry must have room for its receipt. Only a write that all three let pass is
      answered, and one that the first or the second refuses changes nothing. */
  lemma {:induction false} VerdictIs(c: Content, w: Write)
    requires w.key !in c.receipts
    ensures var (c', verdict) := Commit(c, w);
            if w.sku !in c.records && |c.records| >= WAREHOUSE_CAPACITY then verdict == Full && c' == c
            else if !Permits(c, w) then verdict == PreconditionFailed && c' == c
            else if |c.receipts| >= MAX_IDEMPOTENCY_ENTRIES then verdict == RegistryExhausted
            else verdict.Answered?
  {
  }

  // ---- all answers ----

  predicate AppliedAt(c: Content, k: Key) { k in c.receipts && c.receipts[k].applied }

  ghost predicate HasTarget(c: Content, v: nat) { exists k :: AppliedAt(c, k) && c.receipts[k].targetVersion == v }

  /** The applied receipts bear the target versions 1 to the current one, each once. */
  ghost predicate TargetNumbered(c: Content) {
    && (forall k :: AppliedAt(c, k) ==> 1 <= c.receipts[k].targetVersion <= c.version)
    && (forall k, k' :: AppliedAt(c, k) && AppliedAt(c, k') && k != k' ==>
          c.receipts[k].targetVersion != c.receipts[k'].targetVersion)
    && (forall v: nat :: 1 <= v <= c.version ==> HasTarget(c, v))
  }

  predicate AppliedTo(c: Content, k: Key, sku: Sku) { AppliedAt(c, k) && c.receipts[k].request.sku == sku }

  function VersionOf(c: Content, sku: Sku): nat { if sku in c.records then c.records[sku].version else 0 }

  ghost predicate HasRecord(c: Content, sku: Sku, v: nat) {
    exists k :: AppliedTo(c, k, sku) && c.receipts[k].recordVersion == v
  }

  /** The applied receipts of one record bear its versions 1 to the current one, each once, and
      the last of them wrote its payload. */
  ghost predicate RecordNumbered(c: Content, sku: Sku) {
    && (forall k :: AppliedTo(c, k, sku) ==> 1 <= c.receipts[k].recordVersion <= VersionOf(c, sku))
    && (forall k, k' :: AppliedTo(c, k, sku) && AppliedTo(c, k', sku) && k != k' ==>
          c.receipts[k].recordVersion != c.receipts[k'].recordVersion)
    && (forall v: nat :: 1 <= v <= VersionOf(c, sku) ==> HasRecord(c, sku, v))
    && (forall k :: AppliedTo(c, k, sku) && c.receipts[k].recordVersion == VersionOf(c, sku) ==>
          sku in c.records && c.records[sku].payload == c.receipts[k].request.payload)
  }

  ghost predicate Numbered(c: Content) { TargetNumbered(c) && forall sku :: RecordNumbered(c, sku) }

  /** What an answered write leaves of the receipts. */
  lemma {:induction false} OneMoreReceipt(c: Content, w: Write)
    requires w.key !in c.receipts && Commit(c, w).1.Answered?
    ensures var (c', verdict) := Commit(c, w);
            && (forall k :: AppliedAt(c', k) <==> AppliedAt(c, k) || (k == w.key && IsNews(c, w)))
            && (forall k :: AppliedAt(c, k) ==> k != w.key && c'.receipts[k] == c.receipts[k])
            && c'.receipts[w.key] == verdict.receipt
  {
    AnswerIsCurrent(c, w);
  }

  /** The receipts of `c'` are those of `c` and, if it was news, one that states the target and
      the record of `c'`. */
  ghost predicate Grows(c: Content, w: Write, c': Content) {
    && (forall k :: AppliedAt(c', k) <==> AppliedAt(c, k) || (k == w.key && IsNews(c, w)))
    && (forall k :: AppliedAt(c, k) ==> k != w.key && c'.receipts[k] == c.receipts[k])
    && c'.version == c.version + (if IsNews(c, w) then 1 else 0)
    && (forall sku :: VersionOf(c', sku) == VersionOf(c, sku) + if sku == w.sku && IsNews(c, w) then 1 else 0)
    && (forall sku :: sku in c.records ==> sku in c'.records)
    && (forall sku :: sku in c.records && !(sku == w.sku && IsNews(c, w)) ==> c'.records[sku] == c.records[sku])
    && (IsNews(c, w) ==>
          && w.sku in c'.records && c'.records[w.sku].payload == w.payload
          && w.key in c'.receipts && c'.receipts[w.key].request == w
          && c'.receipts[w.key].targetVersion == c'.version
          && c'.receipts[w.key].recordVersion == VersionOf(c', w.sku))
  }

  lemma {:induction false} AnsweredGrows(c: Content, w: Write)
    requires w.key !in c.receipts && Commit(c, w).1.Answered?
    ensures Grows(c, w, Commit(c, w).0)
  {
    AnswerIsCurrent(c, w);
    OneMoreReceipt(c, w);
  }

  lemma {:induction false} TargetStaysNumbered(c: Content, w: Write, c': Content)
    requires TargetNumbered(c) && Grows(c, w, c')
    ensures TargetNumbered(c')
  {
    forall v: nat | 1 <= v <= c'.version ensures HasTarget(c', v) {
      if v <= c.version {
        assert HasTarget(c, v);
        var k :| AppliedAt(c, k) && c.receipts[k].targetVersion == v;
        assert AppliedAt(c', k) && c'.receipts[k].targetVersion == v;
      } else {
        assert AppliedAt(c', w.key) && c'.receipts[w.key].targetVersion == v;
      }
    }
  }

  lemma {:induction false} RecordKeepsVersions(c: Content, w: Write, c': Content, sku: Sku, v: nat)
    requires RecordNumbered(c, sku) && Grows(c, w, c') && 1 <= v <= VersionOf(c', sku)
    ensures HasRecord(c', sku, v)
  {
    if v <= VersionOf(c, sku) {
      assert HasRecord(c, sku, v);
      var k :| AppliedTo(c, k, sku) && c.receipts[k].recordVersion == v;
      assert AppliedTo(c', k, sku) && c'.receipts[k].recordVersion == v;
    } else {
      assert AppliedTo(c', w.key, sku) && c'.receipts[w.key].recordVersion == v;
    }
  }

  lemma {:induction false} RecordStaysNumbered(c: Content, w: Write, c': Content, sku: Sku)
    requires RecordNumbered(c, sku) && Grows(c, w, c')
    ensures RecordNumbered(c', sku)
  {
    forall v: nat | 1 <= v <= VersionOf(c', sku) ensures HasRecord(c', sku, v) {
      RecordKeepsVersions(c, w, c', sku, v);
    }
    assert forall k :: AppliedTo(c', k, sku) ==> AppliedTo(c, k, sku) || (k == w.key && sku == w.sku && IsNews(c, w));
  }

  /** A write that is not answered leaves the content as it is, unless it breaks the promise. */
  lemma {:induction false} UnansweredStays(c: Content, w: Write)
    requires !BreaksPromise(c, w) && (w.key in c.receipts || !Commit(c, w).1.Answered?)
    ensures Commit(c, w).0 == c
  {
  }

  lemma {:induction false} CommitNumbers(c: Content, w: Write)
    requires Numbered(c) && !BreaksPromise(c, w)
    ensures Numbered(Commit(c, w).0)
  {
    if w.key in c.receipts || !Commit(c, w).1.Answered? {
      UnansweredStays(c, w);
    } else {
      AnsweredGrows(c, w);
      StaysNumbered(c, w, Commit(c, w).0);
    }
  }

  lemma {:induction false} StaysNumbered(c: Content, w: Write, c': Content)
    requires Numbered(c) && Grows(c, w, c')
    ensures Numbered(c')
  {
    TargetStaysNumbered(c, w, c');
    forall sku ensures RecordNumbered(c', sku) { RecordStaysNumbered(c, w, c', sku); }
  }

  // ---- histories ----

  /** One step after the other, whatever a step is. */
  function Fold(step: (Content, Write) -> Content, writes: seq<Write>, n: nat): Content
    requires n <= |writes|
  {
    if n == 0 then EMPTY else step(Fold(step, writes, n - 1), writes[n - 1])
  }

  function Mutation(): (Content, Write) -> Content { (c: Content, w: Write) => Commit(c, w).0 }

  lemma {:induction false} FoldIs(writes: seq<Write>, n: nat)
    requires n <= |writes|
    ensures Fold(Mutation(), writes, n) == CommitAll(writes, n)
  {
    if n > 0 { FoldIs(writes, n - 1); }
  }

  ghost predicate GoodBelow(
      step: (Content, Write) -> Content, writes: seq<Write>, n: nat, good: (Content, Write) -> bool)
    requires n <= |writes|
  {
    forall i :: 0 <= i < n ==> good(Fold(step, writes, i), writes[i])
  }

  /** What every good step keeps, many good steps keep. */
  lemma {:induction false} FoldKeeps(
    step: (Content, Write) -> Content, writes: seq<Write>, m: nat, n: nat, good: (Content, Write) -> bool,
    keeps: Content -> bool)
    requires m <= n <= |writes| && keeps(Fold(step, writes, m)) && GoodBelow(step, writes, n, good)
    requires forall c, w :: keeps(c) && good(c, w) ==> keeps(step(c, w))
    ensures keeps(Fold(step, writes, n))
  {
    if m < n {
      FoldKeeps(step, writes, m, n - 1, good, keeps);
      assert good(Fold(step, writes, n - 1), writes[n - 1]);
    }
  }

  lemma {:induction false} KeepsPromise(writes: seq<Write>, n: nat)
    requires n <= |writes| && n <= MAX_IDEMPOTENCY_ENTRIES
    ensures GoodBelow(Mutation(), writes, n, (c: Content, w: Write) => !BreaksPromise(c, w))
  {
    forall i | 0 <= i < n ensures !BreaksPromise(Fold(Mutation(), writes, i), writes[i]) {
      FoldIs(writes, i);
      EveryWriteHistoryKeepsPromise(writes, i);
    }
  }

  lemma EmptyIsNumbered()
    ensures Numbered(EMPTY)
  {
  }

  /** Over any writes, replayed, conflicting or refused, no more than the registry remembers. */
  lemma {:induction false} EveryHistoryNumbers(writes: seq<Write>, n: nat)
    requires n <= |writes| && n <= MAX_IDEMPOTENCY_ENTRIES
    ensures Numbered(CommitAll(writes, n))
  {
    var good := (c: Content, w: Write) => !BreaksPromise(c, w);
    var keeps := (c: Content) => Numbered(c);
    KeepsPromise(writes, n);
    EmptyIsNumbered();
    forall c, w | keeps(c) && good(c, w) ensures keeps(Mutation()(c, w)) { CommitNumbers(c, w); }
    FoldKeeps(Mutation(), writes, 0, n, good, keeps);
    FoldIs(writes, n);
  }

  lemma ReceiptStays(c: Content, w: Write, k: Key, receipt: Receipt)
    requires k in c.receipts && c.receipts[k] == receipt
    ensures k in Commit(c, w).0.receipts && Commit(c, w).0.receipts[k] == receipt
  {
  }

  /** Receipts are for good. */
  lemma {:induction false} ReceiptsStay(writes: seq<Write>, m: nat, n: nat, k: Key, receipt: Receipt)
    requires m <= n <= |writes| && k in CommitAll(writes, m).receipts && CommitAll(writes, m).receipts[k] == receipt
    ensures k in CommitAll(writes, n).receipts && CommitAll(writes, n).receipts[k] == receipt
  {
    var any := (c: Content, w: Write) => true;
    var keeps := (c: Content) => k in c.receipts && c.receipts[k] == receipt;
    forall c, w | keeps(c) && any(c, w) ensures keeps(Mutation()(c, w)) { ReceiptStays(c, w, k, receipt); }
    FoldIs(writes, m);
    FoldKeeps(Mutation(), writes, m, n, any, keeps);
    FoldIs(writes, n);
  }

  /** In any history the receipt of a write that took effect bears the version it brought the
      target to, so the receipts are numbered in the order of the effects. */
  lemma {:induction false} EffectsAreNumberedInOrder(writes: seq<Write>, i: nat, n: nat)
    requires i < n <= |writes| && n <= MAX_IDEMPOTENCY_ENTRIES
    requires CommitAll(writes, i + 1).version > CommitAll(writes, i).version
    ensures var c := CommitAll(writes, n);
            && AppliedAt(c, writes[i].key) && c.receipts[writes[i].key].request == writes[i]
            && c.receipts[writes[i].key].targetVersion == CommitAll(writes, i + 1).version
            && CommitAll(writes, i + 1).version == CommitAll(writes, i).version + 1
  {
    var before, w := CommitAll(writes, i), writes[i];
    EveryWriteHistoryKeepsPromise(writes, i);
    if w.key in before.receipts || !Commit(before, w).1.Answered? {
      UnansweredStays(before, w);
    } else {
      AnswerIsCurrent(before, w);
      ReceiptsStay(writes, i + 1, n, w.key, Commit(before, w).1.receipt);
    }
  }

  // ---- documents that load ----

  /** Whatever is on disk, a document that loads is taken as it is and adds up: it records an
      effect, no version exceeds the target's, every effect stands behind an applied receipt,
      the effects sum up to the version, and both tables are within bounds. Any document that
      fails one of these is refused. */
  lemma {:induction false} LoadsIffSound(t: Target)
    ensures Reopen(t).Some? ==> Reopen(t).value == t
    ensures Reopen(t).Some? <==>
            && 1 <= t.content.version == Total(t.content.effects)
            && (forall s :: s in t.content.records ==> 1 <= t.content.records[s].version <= t.content.version)
            && (forall k :: k in t.content.receipts ==>
                  && t.content.receipts[k].targetVersion <= t.content.version
                  && 1 <= t.content.receipts[k].recordVersion <= t.content.version)
            && (forall k :: k in t.content.effects ==> 1 <= t.content.effects[k] && AppliedAt(t.content, k))
            && Bounded(t.content)
  {
  }
}
