/**
 What the warehouse holds while a story loads its divergent baseline and then
 applies its repair plan, write by write.
 */
module StoryTarget {
  import opened Warehouse

  /** The locked inputs of one scenario: the baseline writes, the repair actions in plan
      order, and the action whose reply the scripted connection loss hides. */
  datatype Scenario = Scenario(load: seq<Write>, repairs: seq<Write>, faultAction: nat)

  predicate UpdatesBaseline(sc: Scenario, r: Write) {
    exists j :: 0 <= j < |sc.load| && sc.load[j].sku == r.sku && r.pre == MustHold(sc.load[j].payload)
                && r.payload != sc.load[j].payload
  }

  predicate CreatesRecord(sc: Scenario, r: Write) {
    r.pre == MustBeAbsent && forall j :: 0 <= j < |sc.load| ==> sc.load[j].sku != r.sku
  }

  /** Baseline writes may repeat a record; every repair either creates a record the
      baseline lacks or updates a baseline record to a different payload. */
  predicate WellFormed(sc: Scenario) {
    && 1 <= |sc.load| && |sc.load| + |sc.repairs| <= MAX_IDEMPOTENCY_ENTRIES
    && 1 <= sc.faultAction <= |sc.repairs|
    && (forall i :: 0 <= i < |sc.load| ==> sc.load[i].key == LoadKey(i) && sc.load[i].pre == Always)
    && (forall i, j :: 0 <= i < |sc.load| && 0 <= j < |sc.load| && sc.load[i].sku == sc.load[j].sku ==>
        sc.load[i].payload == sc.load[j].payload)
    && (forall i :: 0 <= i < |sc.repairs| ==> sc.repairs[i].key == RepairKey(i))
    && (forall i, j :: 0 <= i < j < |sc.repairs| ==> sc.repairs[i].sku != sc.repairs[j].sku)
    && (forall i :: 0 <= i < |sc.repairs| ==> CreatesRecord(sc, sc.repairs[i]) || UpdatesBaseline(sc, sc.repairs[i]))
  }

  /** `p` baseline writes and, once the baseline is complete, `q` repairs have an effect. */
  predicate Reached(sc: Scenario, p: nat, q: nat) {
    p <= |sc.load| && q <= |sc.repairs| && (q > 0 ==> p == |sc.load|)
  }

  function ContentAt(sc: Scenario, p: nat, q: nat): Content
    requires Reached(sc, p, q)
  {
    if q > 0 then Commit(ContentAt(sc, p, q - 1), sc.repairs[q - 1]).0
    else if p > 0 then Commit(ContentAt(sc, p - 1, 0), sc.load[p - 1]).0
    else EMPTY
  }

  predicate Repaired(sc: Scenario, q: nat, sku: Sku)
    requires q <= |sc.repairs|
  {
    exists j :: 0 <= j < q && sc.repairs[j].sku == sku
  }

  // ---- the shape of the content ----

  ghost predicate ReceiptsAre(sc: Scenario, p: nat, q: nat, c: Content)
    requires Reached(sc, p, q)
  {
    && (forall k :: k in c.receipts <==> match k case LoadKey(i) => i < p case RepairKey(i) => i < q)
    && (forall i :: 0 <= i < p ==> LoadKey(i) in c.receipts && c.receipts[LoadKey(i)].request == sc.load[i])
    && (forall i :: 0 <= i < q ==>
        && RepairKey(i) in c.receipts && c.receipts[RepairKey(i)].request == sc.repairs[i]
        && c.receipts[RepairKey(i)].applied)
    && |c.receipts| == p + q
  }

  ghost predicate RecordsAre(sc: Scenario, p: nat, q: nat, c: Content)
    requires Reached(sc, p, q)
  {
    && (forall s :: s in c.records ==> Repaired(sc, q, s) || exists i :: 0 <= i < p && sc.load[i].sku == s)
    && (forall i :: 0 <= i < p && !Repaired(sc, q, sc.load[i].sku) ==>
          sc.load[i].sku in c.records && c.records[sc.load[i].sku] == Record(sc.load[i].payload, 1))
    && (forall j :: 0 <= j < q ==>
        sc.repairs[j].sku in c.records && c.records[sc.repairs[j].sku].payload == sc.repairs[j].payload)
    && |c.records| <= p + q
  }

  ghost predicate Shape(sc: Scenario, p: nat, q: nat, c: Content)
    requires Reached(sc, p, q)
  {
    ReceiptsAre(sc, p, q, c) && RecordsAre(sc, p, q, c) && ExactlyOnce(c)
  }

  /** A new key within the bounds whose precondition holds is answered, with or without an effect. */
  lemma FreshWrite(c: Content, w: Write)
    requires w.key !in c.receipts && |c.receipts| < MAX_IDEMPOTENCY_ENTRIES && |c.records| < WAREHOUSE_CAPACITY
    requires PreconditionHolds(w.pre, c, w.sku)
    ensures Commit(c, w).1.Answered?
    ensures var receipt := Commit(c, w).1.receipt;
            && receipt.request == w
            && receipt.applied == (w.sku !in c.records || c.records[w.sku].payload != w.payload)
            && Commit(c, w).0.receipts == c.receipts[w.key := receipt]
            && Commit(c, w).0.records ==
               (if !receipt.applied then c.records
                else c.records[
                  w.sku := Record(w.payload, if w.sku in c.records then c.records[w.sku].version + 1 else 1)])
  {
  }

  lemma {:induction false} ReceiptsGrow(
      sc: Scenario, p: nat, q: nat, c: Content, w: Write, receipt: Receipt, c': Content)
    requires WellFormed(sc) && Reached(sc, p, q) && ReceiptsAre(sc, p, q, c)
    requires receipt.request == w && c'.receipts == c.receipts[w.key := receipt]
    ensures q == 0 && p < |sc.load| && w == sc.load[p] ==> ReceiptsAre(sc, p + 1, 0, c')
    ensures p == |sc.load| && q < |sc.repairs| && w == sc.repairs[q] && receipt.applied ==>
        ReceiptsAre(sc, p, q + 1, c')
  {
    InsertSize(c.receipts, w.key, receipt);
  }

  lemma {:induction false} LoadRecords(sc: Scenario, p: nat, c: Content, c': Content)
    requires WellFormed(sc) && p < |sc.load| && RecordsAre(sc, p, 0, c)
    requires var w := sc.load[p];
             c'.records == if w.sku in c.records then c.records else c.records[w.sku := Record(w.payload, 1)]
    ensures RecordsAre(sc, p + 1, 0, c')
  {
    var w := sc.load[p];
    assert forall s :: !Repaired(sc, 0, s);
    InsertSize(c.records, w.sku, Record(w.payload, 1));
    forall s | s in c'.records ensures exists i :: 0 <= i < p + 1 && sc.load[i].sku == s {
      if s in c.records {
        var i :| 0 <= i < p && sc.load[i].sku == s;
      } else {
        assert sc.load[p].sku == s;
      }
    }
    forall i | 0 <= i < p + 1
      ensures sc.load[i].sku in c'.records && c'.records[sc.load[i].sku] == Record(sc.load[i].payload, 1)
    {
      if i == p && w.sku in c.records {
        var j :| 0 <= j < p && sc.load[j].sku == w.sku;
      }
    }
  }

  /** The next baseline write is answered and takes effect unless its record is already there. */
  lemma {:induction false} LoadExtends(sc: Scenario, p: nat, c: Content)
    requires WellFormed(sc) && p < |sc.load| && Shape(sc, p, 0, c)
    ensures Commit(c, sc.load[p]).1.Answered?
    ensures Shape(sc, p + 1, 0, Commit(c, sc.load[p]).0)
  {
    var w := sc.load[p];
    var c' := Commit(c, w).0;
    FreshWrite(c, w);
    CommitKeepsPromise(c, w);
    ReceiptsGrow(sc, p, 0, c, w, Commit(c, w).1.receipt, c');
    if w.sku in c.records {
      assert !Repaired(sc, 0, w.sku);
      var j :| 0 <= j < p && sc.load[j].sku == w.sku;
      assert !Repaired(sc, 0, sc.load[j].sku);
    }
    LoadRecords(sc, p, c, c');
  }

  lemma {:induction false} RepairRecords(sc: Scenario, q: nat, c: Content, version: nat, c': Content)
    requires WellFormed(sc) && q < |sc.repairs| && RecordsAre(sc, |sc.load|, q, c)
    requires var w := sc.repairs[q]; c'.records == c.records[w.sku := Record(w.payload, version)]
    ensures RecordsAre(sc, |sc.load|, q + 1, c')
  {
    RepairedGrows(sc, q);
    InsertSize(c.records, sc.repairs[q].sku, Record(sc.repairs[q].payload, version));
  }

  lemma {:induction false} RepairPrecondition(sc: Scenario, q: nat, c: Content)
    requires WellFormed(sc) && q < |sc.repairs| && RecordsAre(sc, |sc.load|, q, c)
    ensures var w := sc.repairs[q];
            PreconditionHolds(w.pre, c, w.sku) && (w.sku in c.records ==> c.records[w.sku].payload != w.payload)
  {
    var w := sc.repairs[q];
    assert !Repaired(sc, q, w.sku);
    if UpdatesBaseline(sc, w) {
      var j :| 0 <= j < |sc.load| && sc.load[j].sku == w.sku && w.pre == MustHold(sc.load[j].payload)
          && w.payload != sc.load[j].payload;
      assert c.records[sc.load[j].sku] == Record(sc.load[j].payload, 1);
    } else {
      assert CreatesRecord(sc, w);
    }
  }

  /** The next repair meets its precondition, is answered, and changes the target. */
  lemma {:induction false} RepairExtends(sc: Scenario, q: nat, c: Content)
    requires WellFormed(sc) && q < |sc.repairs| && Shape(sc, |sc.load|, q, c)
    ensures Commit(c, sc.repairs[q]).1.Answered? && Commit(c, sc.repairs[q]).1.receipt.applied
    ensures Shape(sc, |sc.load|, q + 1, Commit(c, sc.repairs[q]).0)
  {
    var w := sc.repairs[q];
    RepairPrecondition(sc, q, c);
    FreshWrite(c, w);
    CommitKeepsPromise(c, w);
    ReceiptsGrow(sc, |sc.load|, q, c, w, Commit(c, w).1.receipt, Commit(c, w).0);
    RepairRecords(sc, q, c, if w.sku in c.records then c.records[w.sku].version + 1 else 1, Commit(c, w).0);
  }

  lemma {:induction false} RepairedGrows(sc: Scenario, q: nat)
    requires q < |sc.repairs|
    ensures forall s :: Repaired(sc, q + 1, s) <==> Repaired(sc, q, s) || s == sc.repairs[q].sku
  {
    forall s ensures Repaired(sc, q + 1, s) <==> Repaired(sc, q, s) || s == sc.repairs[q].sku {
      if s == sc.repairs[q].sku { assert sc.repairs[q].sku == s; }
    }
  }

  lemma {:induction false} ContentShape(sc: Scenario, p: nat, q: nat)
    requires WellFormed(sc) && Reached(sc, p, q)
    ensures Shape(sc, p, q, ContentAt(sc, p, q))
    decreases q, p
  {
    if q > 0 {
      ContentShape(sc, p, q - 1);
      RepairExtends(sc, q - 1, ContentAt(sc, p, q - 1));
    } else if p > 0 {
      ContentShape(sc, p - 1, 0);
      LoadExtends(sc, p - 1, ContentAt(sc, p - 1, 0));
    }
  }

  // ---- what one more write does ----

  lemma {:induction false} NextLoad(sc: Scenario, p: nat)
    requires WellFormed(sc) && p < |sc.load|
    ensures Commit(ContentAt(sc, p, 0), sc.load[p]).0 == ContentAt(sc, p + 1, 0)
    ensures Commit(ContentAt(sc, p, 0), sc.load[p]).1.Answered?
  {
    ContentShape(sc, p, 0);
    LoadExtends(sc, p, ContentAt(sc, p, 0));
  }

  lemma {:induction false} NextRepair(sc: Scenario, q: nat)
    requires WellFormed(sc) && q < |sc.repairs|
    ensures Commit(ContentAt(sc, |sc.load|, q), sc.repairs[q]).0 == ContentAt(sc, |sc.load|, q + 1)
    ensures Commit(ContentAt(sc, |sc.load|, q), sc.repairs[q]).1.Answered?
  {
    ContentShape(sc, |sc.load|, q);
    RepairExtends(sc, q, ContentAt(sc, |sc.load|, q));
  }

  lemma {:induction false} AgainLoad(sc: Scenario, p: nat, q: nat, i: nat)
    requires WellFormed(sc) && Reached(sc, p, q) && i < p
    ensures Commit(ContentAt(sc, p, q), sc.load[i]).0 == ContentAt(sc, p, q)
    ensures Commit(ContentAt(sc, p, q), sc.load[i]).1.Answered?
  {
    ContentShape(sc, p, q);
  }

  lemma {:induction false} AgainRepair(sc: Scenario, q: nat, i: nat)
    requires WellFormed(sc) && q <= |sc.repairs| && i < q
    ensures Commit(ContentAt(sc, |sc.load|, q), sc.repairs[i]).0 == ContentAt(sc, |sc.load|, q)
    ensures Commit(ContentAt(sc, |sc.load|, q), sc.repairs[i]).1.Answered?
  {
    ContentShape(sc, |sc.load|, q);
  }

  // ---- the three looks the story takes at the target ----

  /** The complete baseline, untouched: every record, its version and its receipt. */
  predicate HasInitialTarget(sc: Scenario, c: Content) {
    && (forall i :: 0 <= i < |sc.load| ==>
        sc.load[i].sku in c.records && c.records[sc.load[i].sku] == Record(sc.load[i].payload, 1))
    && (forall s :: s in c.records ==> exists i :: 0 <= i < |sc.load| && sc.load[i].sku == s)
    && (forall i :: 0 <= i < |sc.load| ==> LoadKey(i) in c.receipts)
  }

  /** Every baseline record reads back as it was loaded. */
  predicate BaselineObserved(sc: Scenario, c: Content) {
    forall i :: 0 <= i < |sc.load| ==>
      sc.load[i].sku in c.records && c.records[sc.load[i].sku].payload == sc.load[i].payload
  }

  /** The target equals the repaired inventory: the baseline overwritten by the plan. */
  predicate ParityHolds(sc: Scenario, c: Content) {
    && (forall j :: 0 <= j < |sc.repairs| ==>
        sc.repairs[j].sku in c.records && c.records[sc.repairs[j].sku].payload == sc.repairs[j].payload)
    && (forall i :: 0 <= i < |sc.load| && !Repaired(sc, |sc.repairs|, sc.load[i].sku) ==>
          sc.load[i].sku in c.records && c.records[sc.load[i].sku].payload == sc.load[i].payload)
    && (forall s :: s in c.records ==>
        Repaired(sc, |sc.repairs|, s) || exists i :: 0 <= i < |sc.load| && sc.load[i].sku == s)
  }

  predicate NoUpdateAmong(sc: Scenario, q: nat)
    requires q <= |sc.repairs|
  {
    forall j :: 0 <= j < q ==> !sc.repairs[j].pre.MustHold?
  }

  lemma {:induction false} RepairedTargetIsNotInitial(sc: Scenario, q: nat, c: Content)
    requires WellFormed(sc) && 0 < q <= |sc.repairs| && RecordsAre(sc, |sc.load|, q, c)
    ensures !HasInitialTarget(sc, c)
  {
    var w := sc.repairs[0];
    assert w.sku in c.records && c.records[w.sku].payload == w.payload;
    if UpdatesBaseline(sc, w) {
      var j :| 0 <= j < |sc.load| && sc.load[j].sku == w.sku && w.payload != sc.load[j].payload;
    } else {
      assert CreatesRecord(sc, w);
    }
  }

  lemma {:induction false} LoadedTargetIsInitial(sc: Scenario, c: Content)
    requires WellFormed(sc) && ReceiptsAre(sc, |sc.load|, 0, c) && RecordsAre(sc, |sc.load|, 0, c)
    ensures HasInitialTarget(sc, c)
  {
    assert forall s :: !Repaired(sc, 0, s);
  }

  lemma {:induction false} InitialTargetIff(sc: Scenario, p: nat, q: nat, c: Content)
    requires WellFormed(sc) && Reached(sc, p, q) && ReceiptsAre(sc, p, q, c) && RecordsAre(sc, p, q, c)
    ensures HasInitialTarget(sc, c) <==> p == |sc.load| && q == 0
  {
    if q > 0 {
      RepairedTargetIsNotInitial(sc, q, c);
    } else if p < |sc.load| {
      assert LoadKey(p) !in c.receipts;
    } else {
      LoadedTargetIsInitial(sc, c);
    }
  }

  lemma {:induction false} ObservedIff(sc: Scenario, q: nat, c: Content)
    requires WellFormed(sc) && q <= |sc.repairs| && RecordsAre(sc, |sc.load|, q, c)
    ensures BaselineObserved(sc, c) <==> NoUpdateAmong(sc, q)
  {
    var p := |sc.load|;
    if NoUpdateAmong(sc, q) {
      forall i | 0 <= i < p ensures !Repaired(sc, q, sc.load[i].sku) {
        assert forall j :: 0 <= j < q ==> CreatesRecord(sc, sc.repairs[j]);
      }
    } else {
      var j :| 0 <= j < q && sc.repairs[j].pre.MustHold?;
      assert UpdatesBaseline(sc, sc.repairs[j]);
      var i :| 0 <= i < p && sc.load[i].sku == sc.repairs[j].sku && sc.repairs[j].payload != sc.load[i].payload;
      assert c.records[sc.load[i].sku].payload == sc.repairs[j].payload;
    }
  }

  lemma {:induction false} ParityAtTheEnd(sc: Scenario)
    requires WellFormed(sc)
    ensures ParityHolds(sc, ContentAt(sc, |sc.load|, |sc.repairs|))
  {
    ContentShape(sc, |sc.load|, |sc.repairs|);
  }

  /** The same records with the same payloads, whatever their versions. */
  ghost predicate SamePayloads(c: Content, d: Content) {
    && (forall s :: s in c.records <==> s in d.records)
    && (forall s :: s in c.records && s in d.records ==> c.records[s].payload == d.records[s].payload)
  }

  /** Of any content whatever, parity holds exactly when it has the records of the repaired
      target with their payloads. */
  lemma {:induction false} ParityIff(sc: Scenario, c: Content)
    requires WellFormed(sc)
    ensures ParityHolds(sc, c) <==> SamePayloads(c, ContentAt(sc, |sc.load|, |sc.repairs|))
  {
    var d := ContentAt(sc, |sc.load|, |sc.repairs|);
    ParityAtTheEnd(sc);
    if ParityHolds(sc, c) {
      ParityFixes(sc, c, d);
    } else if SamePayloads(c, d) {
      ParityCopies(sc, c, d);
      assert false;
    }
  }

  lemma {:induction false} ParityFixes(sc: Scenario, c: Content, d: Content)
    requires ParityHolds(sc, c) && ParityHolds(sc, d)
    ensures SamePayloads(c, d)
  {
    forall s ensures s in c.records <==> s in d.records {
      if s in c.records { ParityAgrees(sc, c, d, s); }
      if s in d.records { ParityAgrees(sc, d, c, s); }
    }
    forall s | s in c.records && s in d.records ensures c.records[s].payload == d.records[s].payload {
      ParityAgrees(sc, c, d, s);
    }
  }

  lemma {:induction false} ParityAgrees(sc: Scenario, c: Content, d: Content, s: Sku)
    requires ParityHolds(sc, c) && ParityHolds(sc, d) && s in c.records
    ensures s in d.records && c.records[s].payload == d.records[s].payload
  {
    if Repaired(sc, |sc.repairs|, s) {
      var j :| 0 <= j < |sc.repairs| && sc.repairs[j].sku == s;
    } else {
      var i :| 0 <= i < |sc.load| && sc.load[i].sku == s;
    }
  }

  lemma {:induction false} ParityCopies(sc: Scenario, c: Content, d: Content)
    requires ParityHolds(sc, d) && SamePayloads(c, d)
    ensures ParityHolds(sc, c)
  {
  }

  // ---- a small scenario ----

  /** One baseline record that is updated, another record that is created, and the connection
      lost at the creation. */
  function SmallScenario(): Scenario {
    Scenario([Write("a", "1", LoadKey(0), Always)],
             [Write("a", "2", RepairKey(0), MustHold("1")), Write("b", "3", RepairKey(1), MustBeAbsent)], 2)
  }

  lemma {:induction false} SmallScenarioIsWellFormed()
    ensures WellFormed(SmallScenario())
  {
    var sc := SmallScenario();
    assert "a"[0] != "b"[0] && "1"[0] != "2"[0];
    assert sc.load[0].sku == "a" && sc.load[0].payload == "1";
    assert UpdatesBaseline(sc, sc.repairs[0]);
    assert CreatesRecord(sc, sc.repairs[1]);
  }
}
