/**
 What the records of the derived target are, without the rule that places them: every record
 of a source key is that key's first source record, unless the key is classified as a
 mismatch; then its quantity, and nothing else, is three away.
 */
module TargetRecords {
  import opened Dataset
  import opened Slices
  import opened Skus
  import opened TargetSide
  import Decimals

  /** The class of a key on the two sides. */
  ghost function ClassIn(ps: seq<Payload>, sku: string): Classification
    requires KeyOf(ps, sku)
  {
    Classify(AllOf(ps, sku), AllOf(Target(ps), sku))
  }

  lemma {:induction false} IsAmongItsKey(ps: seq<Payload>, i: nat, n: nat)
    requires i < n <= |ps|
    ensures ps[i] in Of(ps, ps[i].sku, n)
  {
    if i < n - 1 { IsAmongItsKey(ps, i, n - 1); }
  }

  lemma {:induction false} PositionOf(ps: seq<Payload>, sku: string) returns (position: nat)
    requires sku in Keys(ps, |ps|)
    ensures position < |Keys(ps, |ps|)| && Keys(ps, |ps|)[position] == sku
  {
    position :| 0 <= position < |Keys(ps, |ps|)| && Keys(ps, |ps|)[position] == sku;
  }

  /** A record of the target that shares its key with the source. */
  lemma {:induction false} TargetKeepsRecords(ps: seq<Payload>, i: nat)
    requires Unreserved(ps) && i < |Target(ps)| && Target(ps)[i].sku in Keys(ps, |ps|)
    ensures var r := Target(ps)[i];
            && KeyOf(ps, r.sku)
            && var p := FirstOf(ps, r.sku);
               if ClassIn(ps, r.sku) == FieldMismatch
               then r == p.(quantity := if p.quantity <= 3 then p.quantity + 3 else p.quantity - 3)
               else r == p
  {
    var r := Target(ps)[i];
    var position := PositionOf(ps, r.sku);
    TargetOfKey(ps, position);
    KeysFollowRule(ps, position);
    IsAmongItsKey(Target(ps), i, |Target(ps)|);
  }

  /** How many records a source key has in the target, read off its class. */
  lemma {:induction false} TargetMultiplicity(ps: seq<Payload>, sku: string)
    requires Unreserved(ps) && sku in Keys(ps, |ps|)
    ensures KeyOf(ps, sku)
    ensures |AllOf(Target(ps), sku)| ==
            match ClassIn(ps, sku)
            case MissingFromTarget => 0
            case DuplicateTarget => 2
            case DuplicateBoth => 2
            case _ => 1
  {
    var position := PositionOf(ps, sku);
    TargetOfKey(ps, position);
    KeysFollowRule(ps, position);
  }

  // ---- the order ----

  /** Where the key of a record stands among the source keys; reserved keys stand behind all. */
  ghost predicate StandsAt(ps: seq<Payload>, r: Payload, position: nat) {
    if position < |Keys(ps, |ps|)| then r.sku == Keys(ps, |ps|)[position]
    else position - |Keys(ps, |ps|)| < TARGET_ONLY_KEYS && r.sku == TargetOnlySku(position - |Keys(ps, |ps|)|)
  }

  /** The positions of some records rise and stay within bounds. */
  ghost predicate Places(ps: seq<Payload>, records: seq<Payload>, at: seq<nat>, from: nat, to: nat) {
    && |at| == |records|
    && (forall i :: 0 <= i < |at| ==> from <= at[i] < to && StandsAt(ps, records[i], at[i]))
    && (forall i, j :: 0 <= i < j < |at| ==> at[i] <= at[j])
  }

  lemma {:induction false} PlacesJoin(
    ps: seq<Payload>, a: seq<Payload>, at: seq<nat>, b: seq<Payload>, bt: seq<nat>, from: nat, mid: nat, to: nat)
    requires from <= mid <= to && Places(ps, a, at, from, mid) && Places(ps, b, bt, mid, to)
    ensures Places(ps, a + b, at + bt, from, to)
  {
  }

  lemma {:induction false} PlacedInOrder(ps: seq<Payload>, n: nat) returns (at: seq<nat>)
    requires n <= |Keys(ps, |ps|)| && forall i :: 0 <= i < |Keys(ps, |ps|)| ==> KeyOf(ps, Keys(ps, |ps|)[i])
    ensures Places(ps, PlacedTo(ps, Keys(ps, |ps|), n), at, 0, n)
  {
    if n == 0 {
      at := [];
    } else {
      var keys := Keys(ps, |ps|);
      var before := PlacedInOrder(ps, n - 1);
      var p := FirstOf(ps, keys[n - 1]);
      FirstHasKey(ps, keys[n - 1], |ps|);
      var placed := Placed(n - 1, p, |AllOf(ps, keys[n - 1])| > 1);
      var here := seq(|placed|, _ => n - 1);
      PlacesJoin(ps, PlacedTo(ps, keys, n - 1), before, placed, here, 0, n - 1, n);
      at := before + here;
    }
  }

  lemma {:induction false} PlacesPush(
    ps: seq<Payload>, older: seq<Payload>, at: seq<nat>, from: nat, r: Payload, position: nat, whole: seq<Payload>)
    requires Places(ps, older, at, from, position) && from <= position && StandsAt(ps, r, position)
    requires whole == older + [r]
    ensures Places(ps, whole, at + [position], from, position + 1)
  {
  }

  lemma ExtraStands(ps: seq<Payload>, e: nat)
    requires e < TARGET_ONLY_KEYS
    ensures StandsAt(ps, TargetOnly(e), |Keys(ps, |ps|)| + e)
  {
  }

  lemma {:induction false} ExtrasInOrder(ps: seq<Payload>, n: nat) returns (at: seq<nat>)
    requires n <= TARGET_ONLY_KEYS
    ensures Places(ps, Extras(n), at, |Keys(ps, |ps|)|, |Keys(ps, |ps|)| + n)
  {
    at := [];
    if n > 0 {
      var position := |Keys(ps, |ps|)| + (n - 1);
      var before := ExtrasInOrder(ps, n - 1);
      ExtraStands(ps, n - 1);
      PlacesPush(ps, Extras(n - 1), before, |Keys(ps, |ps|)|, TargetOnly(n - 1), position, Extras(n));
      at := before + [position];
    }
  }

  /** The target lists its records in the order in which their keys first appear in the
      source, and the reserved ones behind them. */
  lemma {:induction false} TargetInOrder(ps: seq<Payload>) returns (at: seq<nat>)
    ensures Places(ps, Target(ps), at, 0, |Keys(ps, |ps|)| + TARGET_ONLY_KEYS)
  {
    var k := |Keys(ps, |ps|)|;
    AllKeysOccur(ps);
    var front := PlacedInOrder(ps, k);
    var back := ExtrasInOrder(ps, TARGET_ONLY_KEYS);
    PlacesJoin(ps, PlacedTo(ps, Keys(ps, |ps|), k), front, Extras(TARGET_ONLY_KEYS), back, 0, k, k + TARGET_ONLY_KEYS);
    at := front + back;
  }

  // ---- the reserved records ----

  /** The target has one record of a reserved key. */
  ghost predicate Reserves(ps: seq<Payload>, number: string, quantity: int, digit: string) {
    AllOf(Target(ps), "GRID-TGT-ONLY-" + number) ==
    [Payload("GRID-TGT-ONLY-" + number, quantity, "grade=target-only",
             "Target-only reserve unit " + digit + ", 40.00 USD", "tgt-only-" + number)]
  }

  lemma {:induction false} ReservedEntry(ps: seq<Payload>, e: nat)
    requires Unreserved(ps) && e < TARGET_ONLY_KEYS
    ensures Reserves(ps, Digits(e + 1), 100 + e, Decimals.Numeral(e + 1))
  {
    ReservedKeys(ps, e);
  }

  lemma {:induction false} FirstNumbers(e: nat)
    requires e < 4
    ensures Digits(e + 1) == ["0001", "0002", "0003", "0004"][e] && Decimals.Numeral(e + 1) == ["1", "2", "3", "4"][e]
    ensures 100 + e == [100, 101, 102, 103][e]
  {
    assert e == 0 || e == 1 || e == 2 || e == 3;
  }

  lemma ReservedIs(ps: seq<Payload>, e: nat, number: string, quantity: int, digit: string)
    requires e < 4 && Reserves(ps, Digits(e + 1), 100 + e, Decimals.Numeral(e + 1))
    requires number == Digits(e + 1) && quantity == 100 + e && digit == Decimals.Numeral(e + 1)
    ensures Reserves(ps, number, quantity, digit)
  {
  }

  /** The four reserved records, written out. */
  lemma {:induction false} ReservedTable(ps: seq<Payload>, e: nat)
    requires Unreserved(ps) && e < TARGET_ONLY_KEYS
    ensures Reserves(ps, ["0001", "0002", "0003", "0004"][e], [100, 101, 102, 103][e], ["1", "2", "3", "4"][e])
  {
    ReservedEntry(ps, e);
    FirstNumbers(e);
    ReservedIs(ps, e, ["0001", "0002", "0003", "0004"][e], [100, 101, 102, 103][e], ["1", "2", "3", "4"][e]);
  }

  // ---- what the CSV source loses ----

  /** The keys that the CSV source carries. */
  ghost predicate CsvKeys(rows: seq<Row>, wire: seq<WireRow>, csvSkus: set<string>)
    requires |rows| == |wire|
  {
    forall sku :: sku in csvSkus <==>
      exists i :: 0 <= i < |rows| && wire[i].role != Malformed && SourceOf(rows, i) == CSV && wire[i].payload.sku == sku
  }

  /** The key of a base row is one of them exactly when the row is in the CSV slice. */
  lemma {:induction false} CsvKeyIff(rows: seq<Row>, wire: seq<WireRow>, key: Naming, csvSkus: set<string>, i: nat)
    requires Wired(rows, wire, key) && CsvKeys(rows, wire, csvSkus) && i < |rows| && rows[i].role != Malformed
    ensures wire[i].payload.sku in csvSkus <==> SourceOf(rows, i) == CSV
  {
    if wire[i].payload.sku in csvSkus {
      var j :| 0 <= j < |rows| && wire[j].role != Malformed && SourceOf(rows, j) == CSV
               && wire[j].payload.sku == wire[i].payload.sku;
      SameBaseSameSource(rows, i, j);
    }
  }

  lemma {:induction false} SameBaseSameSource(rows: seq<Row>, i: nat, j: nat)
    requires Ordered(rows) && i < |rows| && j < |rows| && rows[i].base == rows[j].base
    requires rows[i].role != Malformed && rows[j].role != Malformed
    ensures SourceOf(rows, i) == SourceOf(rows, j)
  {
    if i < j {
      DuplicateOf(rows, i, j);
    } else if j < i {
      DuplicateOf(rows, j, i);
    }
  }

  /** A later row of the same base is its duplicate, directly behind it. */
  lemma {:induction false} DuplicateOf(rows: seq<Row>, i: nat, j: nat)
    requires Ordered(rows) && i < j < |rows| && rows[i].base == rows[j].base
    requires rows[i].role != Malformed && rows[j].role != Malformed
    ensures SourceOf(rows, j) == SourceOf(rows, i)
  {
    assert rows[j].role == Duplicate && IsBase(rows[j - 1]) && rows[j - 1].base == rows[j].base;
    assert i == j - 1;
    DuplicateJoinsBase(rows, j);
  }

  /** The observation made of a row that is not quarantined. */
  ghost predicate Observes(rows: seq<Row>, wire: seq<WireRow>, csvSkus: set<string>, i: nat, n: nat)
    requires i < n <= |rows| == |wire|
  {
    exists j :: 0 <= j < |Observed(wire, csvSkus, n)| &&
      var p := Observed(wire, csvSkus, n)[j];
      p == wire[i].payload.(attributes := if SourceOf(rows, i) == CSV then "" else wire[i].payload.attributes)
  }

  /** Every row that is not malformed is observed as it is on the wire, except that rows of the
      CSV slice, and only they, lose their attributes. */
  lemma {:induction false} CsvLosesAttributes(
    rows: seq<Row>, wire: seq<WireRow>, key: Naming, csvSkus: set<string>, i: nat, n: nat)
    requires Wired(rows, wire, key) && CsvKeys(rows, wire, csvSkus) && i < n <= |rows| && rows[i].role != Malformed
    ensures Observes(rows, wire, csvSkus, i, n)
  {
    var all := Observed(wire, csvSkus, n);
    if i == n - 1 {
      CsvKeyIff(rows, wire, key, csvSkus, i);
      assert all[|all| - 1] == Stripped(wire[i].payload, csvSkus);
    } else {
      CsvLosesAttributes(rows, wire, key, csvSkus, i, n - 1);
      var before := Observed(wire, csvSkus, n - 1);
      var j :| 0 <= j < |before| &&
        before[j] == wire[i].payload.(attributes := if SourceOf(rows, i) == CSV then ""
          else wire[i].payload.attributes);
      assert all[j] == before[j];
    }
  }

  /** And nothing else is observed, in no other order. */
  lemma {:induction false} ObservedInOrder(wire: seq<WireRow>, csvSkus: set<string>, n: nat) returns (at: seq<nat>)
    requires n <= |wire|
    ensures |at| == |Observed(wire, csvSkus, n)|
    ensures forall j :: 0 <= j < |at| ==>
              && at[j] < n && wire[at[j]].role != Malformed
              && Observed(wire, csvSkus, n)[j].sku == wire[at[j]].payload.sku
              && Observed(wire, csvSkus, n)[j].quantity == wire[at[j]].payload.quantity
    ensures forall j, k :: 0 <= j < k < |at| ==> at[j] < at[k]
  {
    if n == 0 {
      at := [];
    } else {
      at := ObservedInOrder(wire, csvSkus, n - 1);
      if wire[n - 1].role != Malformed { at := at + [n - 1]; }
    }
  }

  // ---- what a match is ----

  /** Two single records match exactly when they agree in every field but the key of their
      origin. */
  lemma {:induction false} OriginDoesNotCount(p: Payload, q: Payload)
    ensures Classify([p], [q]) ==
            if p.sku == q.sku && p.quantity == q.quantity && p.attributes == q.attributes && p.details == q.details
            then Match else FieldMismatch
  {
  }
}
