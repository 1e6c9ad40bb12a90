/**
 The locked counts of a scenario. Rows are counted slice by slice and keys by what the
 analysis classified them as; for every dataset the counts agree with each other and with
 the closed rule of the target derivation.
 */
module ScenarioCounts {
  import opened Wrappers
  import opened Dataset
  import opened Skus
  import opened Slices
  import opened TargetSide

  // ---- what the four sources deliver ----

  /** The observations of one source among the first `n` rows, malformed rows quarantined. */
  function ObservedIn(rows: seq<Row>, wire: seq<WireRow>, csvSkus: set<string>, k: nat, n: nat): seq<Payload>
    requires n <= |rows| == |wire|
  {
    if n == 0 then []
    else if wire[n - 1].role == Malformed || SourceOf(rows, n - 1) != k then ObservedIn(rows, wire, csvSkus, k, n - 1)
    else ObservedIn(rows, wire, csvSkus, k, n - 1) + [Stripped(wire[n - 1].payload, csvSkus)]
  }

  /** All observations, source after source. */
  function Delivered(rows: seq<Row>, wire: seq<WireRow>, csvSkus: set<string>): seq<Payload>
    requires |rows| == |wire|
  {
    (ObservedIn(rows, wire, csvSkus, ASYNC, |rows|) + ObservedIn(rows, wire, csvSkus, BLOCKING, |rows|)) +
    (ObservedIn(rows, wire, csvSkus, CSV, |rows|) + ObservedIn(rows, wire, csvSkus, JSONL, |rows|))
  }

  /** All records of a key come from one source, in row order. */
  lemma {:induction false} KeyInOneSource(
    rows: seq<Row>, wire: seq<WireRow>, key: Naming, csvSkus: set<string>, k: nat, i: nat, n: nat)
    requires Wired(rows, wire, key) && i < |rows| && IsBase(rows[i]) && n <= |rows|
    ensures AllOf(ObservedIn(rows, wire, csvSkus, k, n), key(rows[i].base)) ==
            if SourceOf(rows, i) == k then AllOf(Observed(wire, csvSkus, n), key(rows[i].base)) else []
  {
    if n > 0 {
      KeyInOneSource(rows, wire, key, csvSkus, k, i, n - 1);
      if wire[n - 1].role != Malformed {
        var p := Stripped(wire[n - 1].payload, csvSkus);
        OneMore(Observed(wire, csvSkus, n - 1), p, key(rows[i].base));
        OneMore(ObservedIn(rows, wire, csvSkus, k, n - 1), p, key(rows[i].base));
        SameKeyIff(rows, wire, key, i, n - 1);
        if n - 1 == i + 1 && Followed(rows, i) { DuplicateJoinsBase(rows, i + 1); }
      }
    }
  }

  lemma {:induction false} NoneInSource(
      rows: seq<Row>, wire: seq<WireRow>, csvSkus: set<string>, k: nat, sku: string, n: nat)
    requires n <= |rows| == |wire| && AllOf(Observed(wire, csvSkus, n), sku) == []
    ensures AllOf(ObservedIn(rows, wire, csvSkus, k, n), sku) == []
  {
    if n > 0 {
      if wire[n - 1].role == Malformed {
        NoneInSource(rows, wire, csvSkus, k, sku, n - 1);
      } else {
        var p := Stripped(wire[n - 1].payload, csvSkus);
        OneMore(Observed(wire, csvSkus, n - 1), p, sku);
        OneMore(ObservedIn(rows, wire, csvSkus, k, n - 1), p, sku);
        NoneInSource(rows, wire, csvSkus, k, sku, n - 1);
      }
    }
  }

  /** Of four parts only one has records of the key. */
  lemma {:induction false} OfOnePart(
    a: seq<Payload>, b: seq<Payload>, c: seq<Payload>, d: seq<Payload>, sku: string, which: nat, records: seq<Payload>)
    requires AllOf(a, sku) == if which == 0 then records else []
    requires AllOf(b, sku) == if which == 1 then records else []
    requires AllOf(c, sku) == if which == 2 then records else []
    requires AllOf(d, sku) == if which == 3 then records else []
    requires which < 4
    ensures AllOf((a + b) + (c + d), sku) == records
  {
    if which == 0 {
      AllOfLeft(a, b, sku);
    } else {
      AllOfRight(a, b, sku);
    }
    if which == 2 {
      AllOfLeft(c, d, sku);
    } else {
      AllOfRight(c, d, sku);
    }
    if which < 2 {
      AllOfLeft(a + b, c + d, sku);
    } else {
      AllOfRight(a + b, c + d, sku);
    }
  }

  /** Slicing changes the order of the observations and nothing about any key. */
  lemma {:induction false} SlicingKeepsKeys(
      rows: seq<Row>, wire: seq<WireRow>, key: Naming, csvSkus: set<string>, sku: string)
    requires Wired(rows, wire, key)
    ensures AllOf(Delivered(rows, wire, csvSkus), sku) == AllOf(Observed(wire, csvSkus, |rows|), sku)
  {
    var n := |rows|;
    var all := Observed(wire, csvSkus, n);
    var a, b := ObservedIn(rows, wire, csvSkus, ASYNC, n), ObservedIn(rows, wire, csvSkus, BLOCKING, n);
    var c, d := ObservedIn(rows, wire, csvSkus, CSV, n), ObservedIn(rows, wire, csvSkus, JSONL, n);
    if AllOf(all, sku) == [] {
      NoneInSource(rows, wire, csvSkus, ASYNC, sku, n);
      NoneInSource(rows, wire, csvSkus, BLOCKING, sku, n);
      NoneInSource(rows, wire, csvSkus, CSV, sku, n);
      NoneInSource(rows, wire, csvSkus, JSONL, sku, n);
      OfOnePart(a, b, c, d, sku, 0, []);
    } else {
      var i := BaseOfKey(rows, wire, key, csvSkus, sku);
      KeyInOneSource(rows, wire, key, csvSkus, ASYNC, i, n);
      KeyInOneSource(rows, wire, key, csvSkus, BLOCKING, i, n);
      KeyInOneSource(rows, wire, key, csvSkus, CSV, i, n);
      KeyInOneSource(rows, wire, key, csvSkus, JSONL, i, n);
      OfOnePart(a, b, c, d, sku, SourceOf(rows, i), AllOf(all, sku));
    }
  }

  lemma {:induction false} BaseAt(rows: seq<Row>, position: nat, n: nat) returns (i: nat)
    requires n <= |rows| && position < BasesBefore(rows, n)
    ensures i < n && IsBase(rows[i]) && BasesBefore(rows, i) == position
  {
    if BasesBefore(rows, n - 1) == position { i := n - 1; } else { i := BaseAt(rows, position, n - 1); }
  }

  /** Every observed key is the key of a base row. */
  lemma {:induction false} BaseOfKey(rows: seq<Row>, wire: seq<WireRow>, key: Naming, csvSkus: set<string>, sku: string)
    returns (i: nat)
    requires Wired(rows, wire, key) && AllOf(Observed(wire, csvSkus, |rows|), sku) != []
    ensures i < |rows| && IsBase(rows[i]) && key(rows[i].base) == sku
  {
    var all := Observed(wire, csvSkus, |rows|);
    KeysOccur(all, |all|, sku);
    KeysOfDataset(rows, wire, key, csvSkus, |rows|);
    var position :| 0 <= position < |Keys(all, |all|)| && Keys(all, |all|)[position] == sku;
    i := BaseAt(rows, position, |rows|);
  }

  // ---- the keys and their classification ----

  function Reserved(n: nat): (skus: seq<string>)
    requires n <= TARGET_ONLY_KEYS
    ensures |skus| == n && forall e :: 0 <= e < n ==> skus[e] == TargetOnlySku(e)
  {
    if n == 0 then [] else Reserved(n - 1) + [TargetOnlySku(n - 1)]
  }

  /** The keys of the source in order of appearance, then the reserved ones. */
  function KeyList(source: seq<Payload>): seq<string> { Keys(source, |source|) + Reserved(TARGET_ONLY_KEYS) }

  predicate Distinct(keys: seq<string>) { forall i, j :: 0 <= i < j < |keys| ==> keys[i] != keys[j] }

  lemma {:induction false} KeyListDistinct(source: seq<Payload>)
    requires Unreserved(source)
    ensures Distinct(KeyList(source))
  {
    var keys := Keys(source, |source|);
    KeysDistinct(source, |source|);
    forall i, j | 0 <= i < j < |KeyList(source)| ensures KeyList(source)[i] != KeyList(source)[j] {
      if i < |keys| <= j {
        KeysOccur(source, |source|, keys[i]);
        var at := OccursSomewhere(source, keys[i], |source|);
      } else if |keys| <= i {
        TargetOnlyDistinct(i - |keys|, j - |keys|);
      }
    }
  }

  /** The list holds exactly the keys that occur on either side. */
  lemma {:induction false} KeysOnEitherSide(source: seq<Payload>, sku: string)
    requires Unreserved(source)
    ensures sku in KeyList(source) <==> AllOf(source, sku) != [] || AllOf(Target(source), sku) != []
  {
    var keys := Keys(source, |source|);
    KeysOccur(source, |source|, sku);
    if sku !in keys {
      OtherKeys(source, sku);
      if e: nat :| e < TARGET_ONLY_KEYS && sku == TargetOnlySku(e) {
        ReservedKeys(source, e);
        assert Reserved(TARGET_ONLY_KEYS)[e] == sku;
      }
    }
  }

  /** What the analysis makes of one key; `None` for a key on neither side. */
  function ClassOf(source: seq<Payload>, target: seq<Payload>, sku: string): Option<Classification> {
    if |AllOf(source, sku)| + |AllOf(target, sku)| == 0 then None
    else Some(Classify(AllOf(source, sku), AllOf(target, sku)))
  }

  /** The keys among the first `n` that were classified so. */
  function ClassCount(source: seq<Payload>, target: seq<Payload>, keys: seq<string>, c: Classification, n: nat): nat
    requires n <= |keys|
  {
    if n == 0 then 0
    else ClassCount(source, target, keys, c, n - 1) + if ClassOf(source, target, keys[n - 1]) == Some(c) then 1 else 0
  }

  /** The duplicate groups: every side on which a key occurs more than once. */
  function GroupCount(source: seq<Payload>, target: seq<Payload>, keys: seq<string>, n: nat): nat
    requires n <= |keys|
  {
    if n == 0 then 0
    else
      GroupCount(source, target, keys, n - 1)
      + (if |AllOf(source, keys[n - 1])| > 1 then 1 else 0) + (if |AllOf(target, keys[n - 1])| > 1 then 1 else 0)
  }

  /** The classes add up to the keys, and the duplicate classes to the groups. */
  lemma {:induction false} ClassesAddUp(source: seq<Payload>, target: seq<Payload>, keys: seq<string>, n: nat)
    requires n <= |keys| && forall i :: 0 <= i < |keys| ==> ClassOf(source, target, keys[i]).Some?
    ensures ClassCount(source, target, keys, Match, n) + ClassCount(source, target, keys, MissingFromTarget, n)
            + ClassCount(source, target, keys, MissingFromSource, n)
            + ClassCount(source, target, keys, FieldMismatch, n)
            + ClassCount(source, target, keys, DuplicateSource, n)
            + ClassCount(source, target, keys, DuplicateTarget, n)
            + ClassCount(source, target, keys, DuplicateBoth, n) == n
    ensures GroupCount(source, target, keys, n) ==
            ClassCount(source, target, keys, DuplicateSource, n) + ClassCount(source, target, keys, DuplicateTarget, n)
            + 2 * ClassCount(source, target, keys, DuplicateBoth, n)
  {
    if n > 0 {
      ClassesAddUp(source, target, keys, n - 1);
      assert ClassOf(source, target, keys[n - 1]).Some?;
    }
  }

  // ---- the counts ----

  datatype Counts = Counts(
    total: nat, accepted: int, rejected: nat, quarantined: nat, boundary: nat, duplicates: nat,
    keys: nat, match_: nat, missingFromTarget: nat, missingFromSource: nat, mismatch: nat,
    duplicateSource: nat, duplicateTarget: nat, duplicateBoth: nat,
    planned: nat, applied: nat, reviewOnly: nat,
    rateLimitRetries: nat, connectionFailures: nat, replaysResolved: nat, artifacts: nat)

  const ARTIFACTS: nat := 3

  /** The violated invariants, by the number of their check. */
  method CoherenceErrors(c: Counts) returns (errors: seq<nat>)
    ensures errors == [] <==> Coherent(c)
  {
    errors := [];
    if c.total != c.accepted + c.rejected { errors := errors + [1]; }
    if c.rejected != c.quarantined { errors := errors + [2]; }
    if c.boundary > c.accepted { errors := errors + [3]; }
    if c.duplicates > c.accepted { errors := errors + [4]; }
    var classified := c.match_ + c.missingFromTarget + c.missingFromSource + c.mismatch
                      + c.duplicateSource + c.duplicateTarget + c.duplicateBoth;
    if c.keys != classified { errors := errors + [5]; }
    if c.planned != c.missingFromTarget + c.mismatch { errors := errors + [6]; }
    if c.applied != c.planned { errors := errors + [7]; }
    var review := c.missingFromSource + c.duplicateSource + c.duplicateTarget + c.duplicateBoth;
    if c.reviewOnly != review { errors := errors + [8]; }
    if c.rateLimitRetries != 1 { errors := errors + [9]; }
    if c.connectionFailures != 1 { errors := errors + [10]; }
    if c.replaysResolved != c.connectionFailures { errors := errors + [11]; }
    if c.artifacts != ARTIFACTS { errors := errors + [12]; }
  }

  predicate Coherent(c: Counts) {
    && c.total == c.accepted + c.rejected && c.rejected == c.quarantined
    && c.boundary <= c.accepted && c.duplicates <= c.accepted
    && c.keys == c.match_ + c.missingFromTarget + c.missingFromSource + c.mismatch
                 + c.duplicateSource + c.duplicateTarget + c.duplicateBoth
    && c.planned == c.missingFromTarget + c.mismatch && c.applied == c.planned
    && c.reviewOnly == c.missingFromSource + c.duplicateSource + c.duplicateTarget + c.duplicateBoth
    && c.rateLimitRetries == 1 && c.connectionFailures == 1 && c.replaysResolved == 1 && c.artifacts == ARTIFACTS
  }

  function SliceOf(rows: seq<Row>, k: nat): seq<Row> { Slice(rows, k, |rows|) }

  /** The rows of a role, summed over the manifests of the four slices. */
  function InSlices(rows: seq<Row>, role: Role): nat { RoleInSlices(rows, role, |rows|) }

  function TotalInSlices(rows: seq<Row>): nat {
    |SliceOf(rows, ASYNC)| + |SliceOf(rows, BLOCKING)| + |SliceOf(rows, CSV)| + |SliceOf(rows, JSONL)|
  }

  /** The observations without a payload, as the analysis sees them. */
  function Quarantined(wire: seq<WireRow>, n: nat): nat
    requires n <= |wire|
  {
    if n == 0 then 0 else Quarantined(wire, n - 1) + if wire[n - 1].role == Malformed then 1 else 0
  }

  /** The derivation of the counts; `None` when the duplicate groups disagree with the classes. */
  function CountsOf(
    rows: seq<Row>, wire: seq<WireRow>, source: seq<Payload>, target: seq<Payload>, keys: seq<string>): Option<Counts>
  {
    var count := (c: Classification) => ClassCount(source, target, keys, c, |keys|);
    var total, malformed := TotalInSlices(rows), InSlices(rows, Malformed);
    var planned := count(MissingFromTarget) + count(FieldMismatch);
    var duplicateKeys := count(DuplicateSource) + count(DuplicateTarget) + count(DuplicateBoth);
    var groups := count(DuplicateSource) + count(DuplicateTarget) + 2 * count(DuplicateBoth);
    if GroupCount(source, target, keys, |keys|) != groups then None
    else Some(Counts(
      total, total - malformed, malformed, Quarantined(wire, |wire|), InSlices(rows, Boundary),
      InSlices(rows, Duplicate),
      |keys|, count(Match), count(MissingFromTarget), count(MissingFromSource), count(FieldMismatch),
      count(DuplicateSource), count(DuplicateTarget), count(DuplicateBoth),
      planned, planned, count(MissingFromSource) + duplicateKeys, 1, 1, 1, ARTIFACTS))
  }

  // ---- the rows ----

  lemma {:induction false} SliceRole(rows: seq<Row>, k: nat, role: Role, n: nat)
    requires n < |rows|
    ensures HowMany(Slice(rows, k, n + 1), role) ==
            HowMany(Slice(rows, k, n), role) + if SourceOf(rows, n) == k && rows[n].role == role then 1 else 0
  {
    HowManyAppend(Slice(rows, k, n), rows[n], role);
  }

  function RoleInSlices(rows: seq<Row>, role: Role, n: nat): nat
    requires n <= |rows|
  {
    HowMany(Slice(rows, ASYNC, n), role) + HowMany(Slice(rows, BLOCKING, n), role)
    + HowMany(Slice(rows, CSV, n), role) + HowMany(Slice(rows, JSONL, n), role)
  }

  lemma {:induction false} SlicesRoleStep(rows: seq<Row>, role: Role, n: nat)
    requires n < |rows|
    ensures RoleInSlices(rows, role, n + 1) == RoleInSlices(rows, role, n) + if rows[n].role == role then 1 else 0
  {
    SliceRole(rows, ASYNC, role, n);
    SliceRole(rows, BLOCKING, role, n);
    SliceRole(rows, CSV, role, n);
    SliceRole(rows, JSONL, role, n);
  }

  /** The slices together hold every row of a role. */
  lemma {:induction false} SlicesKeepRoles(rows: seq<Row>, role: Role, n: nat)
    requires n <= |rows|
    ensures RoleInSlices(rows, role, n) == CountRole(rows, role, n)
  {
    if n > 0 {
      SlicesKeepRoles(rows, role, n - 1);
      SlicesRoleStep(rows, role, n - 1);
    }
  }

  lemma {:induction false} QuarantineIsMalformed(rows: seq<Row>, wire: seq<WireRow>, n: nat)
    requires n <= |rows| == |wire| && forall i :: 0 <= i < |rows| ==> wire[i].role == rows[i].role
    ensures Quarantined(wire, n) == CountRole(rows, Malformed, n)
  {
    if n > 0 { QuarantineIsMalformed(rows, wire, n - 1); }
  }

  /** Every row has exactly one role. */
  lemma {:induction false} RolesCover(rows: seq<Row>, n: nat)
    requires n <= |rows|
    ensures CountRole(rows, Valid, n) + CountRole(rows, Boundary, n)
            + CountRole(rows, Malformed, n) + CountRole(rows, Duplicate, n) == n
  {
    if n > 0 { RolesCover(rows, n - 1); }
  }

  // ---- the classes ----

  /** The base rows whose position the rule gives one classification. */
  function Tally(rows: seq<Row>, c: Classification, n: nat): nat
    requires n <= |rows|
  {
    if n == 0 then 0
    else
      Tally(rows, c, n - 1)
      + if IsBase(rows[n - 1]) && Rule(BasesBefore(rows, n - 1), Followed(rows, n - 1)) == c then 1 else 0
  }

  /** Everything the derivation of the counts reads. */
  datatype Inputs = Inputs(rows: seq<Row>, wire: seq<WireRow>, csvSkus: set<string>)

  function Source(x: Inputs): seq<Payload>
    requires |x.rows| == |x.wire|
  {
    Delivered(x.rows, x.wire, x.csvSkus)
  }

  function InRowOrder(x: Inputs): seq<Payload>
    requires |x.rows| == |x.wire|
  {
    Observed(x.wire, x.csvSkus, |x.wire|)
  }

  ghost predicate Generated(x: Inputs, key: Naming) { Wired(x.rows, x.wire, key) }

  lemma {:induction false} ClassesOfBase(x: Inputs, key: Naming, i: nat)
    requires Generated(x, key) && i < |x.rows| && IsBase(x.rows[i])
    ensures ClassOf(Source(x), Target(InRowOrder(x)), key(x.rows[i].base)) ==
            Some(Rule(BasesBefore(x.rows, i), Followed(x.rows, i)))
  {
    DatasetFollowsRule(x.rows, x.wire, key, x.csvSkus, i);
    SlicingKeepsKeys(x.rows, x.wire, key, x.csvSkus, key(x.rows[i].base));
  }

  /** The key at each base row's position is classified by the rule. */
  ghost predicate FollowsRule(rows: seq<Row>, source: seq<Payload>, target: seq<Payload>, keys: seq<string>) {
    forall i :: 0 <= i < |rows| && IsBase(rows[i]) ==>
      && BasesBefore(rows, i) < |keys|
      && ClassOf(source, target, keys[BasesBefore(rows, i)]) == Some(Rule(BasesBefore(rows, i), Followed(rows, i)))
  }

  lemma {:induction false} TallyOfClasses(
    rows: seq<Row>, source: seq<Payload>, target: seq<Payload>, keys: seq<string>, c: Classification, n: nat)
    requires FollowsRule(rows, source, target, keys) && n <= |rows| && BasesBefore(rows, n) <= |keys|
    ensures ClassCount(source, target, keys, c, BasesBefore(rows, n)) == Tally(rows, c, n)
  {
    if n > 0 { TallyOfClasses(rows, source, target, keys, c, n - 1); }
  }

  /** The classified source keys are the base rows the rule tallies. */
  lemma {:induction false} ClassesFollowTally(x: Inputs, key: Naming, c: Classification)
    requires Generated(x, key) && BasesBefore(x.rows, |x.rows|) <= |KeyList(InRowOrder(x))|
    ensures ClassCount(Source(x), Target(InRowOrder(x)), KeyList(InRowOrder(x)), c, BasesBefore(x.rows, |x.rows|)) ==
            Tally(x.rows, c, |x.rows|)
  {
    var source, target, keys := Source(x), Target(InRowOrder(x)), KeyList(InRowOrder(x));
    KeysOfDataset(x.rows, x.wire, key, x.csvSkus, |x.rows|);
    forall i | 0 <= i < |x.rows| && IsBase(x.rows[i])
      ensures BasesBefore(x.rows, i) < |keys|
      ensures ClassOf(source, target, keys[BasesBefore(x.rows, i)]) ==
              Some(Rule(BasesBefore(x.rows, i), Followed(x.rows, i)))
    {
      ClassesOfBase(x, key, i);
      assert keys[BasesBefore(x.rows, i)] == key(x.rows[i].base);
    }
    TallyOfClasses(x.rows, source, target, keys, c, |x.rows|);
  }

  lemma {:induction false} ReservedClass(x: Inputs, key: Naming, e: nat)
    requires Generated(x, key) && e < TARGET_ONLY_KEYS
    ensures ClassOf(Source(x), Target(InRowOrder(x)), TargetOnlySku(e)) == Some(MissingFromSource)
  {
    DatasetUnreserved(x.rows, x.wire, key, x.csvSkus, |x.rows|);
    ReservedKeys(InRowOrder(x), e);
    SlicingKeepsKeys(x.rows, x.wire, key, x.csvSkus, TargetOnlySku(e));
  }

  /** Further keys that are all missing from the source add to that class only. */
  lemma {:induction false} MissingAddUp(
    source: seq<Payload>, target: seq<Payload>, keys: seq<string>, c: Classification, n: nat, e: nat)
    requires n + e <= |keys|
    requires forall i :: n <= i < n + e ==> ClassOf(source, target, keys[i]) == Some(MissingFromSource)
    ensures ClassCount(source, target, keys, c, n + e) ==
            ClassCount(source, target, keys, c, n) + if c == MissingFromSource then e else 0
  {
    if e > 0 {
      MissingAddUp(source, target, keys, c, n, e - 1);
      assert ClassOf(source, target, keys[n + e - 1]) == Some(MissingFromSource);
    }
  }

  /** Behind the source keys come the reserved ones, all missing from the source. */
  lemma {:induction false} ReservedCount(x: Inputs, key: Naming, c: Classification, n: nat)
    requires Generated(x, key) && n == |Keys(InRowOrder(x), |InRowOrder(x)|)|
    ensures var source, target, keys := Source(x), Target(InRowOrder(x)), KeyList(InRowOrder(x));
            ClassCount(source, target, keys, c, |keys|) ==
            ClassCount(source, target, keys, c, n) + if c == MissingFromSource then TARGET_ONLY_KEYS else 0
  {
    var source, target, keys := Source(x), Target(InRowOrder(x)), KeyList(InRowOrder(x));
    forall i | n <= i < |keys| ensures ClassOf(source, target, keys[i]) == Some(MissingFromSource) {
      assert keys[i] == TargetOnlySku(i - n);
      ReservedClass(x, key, i - n);
    }
    MissingAddUp(source, target, keys, c, n, TARGET_ONLY_KEYS);
  }

  lemma {:induction false} TallyOfReserved(rows: seq<Row>, n: nat)
    requires n <= |rows|
    ensures Tally(rows, MissingFromSource, n) == 0
  {
    if n > 0 { TallyOfReserved(rows, n - 1); }
  }

  /** Every classification is counted exactly as often as the closed rule says. */
  lemma {:induction false} CountsFollowRule(x: Inputs, key: Naming, c: Classification)
    requires Generated(x, key)
    ensures var keys := KeyList(InRowOrder(x));
            && |keys| == BasesBefore(x.rows, |x.rows|) + TARGET_ONLY_KEYS
            && ClassCount(Source(x), Target(InRowOrder(x)), keys, c, |keys|) ==
               if c == MissingFromSource then TARGET_ONLY_KEYS else Tally(x.rows, c, |x.rows|)
  {
    KeysOfDataset(x.rows, x.wire, key, x.csvSkus, |x.rows|);
    ClassesFollowTally(x, key, c);
    ReservedCount(x, key, c, BasesBefore(x.rows, |x.rows|));
    TallyOfReserved(x.rows, |x.rows|);
  }

  lemma {:induction false} EveryKeyClassified(x: Inputs, key: Naming)
    requires Generated(x, key)
    ensures forall i :: 0 <= i < |KeyList(InRowOrder(x))| ==>
              ClassOf(Source(x), Target(InRowOrder(x)), KeyList(InRowOrder(x))[i]).Some?
  {
    var keys := KeyList(InRowOrder(x));
    DatasetUnreserved(x.rows, x.wire, key, x.csvSkus, |x.rows|);
    forall i | 0 <= i < |keys| ensures ClassOf(Source(x), Target(InRowOrder(x)), keys[i]).Some? {
      KeysOnEitherSide(InRowOrder(x), keys[i]);
      SlicingKeepsKeys(x.rows, x.wire, key, x.csvSkus, keys[i]);
    }
  }

  /** For every generated dataset the derivation yields counts, and they are coherent. */
  lemma {:induction false} CountsAreCoherent(x: Inputs, key: Naming)
    requires Generated(x, key)
    ensures var counts := CountsOf(x.rows, x.wire, Source(x), Target(InRowOrder(x)), KeyList(InRowOrder(x)));
            counts.Some? && Coherent(counts.value) && counts.value.total == |x.rows|
  {
    var keys := KeyList(InRowOrder(x));
    EveryKeyClassified(x, key);
    ClassesAddUp(Source(x), Target(InRowOrder(x)), keys, |keys|);
    RowsAddUp(x.rows, x.wire);
  }

  lemma {:induction false} RowsAddUp(rows: seq<Row>, wire: seq<WireRow>)
    requires |rows| == |wire| && forall i :: 0 <= i < |rows| ==> wire[i].role == rows[i].role
    ensures TotalInSlices(rows) == |rows| && Quarantined(wire, |wire|) == InSlices(rows, Malformed)
    ensures InSlices(rows, Boundary) + InSlices(rows, Duplicate) + InSlices(rows, Malformed) <= |rows|
  {
    SlicesCount(rows, |rows|);
    SlicesKeepRoles(rows, Malformed, |rows|);
    SlicesKeepRoles(rows, Boundary, |rows|);
    SlicesKeepRoles(rows, Duplicate, |rows|);
    QuarantineIsMalformed(rows, wire, |rows|);
    RolesCover(rows, |rows|);
  }

  // ---- from a profile ----

  /** Everything the digest decides: the ranks of the rows and the parts of the keys. */
  datatype Digest = Digest(malformed: Rank, boundary: Rank, duplicate: Rank, word: Naming, tail: Naming)

  function KeyOfBase(g: Digest, base: nat): string {
    if base < MAX_BASE then Sku(g.word(base), base, g.tail(base)) else ""
  }

  function Named(g: Digest): Naming { (base: nat) => KeyOfBase(g, base) }

  /** The rows of an accepted profile on the wire: each in its role, the keys as generated,
      everything else as it may be. */
  ghost predicate GeneratedFrom(p: Profile, g: Digest, x: Inputs) {
    && Accepted(p) && x.rows == RowsTo(LayoutOf(p, g.malformed, g.boundary, g.duplicate), BaseRows(p))
    && (forall base: nat :: base < MAX_BASE ==> g.word(base) in WORDS)
    && |x.wire| == |x.rows|
    && (forall i :: 0 <= i < |x.rows| ==> x.wire[i].role == x.rows[i].role)
    && (forall i :: 0 <= i < |x.rows| && x.rows[i].role != Malformed ==>
          x.wire[i].payload.sku == KeyOfBase(g, x.rows[i].base))
  }

  /** Every accepted profile and every digest generate inputs of which the results above hold. */
  lemma {:induction false} ProfileGenerates(p: Profile, g: Digest, x: Inputs)
    requires GeneratedFrom(p, g, x)
    ensures Generated(x, Named(g)) && |x.rows| == p.records <= MAX_ROWS
  {
    RowsOrdered(LayoutOf(p, g.malformed, g.boundary, g.duplicate), BaseRows(p));
    ProfileIsExact(p, g.malformed, g.boundary, g.duplicate);
    GeneratedKeysDistinguish(Named(g), g.word, g.tail);
  }

  lemma {:induction false} BasesAreTheRest(rows: seq<Row>, n: nat)
    requires n <= |rows|
    ensures BasesBefore(rows, n) == CountRole(rows, Valid, n) + CountRole(rows, Boundary, n)
  {
    if n > 0 { BasesAreTheRest(rows, n - 1); }
  }

  /** The counts of every accepted profile, whatever the digest: they are coherent, and the
      rows and keys are exactly those the profile asks for. */
  lemma {:induction false} ProfileCounts(p: Profile, g: Digest, x: Inputs)
    requires GeneratedFrom(p, g, x)
    ensures |x.rows| == |x.wire|
    ensures var counts := CountsOf(x.rows, x.wire, Source(x), Target(InRowOrder(x)), KeyList(InRowOrder(x)));
            && counts.Some? && Coherent(counts.value)
            && counts.value.total == p.records && counts.value.rejected == p.malformed
            && counts.value.boundary == p.boundary && counts.value.duplicates == p.duplicates
            && counts.value.keys == BaseRows(p) - p.malformed + TARGET_ONLY_KEYS
            && counts.value.missingFromSource == TARGET_ONLY_KEYS
  {
    ProfileGenerates(p, g, x);
    CountsAreCoherent(x, Named(g));
    ProfileIsExact(p, g.malformed, g.boundary, g.duplicate);
    SlicesKeepRoles(x.rows, Malformed, |x.rows|);
    SlicesKeepRoles(x.rows, Boundary, |x.rows|);
    SlicesKeepRoles(x.rows, Duplicate, |x.rows|);
    CountsFollowRule(x, Named(g), MissingFromSource);
    BasesAreTheRest(x.rows, |x.rows|);
  }

  /** Each of the counts by itself: the classes as the closed rule gives them, the rows as the
      dataset has them, repairs for what is missing or differs, review for the rest that does
      not match. */
  lemma {:induction false} EachCount(x: Inputs, key: Naming)
    requires Generated(x, key)
    ensures var counts := CountsOf(x.rows, x.wire, Source(x), Target(InRowOrder(x)), KeyList(InRowOrder(x)));
            var tally := (c: Classification) => Tally(x.rows, c, |x.rows|);
            && counts.Some?
            && counts.value.total == |x.rows| && counts.value.accepted == |x.rows| - HowMany(x.rows, Malformed)
            && counts.value.rejected == counts.value.quarantined == HowMany(x.rows, Malformed)
            && counts.value.boundary == HowMany(x.rows, Boundary)
            && counts.value.duplicates == HowMany(x.rows, Duplicate)
            && counts.value.match_ == tally(Match)
            && counts.value.missingFromTarget == tally(MissingFromTarget)
            && counts.value.missingFromSource == TARGET_ONLY_KEYS
            && counts.value.mismatch == tally(FieldMismatch)
            && counts.value.duplicateSource == tally(DuplicateSource)
            && counts.value.duplicateTarget == tally(DuplicateTarget)
            && counts.value.duplicateBoth == tally(DuplicateBoth)
            && counts.value.planned == counts.value.applied == tally(MissingFromTarget) + tally(FieldMismatch)
            && counts.value.reviewOnly ==
               TARGET_ONLY_KEYS + tally(DuplicateSource) + tally(DuplicateTarget) + tally(DuplicateBoth)
  {
    CountsAreCoherent(x, key);
    CountsFollowRule(x, key, Match);
    CountsFollowRule(x, key, MissingFromTarget);
    CountsFollowRule(x, key, MissingFromSource);
    CountsFollowRule(x, key, FieldMismatch);
    CountsFollowRule(x, key, DuplicateSource);
    CountsFollowRule(x, key, DuplicateTarget);
    CountsFollowRule(x, key, DuplicateBoth);
    SlicesKeepRoles(x.rows, Malformed, |x.rows|);
    SlicesKeepRoles(x.rows, Boundary, |x.rows|);
    SlicesKeepRoles(x.rows, Duplicate, |x.rows|);
  }
}
