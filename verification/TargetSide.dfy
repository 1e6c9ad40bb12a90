/**
 The divergent target of a scenario: which keys it repeats, drops or changes, and how
 every key is then classified against the source.
 */
module TargetSide {
  import opened Dataset
  import opened Slices
  import opened Skus
  import Decimals

  /** A record; `details` stands for the fields no rule touches. */
  datatype Payload = Payload(sku: string, quantity: int, attributes: string, details: string, sourceKey: string)

  datatype WireRow = WireRow(role: Role, payload: Payload)

  const MAX_QUANTITY := 2_147_483_647
  const TARGET_ONLY_KEYS: nat := 4

  /** Records read through the CSV source lose their attributes. */
  function Stripped(p: Payload, csvSkus: set<string>): Payload {
    if p.sku in csvSkus then p.(attributes := "") else p
  }

  /** The source observations that are not quarantined, in row order. */
  function Observed(rows: seq<WireRow>, csvSkus: set<string>, n: nat): seq<Payload>
    requires n <= |rows|
  {
    if n == 0 then []
    else if rows[n - 1].role == Malformed then Observed(rows, csvSkus, n - 1)
    else Observed(rows, csvSkus, n - 1) + [Stripped(rows[n - 1].payload, csvSkus)]
  }

  /** The distinct keys of some records, in the order of their first appearance. */
  function Keys(ps: seq<Payload>, n: nat): seq<string>
    requires n <= |ps|
  {
    if n == 0 then []
    else if ps[n - 1].sku in Keys(ps, n - 1) then Keys(ps, n - 1)
    else Keys(ps, n - 1) + [ps[n - 1].sku]
  }

  /** The records of one key, in order. */
  function Of(ps: seq<Payload>, sku: string, n: nat): seq<Payload>
    requires n <= |ps|
  {
    if n == 0 then []
    else if ps[n - 1].sku == sku then Of(ps, sku, n - 1) + [ps[n - 1]]
    else Of(ps, sku, n - 1)
  }

  function AllOf(ps: seq<Payload>, sku: string): seq<Payload> { Of(ps, sku, |ps|) }

  // ---- the derivation ----

  function Tweaked(quantity: int): int { if quantity > 3 then quantity - 3 else quantity + 3 }

  /** What the target holds for the key at a position, given its first record. */
  function Placed(position: nat, p: Payload, repeated: bool): seq<Payload> {
    if repeated then (if position % 5 == 2 then [p, p] else [p])
    else if position % 7 == 3 then []
    else if position % 11 == 5 then [p.(quantity := Tweaked(p.quantity))]
    else if position % 13 == 7 then [p, p]
    else [p]
  }

  function TargetOnly(extra: nat): Payload
    requires extra < 9999
  {
    Payload(TargetOnlySku(extra), 100 + extra, "grade=target-only",
            "Target-only reserve unit " + Decimals.Numeral(extra + 1) + ", 40.00 USD", "tgt-only-" + Digits(extra + 1))
  }

  function Extras(n: nat): seq<Payload>
    requires n <= 9999
  {
    if n == 0 then [] else Extras(n - 1) + [TargetOnly(n - 1)]
  }

  function FirstOf(ps: seq<Payload>, sku: string): Payload
    requires |AllOf(ps, sku)| > 0
  {
    AllOf(ps, sku)[0]
  }

  predicate KeyOf(ps: seq<Payload>, sku: string) { |AllOf(ps, sku)| > 0 }

  function PlacedTo(ps: seq<Payload>, keys: seq<string>, n: nat): seq<Payload>
    requires n <= |keys| && forall i :: 0 <= i < n ==> KeyOf(ps, keys[i])
  {
    if n == 0 then []
    else
      assert KeyOf(ps, keys[n - 1]);
      PlacedTo(ps, keys, n - 1) + Placed(n - 1, FirstOf(ps, keys[n - 1]), |AllOf(ps, keys[n - 1])| > 1)
  }

  lemma {:induction false} KeysOccur(ps: seq<Payload>, n: nat, sku: string)
    requires n <= |ps|
    ensures sku in Keys(ps, n) <==> |Of(ps, sku, n)| > 0
  {
    if n > 0 { KeysOccur(ps, n - 1, sku); }
  }

  lemma {:induction false} AllKeysOccur(ps: seq<Payload>)
    ensures forall i :: 0 <= i < |Keys(ps, |ps|)| ==> KeyOf(ps, Keys(ps, |ps|)[i])
  {
    var keys := Keys(ps, |ps|);
    forall i | 0 <= i < |keys| ensures KeyOf(ps, keys[i]) { KeysOccur(ps, |ps|, keys[i]); }
  }

  ghost function Target(ps: seq<Payload>): seq<Payload> {
    AllKeysOccur(ps);
    PlacedTo(ps, Keys(ps, |ps|), |Keys(ps, |ps|)|) + Extras(TARGET_ONLY_KEYS)
  }

  /** The dictionaries after some records: their keys in order, each key's first record and count. */
  ghost predicate Collected(
      ps: seq<Payload>, order: seq<string>, first: map<string, Payload>, counts: map<string, nat>) {
    && order == Keys(ps, |ps|)
    && (forall k :: k in first <==> KeyOf(ps, k))
    && (forall k :: k in counts <==> KeyOf(ps, k))
    && (forall k :: k in first ==> KeyOf(ps, k) && first[k] == FirstOf(ps, k))
    && (forall k :: k in counts ==> counts[k] == |AllOf(ps, k)|)
  }

  lemma {:induction false} CollectOne(
      ps: seq<Payload>, p: Payload, order: seq<string>, first: map<string, Payload>, counts: map<string, nat>)
    requires Collected(ps, order, first, counts)
    ensures var isNew := p.sku !in first;
            Collected(ps + [p], if isNew then order + [p.sku] else order, if isNew then first[p.sku := p] else first,
                      counts[p.sku := (if p.sku in counts then counts[p.sku] else 0) + 1])
  {
    OneMoreKey(ps, p);
    KeysOccur(ps, |ps|, p.sku);
    OneMoreOfAny(ps, p);
  }

  lemma {:induction false} OneMoreOfAny(ps: seq<Payload>, p: Payload)
    ensures forall k :: KeyOf(ps + [p], k) <==> p.sku == k || KeyOf(ps, k)
    ensures forall k :: KeyOf(ps, k) ==> KeyOf(ps + [p], k) && FirstOf(ps + [p], k) == FirstOf(ps, k)
    ensures forall k :: |AllOf(ps + [p], k)| == |AllOf(ps, k)| + if p.sku == k then 1 else 0
    ensures !KeyOf(ps, p.sku) ==> FirstOf(ps + [p], p.sku) == p
  {
    forall k ensures AllOf(ps + [p], k) == if p.sku == k then AllOf(ps, k) + [p] else AllOf(ps, k) {
      OneMore(ps, p, k);
    }
  }

  /** The first loop of the derivation. */
  method CollectKeys(rows: seq<WireRow>, csvSkus: set<string>)
    returns (order: seq<string>, first: map<string, Payload>, counts: map<string, nat>)
    ensures Collected(Observed(rows, csvSkus, |rows|), order, first, counts)
  {
    order, first, counts := [], map[], map[];
    for i := 0 to |rows|
      invariant Collected(Observed(rows, csvSkus, i), order, first, counts)
    {
      if rows[i].role != Malformed {
        var p := Stripped(rows[i].payload, csvSkus);
        CollectOne(Observed(rows, csvSkus, i), p, order, first, counts);
        counts := counts[p.sku := (if p.sku in counts then counts[p.sku] else 0) + 1];
        if p.sku !in first {
          order := order + [p.sku];
          first := first[p.sku := p];
        }
      }
    }
  }

  /** One key of the second loop. */
  method PlaceKey(position: nat, p: Payload, count: nat, before: seq<Payload>) returns (payloads: seq<Payload>)
    ensures payloads == before + Placed(position, p, count > 1)
  {
    payloads := before;
    if count > 1 {
      payloads := payloads + [p];
      if position % 5 == 2 { payloads := payloads + [p]; }
      return;
    }
    if position % 7 == 3 {
      return;
    }
    if position % 11 == 5 {
      payloads := payloads + [p.(quantity := if p.quantity > 3 then p.quantity - 3 else p.quantity + 3)];
      return;
    }
    payloads := payloads + [p];
    if position % 13 == 7 { payloads := payloads + [p]; }
  }

  /** The derivation: collect the keys, place them, add the reserved ones. */
  method DeriveTargetSide(rows: seq<WireRow>, csvSkus: set<string>) returns (payloads: seq<Payload>)
    ensures payloads == Target(Observed(rows, csvSkus, |rows|))
  {
    ghost var ps := Observed(rows, csvSkus, |rows|);
    var order, first, counts := CollectKeys(rows, csvSkus);
    AllKeysOccur(ps);
    payloads := [];
    for i := 0 to |order|
      invariant payloads == PlacedTo(ps, order, i)
    {
      assert KeyOf(ps, order[i]);
      payloads := PlaceKey(i, first[order[i]], counts[order[i]], payloads);
    }
    var extras := TargetOnlyPayloads();
    payloads := payloads + extras;
  }

  method TargetOnlyPayloads() returns (payloads: seq<Payload>)
    ensures payloads == Extras(TARGET_ONLY_KEYS)
  {
    payloads := [];
    for extra := 0 to TARGET_ONLY_KEYS
      invariant payloads == Extras(extra)
    {
      payloads := payloads + [TargetOnly(extra)];
    }
  }

  /** One more record at the end. */
  lemma {:induction false} OneMore(ps: seq<Payload>, p: Payload, sku: string)
    ensures AllOf(ps + [p], sku) == if p.sku == sku then AllOf(ps, sku) + [p] else AllOf(ps, sku)
  {
    OfPrefix(ps, p, sku, |ps|);
  }

  lemma {:induction false} OneMoreKey(ps: seq<Payload>, p: Payload)
    ensures Keys(ps + [p], |ps| + 1) == if p.sku in Keys(ps, |ps|) then Keys(ps, |ps|) else Keys(ps, |ps|) + [p.sku]
  {
    KeysPrefix(ps, p, |ps|);
  }

  lemma {:induction false} OfPrefix(ps: seq<Payload>, p: Payload, sku: string, n: nat)
    requires n <= |ps|
    ensures Of(ps + [p], sku, n) == Of(ps, sku, n)
  {
    if n > 0 { OfPrefix(ps, p, sku, n - 1); }
  }

  lemma {:induction false} KeysPrefix(ps: seq<Payload>, p: Payload, n: nat)
    requires n <= |ps|
    ensures Keys(ps + [p], n) == Keys(ps, n)
  {
    if n > 0 { KeysPrefix(ps, p, n - 1); }
  }

  // ---- the target's records of one key ----

  lemma {:induction false} OfConcat(a: seq<Payload>, b: seq<Payload>, sku: string, n: nat)
    requires n <= |b|
    ensures Of(a + b, sku, |a| + n) == AllOf(a, sku) + Of(b, sku, n)
  {
    if n > 0 {
      OfConcat(a, b, sku, n - 1);
    } else {
      OfLeft(a, b, sku, |a|);
    }
  }

  lemma {:induction false} OfLeft(a: seq<Payload>, b: seq<Payload>, sku: string, n: nat)
    requires n <= |a|
    ensures Of(a + b, sku, n) == Of(a, sku, n)
  {
    if n > 0 { OfLeft(a, b, sku, n - 1); }
  }

  lemma {:induction false} AllOfConcat(a: seq<Payload>, b: seq<Payload>, sku: string)
    ensures AllOf(a + b, sku) == AllOf(a, sku) + AllOf(b, sku)
  {
    OfConcat(a, b, sku, |b|);
  }

  /** When one part has no record of a key, the other has them all. */
  lemma {:induction false} AllOfLeft(a: seq<Payload>, b: seq<Payload>, sku: string)
    requires AllOf(b, sku) == []
    ensures AllOf(a + b, sku) == AllOf(a, sku)
  {
    AllOfConcat(a, b, sku);
  }

  lemma {:induction false} AllOfRight(a: seq<Payload>, b: seq<Payload>, sku: string)
    requires AllOf(a, sku) == []
    ensures AllOf(a + b, sku) == AllOf(b, sku)
  {
    AllOfConcat(a, b, sku);
  }

  lemma {:induction false} FirstHasKey(ps: seq<Payload>, sku: string, n: nat)
    requires n <= |ps|
    ensures forall i :: 0 <= i < |Of(ps, sku, n)| ==> Of(ps, sku, n)[i].sku == sku
  {
    if n > 0 { FirstHasKey(ps, sku, n - 1); }
  }

  lemma {:induction false} AllOfPlaced(position: nat, p: Payload, repeated: bool, sku: string)
    ensures AllOf(Placed(position, p, repeated), sku) == if p.sku == sku then Placed(position, p, repeated) else []
  {
    var q := Placed(position, p, repeated);
    if |q| == 1 {
      assert Of(q, sku, 0) == [];
    } else if |q| == 2 {
      assert Of(q, sku, 0) == [];
      assert Of(q, sku, 1) == if p.sku == sku then [q[0]] else [];
    }
  }

  lemma {:induction false} KeysDistinct(ps: seq<Payload>, n: nat)
    requires n <= |ps|
    ensures forall i, j :: 0 <= i < j < |Keys(ps, n)| ==> Keys(ps, n)[i] != Keys(ps, n)[j]
  {
    if n > 0 { KeysDistinct(ps, n - 1); }
  }

  /** The records of a key are those placed at its position, and no others. */
  lemma {:induction false} PlacedOfKey(ps: seq<Payload>, keys: seq<string>, n: nat, sku: string, at: nat)
    requires n <= |keys| && forall i :: 0 <= i < n ==> KeyOf(ps, keys[i])
    requires forall i, j :: 0 <= i < j < |keys| ==> keys[i] != keys[j]
    requires at < |keys| ==> keys[at] == sku
    requires at >= |keys| ==> sku !in keys
    ensures AllOf(PlacedTo(ps, keys, n), sku) ==
            if at < n then Placed(at, FirstOf(ps, sku), |AllOf(ps, sku)| > 1) else []
  {
    if n > 0 {
      PlacedOfKey(ps, keys, n - 1, sku, at);
      var p := FirstOf(ps, keys[n - 1]);
      var repeated := |AllOf(ps, keys[n - 1])| > 1;
      FirstHasKey(ps, keys[n - 1], |ps|);
      AllOfPlaced(n - 1, p, repeated, sku);
      if at == n - 1 {
        AllOfRight(PlacedTo(ps, keys, n - 1), Placed(n - 1, p, repeated), sku);
      } else {
        AllOfLeft(PlacedTo(ps, keys, n - 1), Placed(n - 1, p, repeated), sku);
      }
    }
  }

  lemma {:induction false} AllOfOne(p: Payload, sku: string)
    ensures AllOf([p], sku) == if p.sku == sku then [p] else []
  {
    assert Of([p], sku, 0) == [];
  }

  lemma {:induction false} NoExtra(n: nat, sku: string)
    requires n <= TARGET_ONLY_KEYS && forall e: nat :: e < n ==> sku != TargetOnlySku(e)
    ensures AllOf(Extras(n), sku) == []
  {
    if n > 0 {
      NoExtra(n - 1, sku);
      AllOfOne(TargetOnly(n - 1), sku);
      AllOfLeft(Extras(n - 1), [TargetOnly(n - 1)], sku);
    }
  }

  lemma {:induction false} EarlierExtrasDiffer(e: nat)
    requires e < 9999
    ensures forall f: nat :: f < e ==> TargetOnlySku(e) != TargetOnlySku(f)
  {
    forall f: nat | f < e ensures TargetOnlySku(e) != TargetOnlySku(f) { TargetOnlyDistinct(e, f); }
  }

  lemma {:induction false} LastExtra(e: nat)
    requires e < TARGET_ONLY_KEYS
    ensures AllOf(Extras(e + 1), TargetOnlySku(e)) == [TargetOnly(e)]
  {
    EarlierExtrasDiffer(e);
    NoExtra(e, TargetOnlySku(e));
    AllOfOne(TargetOnly(e), TargetOnlySku(e));
    AllOfRight(Extras(e), [TargetOnly(e)], TargetOnlySku(e));
  }

  lemma {:induction false} MoreExtras(n: nat, m: nat, sku: string)
    requires m <= n <= TARGET_ONLY_KEYS && forall f: nat :: m <= f < n ==> TargetOnlySku(f) != sku
    ensures AllOf(Extras(n), sku) == AllOf(Extras(m), sku)
  {
    if m < n {
      MoreExtras(n - 1, m, sku);
      AllOfOne(TargetOnly(n - 1), sku);
      AllOfLeft(Extras(n - 1), [TargetOnly(n - 1)], sku);
    }
  }

  lemma {:induction false} OneExtra(e: nat)
    requires e < TARGET_ONLY_KEYS
    ensures AllOf(Extras(TARGET_ONLY_KEYS), TargetOnlySku(e)) == [TargetOnly(e)]
  {
    forall f: nat | e + 1 <= f < TARGET_ONLY_KEYS ensures TargetOnlySku(f) != TargetOnlySku(e) {
      TargetOnlyDistinct(f, e);
    }
    MoreExtras(TARGET_ONLY_KEYS, e + 1, TargetOnlySku(e));
    LastExtra(e);
  }

  // ---- classification ----

  datatype Classification =
    | Match | MissingFromTarget | MissingFromSource | FieldMismatch
    | DuplicateSource | DuplicateTarget | DuplicateBoth

  /** Two records differ in some field other than the key of their origin. */
  predicate Differ(p: Payload, q: Payload) { p.(sourceKey := "") != q.(sourceKey := "") }

  function Classify(sources: seq<Payload>, targets: seq<Payload>): Classification
    requires |sources| + |targets| > 0
  {
    if |sources| > 1 && |targets| > 1 then DuplicateBoth
    else if |sources| > 1 then DuplicateSource
    else if |targets| > 1 then DuplicateTarget
    else if |sources| == 0 then MissingFromSource
    else if |targets| == 0 then MissingFromTarget
    else if Differ(sources[0], targets[0]) then FieldMismatch else Match
  }

  /** The closed rule: position modulo 5, 7, 11 and 13. */
  function Rule(position: nat, repeated: bool): Classification {
    if repeated then (if position % 5 == 2 then DuplicateBoth else DuplicateSource)
    else if position % 7 == 3 then MissingFromTarget
    else if position % 11 == 5 then FieldMismatch
    else if position % 13 == 7 then DuplicateTarget
    else Match
  }

  lemma TweakIsValid(quantity: int)
    requires 0 <= quantity <= MAX_QUANTITY
    ensures Tweaked(quantity) != quantity && 0 <= Tweaked(quantity) <= MAX_QUANTITY
  {
  }

  /** No source record uses a key reserved for the target. */
  predicate Unreserved(ps: seq<Payload>) {
    forall i, e: nat :: 0 <= i < |ps| && e < TARGET_ONLY_KEYS ==> ps[i].sku != TargetOnlySku(e)
  }

  lemma {:induction false} OfNothing(ps: seq<Payload>, sku: string, n: nat)
    requires n <= |ps| && forall i :: 0 <= i < |ps| ==> ps[i].sku != sku
    ensures Of(ps, sku, n) == []
  {
    if n > 0 { OfNothing(ps, sku, n - 1); }
  }

  lemma {:induction false} OccursSomewhere(ps: seq<Payload>, sku: string, n: nat) returns (i: nat)
    requires n <= |ps| && |Of(ps, sku, n)| > 0
    ensures i < n && ps[i].sku == sku
  {
    if ps[n - 1].sku == sku { i := n - 1; } else { i := OccursSomewhere(ps, sku, n - 1); }
  }

  lemma {:induction false} TargetOfKey(ps: seq<Payload>, position: nat)
    requires Unreserved(ps) && position < |Keys(ps, |ps|)|
    ensures var sku := Keys(ps, |ps|)[position];
            KeyOf(ps, sku) && AllOf(Target(ps), sku) == Placed(position, FirstOf(ps, sku), |AllOf(ps, sku)| > 1)
  {
    var keys := Keys(ps, |ps|);
    var sku := keys[position];
    AllKeysOccur(ps);
    KeysDistinct(ps, |ps|);
    PlacedOfKey(ps, keys, |keys|, sku, position);
    var i := OccursSomewhere(ps, sku, |ps|);
    NoExtra(TARGET_ONLY_KEYS, sku);
    AllOfLeft(PlacedTo(ps, keys, |keys|), Extras(TARGET_ONLY_KEYS), sku);
  }

  /** Every key of the source is classified by the rule of its position. */
  lemma {:induction false} KeysFollowRule(ps: seq<Payload>, position: nat)
    requires Unreserved(ps) && position < |Keys(ps, |ps|)|
    ensures var sku := Keys(ps, |ps|)[position];
            && KeyOf(ps, sku)
            && Classify(AllOf(ps, sku), AllOf(Target(ps), sku)) == Rule(position, |AllOf(ps, sku)| > 1)
  {
    TargetOfKey(ps, position);
  }

  /** The target has nothing of a key that the source lacks, apart from the reserved ones. */
  lemma {:induction false} OtherKeys(ps: seq<Payload>, sku: string)
    requires sku !in Keys(ps, |ps|)
    ensures AllOf(ps, sku) == [] && AllOf(Target(ps), sku) == AllOf(Extras(TARGET_ONLY_KEYS), sku)
    ensures (forall e: nat :: e < TARGET_ONLY_KEYS ==> sku != TargetOnlySku(e)) ==> AllOf(Target(ps), sku) == []
  {
    var keys := Keys(ps, |ps|);
    AllKeysOccur(ps);
    KeysDistinct(ps, |ps|);
    KeysOccur(ps, |ps|, sku);
    PlacedOfKey(ps, keys, |keys|, sku, |keys|);
    AllOfRight(PlacedTo(ps, keys, |keys|), Extras(TARGET_ONLY_KEYS), sku);
    if forall e: nat :: e < TARGET_ONLY_KEYS ==> sku != TargetOnlySku(e) {
      NoExtra(TARGET_ONLY_KEYS, sku);
    }
  }

  /** Every reserved key is missing from the source. */
  lemma {:induction false} ReservedKeys(ps: seq<Payload>, e: nat)
    requires Unreserved(ps) && e < TARGET_ONLY_KEYS
    ensures AllOf(Target(ps), TargetOnlySku(e)) == [TargetOnly(e)]
    ensures Classify(AllOf(ps, TargetOnlySku(e)), AllOf(Target(ps), TargetOnlySku(e))) == MissingFromSource
  {
    var sku := TargetOnlySku(e);
    OfNothing(ps, sku, |ps|);
    KeysOccur(ps, |ps|, sku);
    OtherKeys(ps, sku);
    OneExtra(e);
  }

  // ---- generated datasets ----

  /** The key of each base row. */
  type Naming = nat -> string

  /** Different base rows have different keys, and none is reserved. */
  ghost predicate Distinguishes(key: Naming) {
    && (forall a: nat, b: nat :: a < MAX_BASE && b < MAX_BASE && a != b ==> key(a) != key(b))
    && (forall a: nat, e: nat :: a < MAX_BASE && e < TARGET_ONLY_KEYS ==> key(a) != TargetOnlySku(e))
  }

  /** The wire rows of a layout: a row and its duplicate carry the key of their base row. */
  ghost predicate Wired(rows: seq<Row>, wire: seq<WireRow>, key: Naming) {
    && Ordered(rows) && Distinguishes(key) && |wire| == |rows|
    && (forall i :: 0 <= i < |rows| ==> rows[i].base < MAX_BASE && wire[i].role == rows[i].role)
    && (forall i :: 0 <= i < |rows| && rows[i].role != Malformed ==> wire[i].payload.sku == key(rows[i].base))
  }

  /** How often the key of a base row was observed among the first `n` rows. */
  function TimesSeen(rows: seq<Row>, i: nat, n: nat): nat {
    if n <= i then 0 else if n == i + 1 || !Followed(rows, i) then 1 else 2
  }

  lemma {:induction false} SameBaseIff(rows: seq<Row>, i: nat, j: nat)
    requires Ordered(rows) && i < |rows| && j < |rows| && IsBase(rows[i]) && rows[j].role != Malformed
    ensures rows[j].base == rows[i].base <==> j == i || (j == i + 1 && Followed(rows, i))
  {
    if j > i + 1 && rows[j].role == Duplicate {
      var k := j - 1;
      assert IsBase(rows[k]) && rows[k].base == rows[j].base;
    }
    if j == i + 1 && Followed(rows, i) {
      assert rows[j].role == Duplicate;
    }
  }

  lemma {:induction false} SameKeyIff(rows: seq<Row>, wire: seq<WireRow>, key: Naming, i: nat, j: nat)
    requires Wired(rows, wire, key) && i < |rows| && j < |rows| && IsBase(rows[i]) && rows[j].role != Malformed
    ensures wire[j].payload.sku == key(rows[i].base) <==> j == i || (j == i + 1 && Followed(rows, i))
  {
    SameBaseIff(rows, i, j);
  }

  lemma {:induction false} SeenTimes(
      rows: seq<Row>, wire: seq<WireRow>, key: Naming, csvSkus: set<string>, i: nat, n: nat)
    requires Wired(rows, wire, key) && i < |rows| && IsBase(rows[i]) && n <= |rows|
    ensures |AllOf(Observed(wire, csvSkus, n), key(rows[i].base))| == TimesSeen(rows, i, n)
  {
    if n > 0 {
      SeenTimes(rows, wire, key, csvSkus, i, n - 1);
      if wire[n - 1].role != Malformed {
        OneMore(Observed(wire, csvSkus, n - 1), Stripped(wire[n - 1].payload, csvSkus), key(rows[i].base));
        SameKeyIff(rows, wire, key, i, n - 1);
      }
    }
  }

  ghost predicate KeysAreBases(rows: seq<Row>, key: Naming, keys: seq<string>, n: nat)
    requires n <= |rows| && forall i :: 0 <= i < |rows| ==> rows[i].base < MAX_BASE
  {
    && |keys| == BasesBefore(rows, n)
    && (forall i :: 0 <= i < n && IsBase(rows[i]) ==>
        BasesBefore(rows, i) < |keys| && keys[BasesBefore(rows, i)] == key(rows[i].base))
  }

  /** A key is new exactly at its base row. */
  lemma {:induction false} NewAtBase(rows: seq<Row>, wire: seq<WireRow>, key: Naming, csvSkus: set<string>, n: nat)
    requires Wired(rows, wire, key) && n < |rows| && rows[n].role != Malformed
    ensures var seen := Observed(wire, csvSkus, n);
            wire[n].payload.sku in Keys(seen, |seen|) <==> rows[n].role == Duplicate
  {
    var seen := Observed(wire, csvSkus, n);
    var i := if rows[n].role == Duplicate then n - 1 else n;
    assert rows[n].role == Duplicate ==> n > 0;
    assert IsBase(rows[i]) && rows[i].base == rows[n].base;
    SeenTimes(rows, wire, key, csvSkus, i, n);
    KeysOccur(seen, |seen|, wire[n].payload.sku);
  }

  lemma KeysStep(rows: seq<Row>, key: Naming, keys: seq<string>, n: nat)
    requires n < |rows| && (forall i :: 0 <= i < |rows| ==> rows[i].base < MAX_BASE) && KeysAreBases(rows, key, keys, n)
    ensures KeysAreBases(rows, key, if IsBase(rows[n]) then keys + [key(rows[n].base)] else keys, n + 1)
  {
  }

  /** One more row adds its key exactly if it is a base row. */
  lemma {:induction false} KeyOfRow(rows: seq<Row>, wire: seq<WireRow>, key: Naming, csvSkus: set<string>, n: nat)
    requires Wired(rows, wire, key) && n < |rows|
    ensures var before := Observed(wire, csvSkus, n);
            var after := Observed(wire, csvSkus, n + 1);
            Keys(after, |after|) == if IsBase(rows[n]) then Keys(before, |before|) + [key(rows[n].base)]
              else Keys(before, |before|)
  {
    if wire[n].role != Malformed {
      NewAtBase(rows, wire, key, csvSkus, n);
      OneMoreKey(Observed(wire, csvSkus, n), Stripped(wire[n].payload, csvSkus));
    }
  }

  lemma {:induction false} KeysOfDataset(rows: seq<Row>, wire: seq<WireRow>, key: Naming, csvSkus: set<string>, n: nat)
    requires Wired(rows, wire, key) && n <= |rows|
    ensures var seen := Observed(wire, csvSkus, n);
            KeysAreBases(rows, key, Keys(seen, |seen|), n)
  {
    if n > 0 {
      var before := Observed(wire, csvSkus, n - 1);
      KeysOfDataset(rows, wire, key, csvSkus, n - 1);
      KeysStep(rows, key, Keys(before, |before|), n - 1);
      KeyOfRow(rows, wire, key, csvSkus, n - 1);
    }
  }

  lemma {:induction false} DatasetUnreserved(
      rows: seq<Row>, wire: seq<WireRow>, key: Naming, csvSkus: set<string>, n: nat)
    requires Wired(rows, wire, key) && n <= |rows|
    ensures Unreserved(Observed(wire, csvSkus, n))
  {
    if n > 0 {
      DatasetUnreserved(rows, wire, key, csvSkus, n - 1);
      if wire[n - 1].role != Malformed {
        forall e: nat | e < TARGET_ONLY_KEYS ensures wire[n - 1].payload.sku != TargetOnlySku(e) {
        }
      }
    }
  }

  /** In every dataset the key of each base row is classified by the closed rule of its
      position among the base rows, whatever the CSV slice is. */
  lemma {:induction false} DatasetFollowsRule(
      rows: seq<Row>, wire: seq<WireRow>, key: Naming, csvSkus: set<string>, i: nat)
    requires Wired(rows, wire, key) && i < |rows| && IsBase(rows[i])
    ensures var source := Observed(wire, csvSkus, |rows|);
            var sku := key(rows[i].base);
            && |AllOf(source, sku)| > 0
            && Classify(AllOf(source, sku), AllOf(Target(source), sku)) == Rule(BasesBefore(rows, i), Followed(rows, i))
  {
    var source := Observed(wire, csvSkus, |rows|);
    KeysOfDataset(rows, wire, key, csvSkus, |rows|);
    DatasetUnreserved(rows, wire, key, csvSkus, |rows|);
    SeenTimes(rows, wire, key, csvSkus, i, |rows|);
    KeysFollowRule(source, BasesBefore(rows, i));
  }

  /** Whatever words and tails the digest picks, generated keys distinguish the base rows. */
  lemma {:induction false} GeneratedKeysDistinguish(key: Naming, word: Naming, tail: Naming)
    requires forall b: nat :: b < MAX_BASE ==> word(b) in WORDS && key(b) == Sku(word(b), b, tail(b))
    ensures Distinguishes(key)
  {
    forall a: nat, b: nat | a < MAX_BASE && b < MAX_BASE && a != b ensures key(a) != key(b) {
      SkusDiffer(word(a), a, tail(a), word(b), b, tail(b));
    }
    forall a: nat, e: nat | a < MAX_BASE && e < TARGET_ONLY_KEYS ensures key(a) != TargetOnlySku(e) {
      TargetOnlyDiffers(word(a), a, tail(a), e);
    }
  }

  /** For every accepted profile, every digest and every CSV slice: the key of each base row
      of the generated dataset follows the closed rule, repeated exactly at the duplicate
      sources of the layout. */
  lemma {:induction false} GeneratedScenario(
      p: Profile, m: Rank, b: Rank, d: Rank, key: Naming, wire: seq<WireRow>, csvSkus: set<string>, i: nat)
    requires Accepted(p) && Distinguishes(key)
    requires var rows := RowsTo(LayoutOf(p, m, b, d), BaseRows(p));
             && |wire| == |rows| && i < |rows| && IsBase(rows[i])
             && (forall j :: 0 <= j < |rows| ==> wire[j].role == rows[j].role)
             && (forall j :: 0 <= j < |rows| && rows[j].role != Malformed ==> wire[j].payload.sku == key(rows[j].base))
    ensures var l := LayoutOf(p, m, b, d);
            var rows := RowsTo(l, BaseRows(p));
            var source := Observed(wire, csvSkus, |rows|);
            var sku := key(rows[i].base);
            && |AllOf(source, sku)| > 0
            && Classify(AllOf(source, sku), AllOf(Target(source), sku)) ==
                Rule(BasesBefore(rows, i), rows[i].base in l.duplicateSources)
  {
    var l := LayoutOf(p, m, b, d);
    var rows := RowsTo(l, BaseRows(p));
    RowsOrdered(l, BaseRows(p));
    DuplicatesFollow(l, BaseRows(p), i);
    DatasetFollowsRule(rows, wire, key, csvSkus, i);
  }
}
