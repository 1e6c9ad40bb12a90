/**
 From the derivation to the story: the baseline is the derived target, the plan repairs
 every key that was classified as missing from the target or as mismatched, and together
 they are a scenario of which all story results hold.
 */
module ScenarioStory {
  import opened Wrappers
  import opened Dataset
  import opened Slices
  import opened TargetSide
  import opened ScenarioCounts
  import Skus
  import W = Warehouse
  import T = StoryTarget
  import S = Story
  import C = StoryCompletion
  import R = StoryRecovery
  import F = StoryFailpoints
  import opened Texts

  /** The canonical rendering of a record. */
  type Rendering = Payload -> string

  /** Records of one key that differ in a compared field are rendered differently. */
  ghost predicate Separates(render: Rendering) {
    forall p: Payload, q: Payload :: p.sku == q.sku && Differ(p, q) ==> render(p) != render(q)
  }

  /** One write per record of the target, in order. */
  function LoadWrites(render: Rendering, target: seq<Payload>): (load: seq<W.Write>)
    ensures |load| == |target|
    ensures forall i :: 0 <= i < |load| ==>
              load[i] == W.Write(target[i].sku, render(target[i]), W.LoadKey(i), W.Always)
  {
    seq(|target|, i requires 0 <= i < |target| =>
      W.Write(target[i].sku, render(target[i]), W.LoadKey(i), W.Always))
  }

  /** The key is missing from the target or differs there. */
  predicate Repairable(source: seq<Payload>, target: seq<Payload>, sku: string) {
    && |AllOf(source, sku)| > 0
    && var c := Classify(AllOf(source, sku), AllOf(target, sku));
       c == MissingFromTarget || c == FieldMismatch
  }

  /** The repair of one key: create what is missing, update what differs. */
  function RepairOf(render: Rendering, source: seq<Payload>, target: seq<Payload>, sku: string, n: nat): W.Write
    requires Repairable(source, target, sku)
  {
    W.Write(sku, render(AllOf(source, sku)[0]), W.RepairKey(n),
            if |AllOf(target, sku)| == 0 then W.MustBeAbsent else W.MustHold(render(AllOf(target, sku)[0])))
  }

  /** The positions of the keys to repair among the first `n`, rising. */
  function ToRepair(source: seq<Payload>, target: seq<Payload>, keys: seq<string>, n: nat): (at: seq<nat>)
    requires n <= |keys|
    ensures forall i :: 0 <= i < |at| ==> at[i] < n && Repairable(source, target, keys[at[i]])
    ensures forall i, j :: 0 <= i < j < |at| ==> at[i] < at[j]
  {
    if n == 0 then []
    else
      var before := ToRepair(source, target, keys, n - 1);
      if Repairable(source, target, keys[n - 1]) then before + [n - 1] else before
  }

  /** The plan: one repair per key that needs one. */
  function Plan(
    render: Rendering, source: seq<Payload>, target: seq<Payload>, keys: seq<string>,
    at: seq<nat>): (plan: seq<W.Write>)
    requires forall i :: 0 <= i < |at| ==> at[i] < |keys| && Repairable(source, target, keys[at[i]])
    ensures |plan| == |at|
    ensures forall i :: 0 <= i < |plan| ==> plan[i] == RepairOf(render, source, target, keys[at[i]], i)
  {
    seq(|at|, i requires 0 <= i < |at| => RepairOf(render, source, target, keys[at[i]], i))
  }

  /** The scenario of a source; the fault hits the `action`-th repair. */
  ghost function ScenarioOf(render: Rendering, source: seq<Payload>, action: nat): T.Scenario {
    var keys, target := Keys(source, |source|), Target(source);
    T.Scenario(
      LoadWrites(render, target), Plan(render, source, target, keys, ToRepair(source, target, keys, |keys|)), action)
  }

  // ---- the baseline ----

  lemma {:induction false} OfHas(ps: seq<Payload>, i: nat, n: nat)
    requires i < n <= |ps|
    ensures ps[i] in Of(ps, ps[i].sku, n)
  {
    if i < n - 1 { OfHas(ps, i, n - 1); }
  }

  /** All target records of a key are the same. */
  lemma {:induction false} OneRecordPerKey(source: seq<Payload>, i: nat, j: nat)
    requires Unreserved(source) && i < |Target(source)| && j < |Target(source)|
    requires Target(source)[i].sku == Target(source)[j].sku
    ensures Target(source)[i] == Target(source)[j]
  {
    var target := Target(source);
    var sku := target[i].sku;
    OfHas(target, i, |target|);
    OfHas(target, j, |target|);
    var keys := Keys(source, |source|);
    if sku in keys {
      var position :| 0 <= position < |keys| && keys[position] == sku;
      TargetOfKey(source, position);
    } else {
      ReservedKeyOf(source, sku);
    }
  }

  /** A target key that is no source key has one record. */
  lemma {:induction false} ReservedKeyOf(source: seq<Payload>, sku: string)
    requires Unreserved(source) && sku !in Keys(source, |source|) && AllOf(Target(source), sku) != []
    ensures |AllOf(Target(source), sku)| == 1
  {
    OtherKeys(source, sku);
    if e: nat :| e < TARGET_ONLY_KEYS && sku == Skus.TargetOnlySku(e) { ReservedKeys(source, e); }
  }

  // ---- the plan ----

  lemma {:induction false} NoneMeansAbsent(ps: seq<Payload>, sku: string, i: nat)
    requires i < |ps| && AllOf(ps, sku) == []
    ensures ps[i].sku != sku
  {
    if ps[i].sku == sku { OfHas(ps, i, |ps|); }
  }

  /** A repair creates a record the baseline lacks, or updates one to another payload. */
  lemma {:induction false} RepairFits(render: Rendering, source: seq<Payload>, action: nat, i: nat)
    requires Separates(render) && i < |ScenarioOf(render, source, action).repairs|
    ensures var sc := ScenarioOf(render, source, action);
            T.CreatesRecord(sc, sc.repairs[i]) || T.UpdatesBaseline(sc, sc.repairs[i])
  {
    var sc := ScenarioOf(render, source, action);
    var keys, target := Keys(source, |source|), Target(source);
    var at := ToRepair(source, target, keys, |keys|);
    var sku := keys[at[i]];
    assert sc.repairs[i] == RepairOf(render, source, target, sku, i);
    if AllOf(target, sku) == [] {
      forall j | 0 <= j < |sc.load| ensures sc.load[j].sku != sku { NoneMeansAbsent(target, sku, j); }
      assert T.CreatesRecord(sc, sc.repairs[i]);
    } else {
      var p, q := AllOf(source, sku)[0], AllOf(target, sku)[0];
      FirstHasKey(source, sku, |source|);
      FirstHasKey(target, sku, |target|);
      var j := OccursAsOnly(target, sku);
      assert sc.load[j].sku == sku && sc.load[j].payload == render(q) != render(p);
      assert T.UpdatesBaseline(sc, sc.repairs[i]);
    }
  }

  lemma {:induction false} OccursAsOnly(ps: seq<Payload>, sku: string) returns (j: nat)
    requires |AllOf(ps, sku)| == 1
    ensures j < |ps| && ps[j].sku == sku && ps[j] == AllOf(ps, sku)[0]
  {
    j := OccursSomewhere(ps, sku, |ps|);
    OfHas(ps, j, |ps|);
  }

  // ---- the size ----

  /** The records and repairs that one key brings. */
  function Brings(position: nat, repeated: bool): nat {
    var c := Rule(position, repeated);
    (match c
     case DuplicateBoth => 2
     case DuplicateTarget => 2
     case MissingFromTarget => 0
     case _ => 1)
    + if c == MissingFromTarget || c == FieldMismatch then 1 else 0
  }

  /** Five positions that bring one only. */
  predicate Light(position: nat) { position in {0, 1, 4, 6, 8} }

  lemma BringsAtMostTwo(position: nat, repeated: bool)
    ensures Brings(position, repeated) <= if Light(position) then 1 else 2
  {
  }

  function Lights(n: nat): nat { if n == 0 then 0 else Lights(n - 1) + if Light(n - 1) then 1 else 0 }

  lemma {:induction false} FiveLights(n: nat)
    requires n >= 9
    ensures Lights(n) == 5
  {
    if n > 9 {
      FiveLights(n - 1);
    } else {
      assert Lights(0) == 0 && Lights(1) == 1 && Lights(2) == 2 && Lights(3) == 2 && Lights(4) == 2;
      assert Lights(5) == 3 && Lights(6) == 3 && Lights(7) == 4 && Lights(8) == 4 && Lights(9) == 5;
    }
  }

  lemma {:induction false} KeyBrings(source: seq<Payload>, position: nat)
    requires Unreserved(source) && position < |Keys(source, |source|)|
    ensures var sku := Keys(source, |source|)[position];
            && KeyOf(source, sku)
            && |Placed(position, FirstOf(source, sku), |AllOf(source, sku)| > 1)|
               + (if Repairable(source, Target(source), sku) then 1 else 0) ==
               Brings(position, |AllOf(source, sku)| > 1)
  {
    KeysFollowRule(source, position);
  }

  ghost predicate KeysOccurIn(source: seq<Payload>) {
    forall i :: 0 <= i < |Keys(source, |source|)| ==> KeyOf(source, Keys(source, |source|)[i])
  }

  /** The records and repairs of the first `n` keys. */
  ghost function SizeTo(source: seq<Payload>, n: nat): nat
    requires KeysOccurIn(source) && n <= |Keys(source, |source|)|
  {
    var keys, target := Keys(source, |source|), Target(source);
    |PlacedTo(source, keys, n)| + |ToRepair(source, target, keys, n)|
  }

  /** One more key adds what it brings. */
  lemma {:induction false} SizeGrows(source: seq<Payload>, n: nat)
    requires Unreserved(source) && KeysOccurIn(source) && n < |Keys(source, |source|)|
    ensures SizeTo(source, n + 1) ==
            SizeTo(source, n) + Brings(n, |AllOf(source, Keys(source, |source|)[n])| > 1)
  {
    KeyBrings(source, n);
  }

  lemma {:induction false} PlanSize(source: seq<Payload>, n: nat)
    requires Unreserved(source) && KeysOccurIn(source) && n <= |Keys(source, |source|)|
    ensures SizeTo(source, n) <= 2 * n - Lights(n)
  {
    if n > 0 {
      PlanSize(source, n - 1);
      SizeGrows(source, n - 1);
      BringsAtMostTwo(n - 1, |AllOf(source, Keys(source, |source|)[n - 1])| > 1);
    }
  }

  lemma {:induction false} ExtrasSize(n: nat)
    requires n <= TARGET_ONLY_KEYS
    ensures |Extras(n)| == n
  {
    if n > 0 { ExtrasSize(n - 1); }
  }

  lemma {:induction false} ScenarioSize(render: Rendering, source: seq<Payload>, action: nat)
    requires Unreserved(source) && |Keys(source, |source|)| <= MAX_ROWS
    ensures var sc := ScenarioOf(render, source, action);
            1 <= |sc.load| && |sc.load| + |sc.repairs| <= W.MAX_IDEMPOTENCY_ENTRIES
  {
    var n := |Keys(source, |source|)|;
    AllKeysOccur(source);
    PlanSize(source, n);
    ExtrasSize(TARGET_ONLY_KEYS);
    if n >= 9 { FiveLights(n); }
  }

  // ---- the scenario ----

  /** Whatever the source is, as long as it has no more keys than a dataset has rows and no
      reserved ones: baseline and plan are a scenario the story results apply to. */
  lemma {:induction false} DerivedScenarioIsWellFormed(render: Rendering, source: seq<Payload>, action: nat)
    requires Separates(render) && Unreserved(source) && |Keys(source, |source|)| <= MAX_ROWS
    requires 1 <= action <= |ScenarioOf(render, source, action).repairs|
    ensures T.WellFormed(ScenarioOf(render, source, action))
  {
    var sc := ScenarioOf(render, source, action);
    var keys, target := Keys(source, |source|), Target(source);
    var at := ToRepair(source, target, keys, |keys|);
    ScenarioSize(render, source, action);
    forall i, j | 0 <= i < |sc.load| && 0 <= j < |sc.load| && sc.load[i].sku == sc.load[j].sku
      ensures sc.load[i].payload == sc.load[j].payload
    {
      OneRecordPerKey(source, i, j);
    }
    KeysDistinct(source, |source|);
    forall i, j | 0 <= i < j < |sc.repairs| ensures sc.repairs[i].sku != sc.repairs[j].sku {
      assert at[i] < at[j];
    }
    forall i | 0 <= i < |sc.repairs|
      ensures T.CreatesRecord(sc, sc.repairs[i]) || T.UpdatesBaseline(sc, sc.repairs[i])
    {
      RepairFits(render, source, action, i);
    }
  }

  lemma {:induction false} ToRepairHas(
      source: seq<Payload>, target: seq<Payload>, keys: seq<string>, position: nat, n: nat)
    requires position < n <= |keys| && Repairable(source, target, keys[position])
    ensures |ToRepair(source, target, keys, n)| >= 1
  {
    if position < n - 1 { ToRepairHas(source, target, keys, position, n - 1); }
  }

  lemma {:induction false} SingleIsRepairable(source: seq<Payload>, position: nat)
    requires Unreserved(source) && position < |Keys(source, |source|)| && Rule(position, false) == MissingFromTarget
    requires |AllOf(source, Keys(source, |source|)[position])| == 1
    ensures Repairable(source, Target(source), Keys(source, |source|)[position])
  {
    KeysFollowRule(source, position);
  }

  /** A plan is never empty once the key at one of the dropped positions is a single record. */
  lemma {:induction false} SomethingToRepair(render: Rendering, source: seq<Payload>, action: nat, position: nat)
    requires Unreserved(source) && position < |Keys(source, |source|)| && position % 7 == 3
    requires |AllOf(source, Keys(source, |source|)[position])| == 1
    ensures |ScenarioOf(render, source, action).repairs| >= 1
  {
    SingleIsRepairable(source, position);
    ToRepairHas(source, Target(source), Keys(source, |source|), position, |Keys(source, |source|)|);
  }

  // ---- the plan and the locked counts ----

  /** Whether a key is repaired depends on its records alone. */
  lemma {:induction false} RepairableIff(source: seq<Payload>, seen: seq<Payload>, target: seq<Payload>, sku: string)
    requires AllOf(seen, sku) == AllOf(source, sku)
    ensures Repairable(source, target, sku) <==>
            ClassOf(seen, target, sku) == Some(MissingFromTarget) || ClassOf(seen, target, sku) == Some(FieldMismatch)
  {
  }

  lemma {:induction false} RepairsCounted(
    source: seq<Payload>, seen: seq<Payload>, target: seq<Payload>, keys: seq<string>, all: seq<string>, n: nat)
    requires n <= |keys| <= |all| && forall i :: 0 <= i < |keys| ==> all[i] == keys[i]
    requires forall sku :: AllOf(seen, sku) == AllOf(source, sku)
    ensures |ToRepair(source, target, keys, n)| ==
            ClassCount(seen, target, all, MissingFromTarget, n) + ClassCount(seen, target, all, FieldMismatch, n)
  {
    if n > 0 {
      RepairsCounted(source, seen, target, keys, all, n - 1);
      assert all[n - 1] == keys[n - 1];
      RepairableIff(source, seen, target, keys[n - 1]);
    }
  }

  /** The plan has one action for every repair that the locked counts announce. */
  lemma {:induction false} PlanIsCounted(render: Rendering, x: Inputs, key: Naming, action: nat)
    requires Generated(x, key)
    ensures var counts := CountsOf(x.rows, x.wire, Source(x), Target(InRowOrder(x)), KeyList(InRowOrder(x)));
            counts.Some? && |ScenarioOf(render, InRowOrder(x), action).repairs| == counts.value.planned
  {
    var source := InRowOrder(x);
    var keys, all := Keys(source, |source|), KeyList(source);
    CountsAreCoherent(x, key);
    forall sku ensures AllOf(Source(x), sku) == AllOf(source, sku) {
      SlicingKeepsKeys(x.rows, x.wire, key, x.csvSkus, sku);
    }
    RepairsCounted(source, Source(x), Target(source), keys, all, |keys|);
    ReservedCount(x, key, MissingFromTarget, |keys|);
    ReservedCount(x, key, FieldMismatch, |keys|);
  }

  lemma {:induction false} FewBases(rows: seq<Row>, n: nat)
    requires n <= |rows|
    ensures BasesBefore(rows, n) <= n
  {
    if n > 0 { FewBases(rows, n - 1); }
  }

  /** Every history of kills and restarts of the story of a generated dataset is safe, with
      the fault at any of the planned repairs. */
  lemma {:induction false} GeneratedStoryIsSafe(
    x: Inputs, key: Naming, render: Rendering, action: nat, actions: seq<S.Action>)
    requires Generated(x, key) && |x.rows| <= MAX_ROWS && Separates(render)
    requires var counts := CountsOf(x.rows, x.wire, Source(x), Target(InRowOrder(x)), KeyList(InRowOrder(x)));
             counts.Some? ==> 1 <= action <= counts.value.planned
    ensures var sc := ScenarioOf(render, InRowOrder(x), action);
            T.WellFormed(sc) && S.Safe(sc, S.History(sc, S.State(S.FRESH, S.Dead, false), actions))
  {
    DatasetUnreserved(x.rows, x.wire, key, x.csvSkus, |x.rows|);
    KeysOfDataset(x.rows, x.wire, key, x.csvSkus, |x.rows|);
    FewBases(x.rows, |x.rows|);
    PlanIsCounted(render, x, key, action);
    DerivedScenarioIsWellFormed(render, InRowOrder(x), action);
    S.EveryHistoryIsSafe(ScenarioOf(render, InRowOrder(x), action), actions);
  }

  /** The story of every accepted profile: whatever the digest, the rendering and the planned
      repair that the fault hits, every history of kills and restarts is safe, some
      continuation publishes exactly when the disk is not doomed, and kills at the named
      failpoints alone never keep it from completing. */
  lemma {:induction false} ProfileStory(
    p: Profile, g: Digest, x: Inputs, render: Rendering, action: nat, actions: seq<S.Action>)
    requires GeneratedFrom(p, g, x) && Separates(render)
    requires var counts := CountsOf(x.rows, x.wire, Source(x), Target(InRowOrder(x)), KeyList(InRowOrder(x)));
             counts.Some? ==> 1 <= action <= counts.value.planned
    ensures var sc := ScenarioOf(render, InRowOrder(x), action);
            var fresh' := S.State(S.FRESH, S.Dead, false);
            var s := S.History(sc, fresh', actions);
            && S.Safe(sc, s)
            && (!S.Running(s.pc) && s.disk.manifest.None? ==> (R.Publishes(sc, s) <==> !R.Doomed(sc, s.disk)))
            && (F.KillsAtFailpoints(sc, fresh', actions) && !S.Running(s.pc) ==> C.Completes(sc, S.Started(s)))
  {
    var sc := ScenarioOf(render, InRowOrder(x), action);
    ProfileGenerates(p, g, x);
    GeneratedStoryIsSafe(x, Named(g), render, action, actions);
    R.EveryHistoryDecides(sc, actions);
    if F.KillsAtFailpoints(sc, S.State(S.FRESH, S.Dead, false), actions) { F.FailpointsAlwaysResume(sc, actions); }
  }

  // ---- a rendering that separates ----

  function Ones(n: nat): (s: string)
    ensures |s| == n && forall i :: 0 <= i < n ==> s[i] == '1'
  {
    seq(n, _ => '1')
  }

  /** The length, a point, and the text. */
  function Measured(s: string): string { Ones(|s|) + ("." + s) }

  function Signed(n: int): string { if n < 0 then "-" + Ones(-n) else Ones(n) }

  function Plain(p: Payload): string { Measured(p.attributes) + (Measured(p.details) + Signed(p.quantity)) }

  predicate IsOne(c: char) { c == '1' }

  lemma {:induction false} MeasuredThen(a: string, r: string, b: string, s: string)
    requires Measured(a) + r == Measured(b) + s
    ensures a == b && r == s
  {
    assert Measured(a) + r == Ones(|a|) + ("." + a + r) && Measured(b) + s == Ones(|b|) + ("." + b + s);
    SplitsAt(IsOne, Ones(|a|), "." + a + r, Ones(|b|), "." + b + s);
    var whole := "." + a + r;
    assert whole[1..|a| + 1] == a && whole[|a| + 1..] == r;
    assert ("." + b + s)[1..|b| + 1] == b && ("." + b + s)[|b| + 1..] == s;
  }

  lemma {:induction false} SignedInjective(m: int, n: int)
    requires Signed(m) == Signed(n)
    ensures m == n
  {
    if m < 0 { assert Signed(m)[0] == '-'; }
    if n < 0 { assert Signed(n)[0] == '-'; }
  }

  /** There is a rendering as the results above need it. */
  lemma {:induction false} PlainSeparates()
    ensures Separates(Plain)
  {
    forall p: Payload, q: Payload | p.sku == q.sku && Plain(p) == Plain(q) ensures !Differ(p, q) {
      MeasuredThen(
        p.attributes, Measured(p.details) + Signed(p.quantity), q.attributes, Measured(q.details) + Signed(q.quantity));
      MeasuredThen(p.details, Signed(p.quantity), q.details, Signed(q.quantity));
      SignedInjective(p.quantity, q.quantity);
    }
  }
}
