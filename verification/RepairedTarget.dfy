/**
 What the repaired target holds, in terms of the source alone: for every source key the
 rendering of its first record, the reserved records, and nothing else. Every manifest that
 the story of a generated dataset publishes reports exactly that.
 */
module RepairedTarget {
  import opened Wrappers
  import opened Dataset
  import opened Skus
  import opened TargetSide
  import opened TargetRecords
  import opened ScenarioCounts
  import opened ScenarioStory
  import W = Warehouse
  import T = StoryTarget
  import S = Story

  /** The conditions under which the derivation yields a scenario. */
  ghost predicate Derives(render: Rendering, source: seq<Payload>, action: nat) {
    && Separates(render) && Unreserved(source) && |Keys(source, |source|)| <= MAX_ROWS
    && 1 <= action <= |ScenarioOf(render, source, action).repairs|
  }

  /** The record is there and renders as `p`. */
  predicate Holds(c: W.Content, render: Rendering, p: Payload) {
    p.sku in c.records && c.records[p.sku].payload == render(p)
  }

  /** The plan repairs every key that needs it. */
  lemma {:induction false} PlanReaches(
    source: seq<Payload>, target: seq<Payload>, keys: seq<string>, position: nat, n: nat) returns (i: nat)
    requires position < n <= |keys| && Repairable(source, target, keys[position])
    ensures i < |ToRepair(source, target, keys, n)| && ToRepair(source, target, keys, n)[i] == position
  {
    var at := ToRepair(source, target, keys, n);
    if position < n - 1 { i := PlanReaches(source, target, keys, position, n - 1); } else { i := |at| - 1; }
  }

  lemma {:induction false} FirstHasItsKey(source: seq<Payload>, sku: string)
    requires KeyOf(source, sku)
    ensures FirstOf(source, sku).sku == sku
  {
    FirstHasKey(source, sku, |source|);
  }

  lemma {:induction false} RepairedHolds(render: Rendering, source: seq<Payload>, action: nat, sku: string)
    requires Derives(render, source, action) && sku in Keys(source, |source|)
    requires Repairable(source, Target(source), sku)
    ensures Holds(S.FinalContent(ScenarioOf(render, source, action)), render, FirstOf(source, sku))
  {
    var sc := ScenarioOf(render, source, action);
    var keys := Keys(source, |source|);
    var position := PositionOf(source, sku);
    DerivedScenarioIsWellFormed(render, source, action);
    T.ParityAtTheEnd(sc);
    var i := PlanReaches(source, Target(source), keys, position, |keys|);
    assert sc.repairs[i].sku == sku && sc.repairs[i].payload == render(FirstOf(source, sku));
    FirstHasItsKey(source, sku);
  }

  /** A key that needs no repair is in the target, with its first source record. */
  lemma {:induction false} BaselineHolds(source: seq<Payload>, sku: string) returns (j: nat)
    requires Unreserved(source) && sku in Keys(source, |source|) && !Repairable(source, Target(source), sku)
    ensures KeyOf(source, sku) && j < |Target(source)| && Target(source)[j] == FirstOf(source, sku)
  {
    TargetMultiplicity(source, sku);
    assert |AllOf(Target(source), sku)| > 0;
    j := OccursSomewhere(Target(source), sku, |Target(source)|);
    TargetKeepsRecords(source, j);
  }

  lemma {:induction false} NotRepaired(render: Rendering, source: seq<Payload>, action: nat, sku: string)
    requires !Repairable(source, Target(source), sku)
    ensures var sc := ScenarioOf(render, source, action);
            !T.Repaired(sc, |sc.repairs|, sku)
  {
    var keys := Keys(source, |source|);
    var at := ToRepair(source, Target(source), keys, |keys|);
    var sc := ScenarioOf(render, source, action);
    forall j | 0 <= j < |sc.repairs| ensures sc.repairs[j].sku != sku {
      assert Repairable(source, Target(source), keys[at[j]]);
    }
  }

  lemma {:induction false} UntouchedHolds(render: Rendering, source: seq<Payload>, action: nat, j: nat)
    requires Derives(render, source, action) && j < |Target(source)|
    requires !Repairable(source, Target(source), Target(source)[j].sku)
    ensures Holds(S.FinalContent(ScenarioOf(render, source, action)), render, Target(source)[j])
  {
    var sc := ScenarioOf(render, source, action);
    DerivedScenarioIsWellFormed(render, source, action);
    T.ParityAtTheEnd(sc);
    NotRepaired(render, source, action, Target(source)[j].sku);
    assert sc.load[j].sku == Target(source)[j].sku && sc.load[j].payload == render(Target(source)[j]);
  }

  /** After all repairs the target holds every source key as the source first observed it. */
  lemma {:induction false} SourceKeyHolds(render: Rendering, source: seq<Payload>, action: nat, sku: string)
    requires Derives(render, source, action) && sku in Keys(source, |source|)
    ensures KeyOf(source, sku) && FirstOf(source, sku).sku == sku
    ensures Holds(S.FinalContent(ScenarioOf(render, source, action)), render, FirstOf(source, sku))
  {
    KeysOccur(source, |source|, sku);
    FirstHasItsKey(source, sku);
    if Repairable(source, Target(source), sku) {
      RepairedHolds(render, source, action, sku);
    } else {
      var j := BaselineHolds(source, sku);
      UntouchedHolds(render, source, action, j);
    }
  }

  lemma {:induction false} ReservedHolds(render: Rendering, source: seq<Payload>, action: nat, e: nat)
    requires Derives(render, source, action) && e < TARGET_ONLY_KEYS
    ensures Holds(S.FinalContent(ScenarioOf(render, source, action)), render, TargetOnly(e))
  {
    var target, sku := Target(source), TargetOnlySku(e);
    ReservedKeys(source, e);
    OfNothing(source, sku, |source|);
    var j := OccursAsOnly(target, sku);
    assert !Repairable(source, target, sku);
    UntouchedHolds(render, source, action, j);
  }

  lemma {:induction false} NothingElse(render: Rendering, source: seq<Payload>, action: nat, sku: string)
    requires Derives(render, source, action)
    requires sku in S.FinalContent(ScenarioOf(render, source, action)).records
    ensures sku in KeyList(source)
  {
    var sc := ScenarioOf(render, source, action);
    var target, keys := Target(source), Keys(source, |source|);
    DerivedScenarioIsWellFormed(render, source, action);
    T.ParityAtTheEnd(sc);
    KeysOnEitherSide(source, sku);
    if T.Repaired(sc, |sc.repairs|, sku) {
      var j :| 0 <= j < |sc.repairs| && sc.repairs[j].sku == sku;
      assert sku == keys[ToRepair(source, target, keys, |keys|)[j]];
    } else {
      var i :| 0 <= i < |sc.load| && sc.load[i].sku == sku;
      IsAmongItsKey(target, i, |target|);
    }
  }

  /** The whole repaired target. */
  ghost predicate IsRepaired(c: W.Content, render: Rendering, source: seq<Payload>) {
    && (forall sku :: sku in Keys(source, |source|) ==> KeyOf(source, sku) && Holds(c, render, FirstOf(source, sku)))
    && (forall e: nat :: e < TARGET_ONLY_KEYS ==> Holds(c, render, TargetOnly(e)))
    && (forall sku :: sku in c.records ==> sku in KeyList(source))
  }

  /** The story brings the target to the source: every source key holds its first source record,
      the reserved keys theirs, and there is nothing else. */
  lemma {:induction false} RepairsReachTheSource(render: Rendering, source: seq<Payload>, action: nat)
    requires Derives(render, source, action)
    ensures IsRepaired(S.FinalContent(ScenarioOf(render, source, action)), render, source)
  {
    var c := S.FinalContent(ScenarioOf(render, source, action));
    forall sku | sku in Keys(source, |source|) ensures KeyOf(source, sku) && Holds(c, render, FirstOf(source, sku)) {
      SourceKeyHolds(render, source, action, sku);
    }
    forall e: nat | e < TARGET_ONLY_KEYS ensures Holds(c, render, TargetOnly(e)) {
      ReservedHolds(render, source, action, e);
    }
    forall sku | sku in c.records ensures sku in KeyList(source) { NothingElse(render, source, action, sku); }
  }

  /** The plan is what the classes of the keys call for, key by key: a creation for a key that
      is missing, a guarded update for one that differs, and nothing else. */
  lemma {:induction false} PlanIsNeeded(render: Rendering, source: seq<Payload>, action: nat, i: nat)
    requires Unreserved(source) && i < |ScenarioOf(render, source, action).repairs|
    ensures var w := ScenarioOf(render, source, action).repairs[i];
            && w.sku in Keys(source, |source|) && KeyOf(source, w.sku) && |AllOf(source, w.sku)| == 1
            && w.payload == render(FirstOf(source, w.sku))
            && match ClassIn(source, w.sku)
               case MissingFromTarget => w.pre == W.MustBeAbsent
               case FieldMismatch =>
                 |AllOf(Target(source), w.sku)| == 1 && w.pre == W.MustHold(render(AllOf(Target(source), w.sku)[0]))
               case _ => false
  {
    var keys := Keys(source, |source|);
    var at := ToRepair(source, Target(source), keys, |keys|);
    assert Repairable(source, Target(source), keys[at[i]]);
  }

  /** Every manifest of every history of the story of an accepted profile reports a target that
      holds the source. */
  lemma {:induction false} ProfileReachesTheSource(
    p: Profile, g: Digest, x: Inputs, render: Rendering, action: nat, actions: seq<S.Action>)
    requires GeneratedFrom(p, g, x) && Separates(render)
    requires var counts := CountsOf(x.rows, x.wire, Source(x), Target(InRowOrder(x)), KeyList(InRowOrder(x)));
             counts.Some? ==> 1 <= action <= counts.value.planned
    ensures var sc := ScenarioOf(render, InRowOrder(x), action);
            var s := S.History(sc, S.State(S.FRESH, S.Dead, false), actions);
            s.disk.manifest.Some? ==>
              && s.disk.target.content == s.disk.manifest.value.content
              && IsRepaired(s.disk.target.content, render, InRowOrder(x))
  {
    var sc := ScenarioOf(render, InRowOrder(x), action);
    ProfileGenerates(p, g, x);
    DatasetUnreserved(x.rows, x.wire, Named(g), x.csvSkus, |x.rows|);
    KeysOfDataset(x.rows, x.wire, Named(g), x.csvSkus, |x.rows|);
    FewBases(x.rows, |x.rows|);
    PlanIsCounted(render, x, Named(g), action);
    DerivedScenarioIsWellFormed(render, InRowOrder(x), action);
    RepairsReachTheSource(render, InRowOrder(x), action);
    FinalManifests(sc, actions);
  }

  lemma {:induction false} FinalManifests(sc: T.Scenario, actions: seq<S.Action>)
    requires T.WellFormed(sc)
    ensures var s := S.History(sc, S.State(S.FRESH, S.Dead, false), actions);
            s.disk.manifest.Some? ==>
              s.disk.target.content == s.disk.manifest.value.content == S.FinalContent(sc)
  {
    var s := S.History(sc, S.State(S.FRESH, S.Dead, false), actions);
    S.EveryManifestIsFinal(sc, actions);
    var p, q := S.HistoryKeeps(sc, S.State(S.FRESH, S.Dead, false), 0, 0, actions);
    if s.disk.manifest.Some? { S.ManifestFixes(sc, s, p, q); }
  }
}
