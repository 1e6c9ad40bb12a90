/**
 Run-neutral identities: an artifact identity carries its run's suffix, and evidence of
 different runs is compared after the first occurrence of that suffix is cut out.
 */
module RunNeutral {
  import opened Wrappers

  // ---- the string operations ----

  predicate OccursAt(text: string, pattern: string, i: nat) {
    i + |pattern| <= |text| && text[i..i + |pattern|] == pattern
  }

  /** The first occurrence at or after `i`, or the length of the text. */
  function FindFrom(text: string, pattern: string, i: nat): (r: nat)
    requires i <= |text|
    ensures i <= r <= |text|
    ensures r < |text| ==> OccursAt(text, pattern, r)
    ensures forall j :: i <= j < r ==> !OccursAt(text, pattern, j)
    decreases |text| - i
  {
    if i == |text| || OccursAt(text, pattern, i) then i else FindFrom(text, pattern, i + 1)
  }

  /** The text with the first occurrence of the pattern replaced. */
  function ReplaceFirst(text: string, pattern: string, replacement: string): string {
    var i := FindFrom(text, pattern, 0);
    if OccursAt(text, pattern, i) then text[..i] + replacement + text[i + |pattern|..] else text
  }

  predicate StartsWith(text: string, prefix: string) {
    |prefix| <= |text| && text[..|prefix|] == prefix
  }

  function RemovePrefix(text: string, prefix: string): string {
    if StartsWith(text, prefix) then text[|prefix|..] else text
  }

  // ---- identities ----

  const RUN := "run_"
  const ENGINE := "run_can-engine-"
  const ARTIFACT := "art_can-e-"

  function EngineRunSuffix(runId: string): string {
    if StartsWith(runId, ENGINE) then RemovePrefix(runId, ENGINE) else RemovePrefix(runId, RUN)
  }

  function ArtifactIdentity(suffix: string, rest: string): string {
    ARTIFACT + suffix + "-" + rest
  }

  /** What freezing a record and projecting its checkpoints do to an identity. */
  function Neutral(identity: string, suffix: string): string {
    ReplaceFirst(identity, "-" + suffix + "-", "-")
  }

  // ---- every suffix is cut out exactly ----

  /** The suffix "e", "e-e", "e-e-e" and so on: a prefix of "e-" followed by itself. */
  predicate Periodic(s: string) {
    forall i :: 0 <= i < |s| ==> s[i] == if i % 2 == 0 then 'e' else '-'
  }

  /** A word that is a prefix of "e-" followed by itself repeats those two letters. */
  lemma {:induction false} PrefixOfItself(s: string, n: nat)
    requires n <= |s|
    requires forall i :: 0 <= i < |s| ==> s[i] == ("e-" + s)[i]
    ensures Periodic(s[..n])
  {
    if n > 0 {
      PrefixOfItself(s, n - 1);
      if n > 2 {
        assert s[n - 1] == s[n - 3];
        assert s[..n - 1][n - 3] == s[n - 3];
      }
      forall i | 0 <= i < n ensures s[..n][i] == if i % 2 == 0 then 'e' else '-' {
        if i < n - 1 { assert s[..n][i] == s[..n - 1][i]; }
      }
    }
  }

  lemma {:induction false} IdentityParts(s: string, rest: string)
    ensures var id := ArtifactIdentity(s, rest);
            && |id| == 11 + |s| + |rest|
            && id[..10] == ARTIFACT && id[10..10 + |s|] == s && id[10 + |s|] == '-' && id[11 + |s|..] == rest
            && id[7..10 + |s|] == "-e-" + s
  {
    var id := ArtifactIdentity(s, rest);
    assert id[..10] == ARTIFACT;
    assert id == ARTIFACT + (s + "-" + rest);
  }

  /** The suffix occurs where it was put. */
  lemma {:induction false} OccursInPlace(s: string, rest: string)
    ensures OccursAt(ArtifactIdentity(s, rest), "-" + s + "-", 9)
  {
    var id := ArtifactIdentity(s, rest);
    IdentityParts(s, rest);
    assert id[9] == id[..10][9] == '-';
    forall k | 0 <= k < |s| ensures id[10 + k] == s[k] { assert id[10..10 + |s|][k] == s[k]; }
    assert id[9..9 + |s| + 2] == "-" + s + "-";
  }

  /** An occurrence before that place can only begin at the fixed dash of the prefix. */
  lemma {:induction false} OnlyEarlierPlace(s: string, rest: string, i: nat)
    requires i < 9 && OccursAt(ArtifactIdentity(s, rest), "-" + s + "-", i)
    ensures i == 7
  {
    var id := ArtifactIdentity(s, rest);
    var p := "-" + s + "-";
    IdentityParts(s, rest);
    assert id[i] == id[i..i + |p|][0] == '-';
    assert id[i] == ARTIFACT[i];
  }

  /** ... and then the suffix is periodic and of odd length. */
  lemma {:induction false} EarlierMeansPeriodic(s: string, rest: string)
    requires OccursAt(ArtifactIdentity(s, rest), "-" + s + "-", 7)
    ensures Periodic(s) && |s| % 2 == 1
  {
    var id := ArtifactIdentity(s, rest);
    var p := "-" + s + "-";
    var w := "e-" + s;
    IdentityParts(s, rest);
    forall j | 8 <= j < |s| + 10 ensures id[j] == w[j - 8] {
      assert id[7..10 + |s|][j - 7] == ("-e-" + s)[j - 7];
    }
    forall j | 8 <= j < |s| + 9 ensures id[j] == p[j - 7] {
      assert id[7..7 + |p|][j - 7] == p[j - 7];
    }
    forall k | 0 <= k < |s| ensures s[k] == w[k] { assert p[k + 1] == s[k] && id[8 + k] == w[k]; }
    PrefixOfItself(s, |s|);
    assert s[..|s|] == s;
    assert p[|s| + 1] == '-' && id[8 + |s|] == w[|s|];
    assert w[|s|] == '-';
  }

  lemma {:induction false} CutAt(s: string, rest: string, i: nat)
    requires i == 9 || (i == 7 && Periodic(s) && |s| % 2 == 1)
    ensures var id := ArtifactIdentity(s, rest);
            i + |s| + 2 <= |id| && id[..i] + "-" + id[i + |s| + 2..] == ARTIFACT + rest
  {
    var id := ArtifactIdentity(s, rest);
    IdentityParts(s, rest);
    if i == 9 {
      assert id[..9] == id[..10][..9];
      assert ARTIFACT[..9] + "-" == ARTIFACT;
    } else {
      assert id[..7] == id[..10][..7] && ARTIFACT[..7] + "-e-" == ARTIFACT;
      assert id[9 + |s|] == id[10..10 + |s|][|s| - 1] == 'e';
      assert id[9 + |s|..] == "e-" + rest;
    }
  }

  /** For every suffix, cutting out its first occurrence leaves the run-free identity. */
  lemma {:induction false} NeutralIdentity(s: string, rest: string)
    ensures Neutral(ArtifactIdentity(s, rest), s) == ARTIFACT + rest
  {
    var id := ArtifactIdentity(s, rest);
    var i := FindFrom(id, "-" + s + "-", 0);
    IdentityParts(s, rest);
    OccursInPlace(s, rest);
    if i < 9 {
      OnlyEarlierPlace(s, rest, i);
      EarlierMeansPeriodic(s, rest);
    }
    CutAt(s, rest, i);
  }

  /** The overlapping case does occur: the first match is not where the suffix was put. */
  lemma {:induction false} EarlierPlaceIff(s: string, rest: string)
    ensures OccursAt(ArtifactIdentity(s, rest), "-" + s + "-", 7) <==> Periodic(s) && |s| % 2 == 1
  {
    var id := ArtifactIdentity(s, rest);
    var p := "-" + s + "-";
    IdentityParts(s, rest);
    if OccursAt(id, p, 7) {
      EarlierMeansPeriodic(s, rest);
    }
    if Periodic(s) && |s| % 2 == 1 {
      var w := "-e-" + s;
      forall k | 0 <= k < |p| ensures id[7..7 + |p|][k] == p[k] {
        assert id[7 + k] == id[7..10 + |s|][k] == w[k];
      }
      assert id[7..7 + |p|] == p;
    }
  }

  // ---- projections of two runs ----

  /** One durable checkpoint; `hasArtifact` says whether it names the artifact of its node. */
  datatype Fact = Fact(
    node: string, partition: string, version: nat, schema: nat,
    cursor: Option<string>, position: Option<string>, hasArtifact: bool)

  datatype Row = Row(
    node: string, partition: string, version: nat, schema: nat,
    cursor: Option<string>, position: Option<string>, artifact: Option<string>)

  const NODE := "nod_can-"

  function RestOf(f: Fact): string { RemovePrefix(f.node, NODE) + "-" + f.partition }

  function RowOf(f: Fact, identity: string): Row {
    Row(f.node, f.partition, f.version, f.schema, f.cursor, f.position, if f.hasArtifact then Some(identity) else None)
  }

  /** The row a run stores for a fact, and the row its projection shows. */
  function Stored(runId: string, f: Fact): Row { RowOf(f, ArtifactIdentity(EngineRunSuffix(runId), RestOf(f))) }

  function Shown(runId: string, r: Row): Row {
    if r.artifact.None? then r else r.(artifact := Some(Neutral(r.artifact.value, EngineRunSuffix(runId))))
  }

  function RunFree(f: Fact): Row { RowOf(f, ARTIFACT + RestOf(f)) }

  lemma {:induction false} ShownIsRunFree(runId: string, f: Fact)
    ensures Shown(runId, Stored(runId, f)) == RunFree(f)
  {
    if f.hasArtifact { NeutralIdentity(EngineRunSuffix(runId), RestOf(f)); }
  }

  /** The rows a projection of some facts shows, before they are sorted. */
  function ShownAll(runId: string, facts: seq<Fact>): multiset<Row> {
    if facts == [] then multiset{}
    else ShownAll(runId, facts[1..]) + multiset{Shown(runId, Stored(runId, facts[0]))}
  }

  function RunFreeAll(facts: seq<Fact>): multiset<Row> {
    if facts == [] then multiset{} else RunFreeAll(facts[1..]) + multiset{RunFree(facts[0])}
  }

  lemma {:induction false} ShownAllIsRunFree(runId: string, facts: seq<Fact>)
    ensures ShownAll(runId, facts) == RunFreeAll(facts)
  {
    if facts != [] {
      ShownIsRunFree(runId, facts[0]);
      ShownAllIsRunFree(runId, facts[1..]);
    }
  }

  lemma {:induction false} RunFreeWithout(facts: seq<Fact>, i: nat)
    requires i < |facts|
    ensures RunFreeAll(facts) == RunFreeAll(facts[..i] + facts[i + 1..]) + multiset{RunFree(facts[i])}
  {
    if i == 0 {
      assert facts[..0] + facts[1..] == facts[1..];
    } else {
      var without := facts[..i] + facts[i + 1..];
      RunFreeWithout(facts[1..], i - 1);
      assert facts[1..][..i - 1] + facts[1..][i..] == without[1..];
    }
  }

  lemma {:induction false} Without<T>(s: seq<T>, i: nat)
    requires i < |s|
    ensures multiset(s[..i] + s[i + 1..]) == multiset(s) - multiset{s[i]}
  {
    assert s == s[..i] + [s[i]] + s[i + 1..];
  }

  lemma {:induction false} WithoutFirst<T>(s: seq<T>)
    requires |s| > 0
    ensures multiset(s[1..]) == multiset(s) - multiset{s[0]}
  {
    assert s == [s[0]] + s[1..];
  }

  /** The order in which the facts are stored does not matter. */
  lemma {:induction false} RunFreeOfEqualFacts(a: seq<Fact>, b: seq<Fact>)
    requires multiset(a) == multiset(b)
    ensures RunFreeAll(a) == RunFreeAll(b)
    decreases |a|
  {
    if a == [] {
      assert |multiset(b)| == 0;
    } else {
      assert a[0] in multiset(b);
      var i :| 0 <= i < |b| && b[i] == a[0];
      WithoutFirst(a);
      Without(b, i);
      RunFreeOfEqualFacts(a[1..], b[..i] + b[i + 1..]);
      RunFreeWithout(b, i);
    }
  }

  /** A total order on rows, whichever the tuples have. */
  ghost predicate IsOrder(le: (Row, Row) -> bool) {
    && (forall x, y :: le(x, y) || le(y, x))
    && (forall x, y :: le(x, y) && le(y, x) ==> x == y)
  }

  ghost predicate SortedBy(le: (Row, Row) -> bool, rows: seq<Row>) {
    forall i, j :: 0 <= i < j < |rows| ==> le(rows[i], rows[j])
  }

  /** Rows sorted by an order are determined by their multiset. */
  lemma {:induction false} SortedUnique(le: (Row, Row) -> bool, a: seq<Row>, b: seq<Row>)
    requires IsOrder(le) && SortedBy(le, a) && SortedBy(le, b) && multiset(a) == multiset(b)
    ensures a == b
    decreases |a|
  {
    assert |multiset(a)| == |multiset(b)|;
    if a != [] {
      assert a[0] in multiset(b) && b[0] in multiset(a);
      var i :| 0 <= i < |b| && b[i] == a[0];
      var j :| 0 <= j < |a| && a[j] == b[0];
      assert le(a[0], b[0]) && le(b[0], a[0]);
      WithoutFirst(a);
      WithoutFirst(b);
      SortedUnique(le, a[1..], b[1..]);
    }
  }

  /** Two runs with the same facts, stored in any order, have equal projections, whatever
      their suffixes are and whichever order the rows are sorted by. */
  lemma {:induction false} EqualFactsEqualProjections(
    run1: string, facts1: seq<Fact>, shown1: seq<Row>,
    run2: string, facts2: seq<Fact>, shown2: seq<Row>, le: (Row, Row) -> bool)
    requires multiset(facts1) == multiset(facts2) && IsOrder(le)
    requires SortedBy(le, shown1) && multiset(shown1) == ShownAll(run1, facts1)
    requires SortedBy(le, shown2) && multiset(shown2) == ShownAll(run2, facts2)
    ensures shown1 == shown2
  {
    ShownAllIsRunFree(run1, facts1);
    ShownAllIsRunFree(run2, facts2);
    RunFreeOfEqualFacts(facts1, facts2);
    SortedUnique(le, shown1, shown2);
  }

  /** Nothing but the run is lost. */
  lemma {:induction false} RunFreeInjective(f: Fact, g: Fact)
    requires RunFree(f) == RunFree(g)
    ensures f == g
  {
  }

  lemma {:induction false} RunFreeHas(facts: seq<Fact>, row: Row) returns (i: nat)
    requires row in RunFreeAll(facts)
    ensures i < |facts| && RunFree(facts[i]) == row
  {
    if row == RunFree(facts[0]) {
      i := 0;
    } else {
      i := RunFreeHas(facts[1..], row);
      i := i + 1;
    }
  }

  lemma {:induction false} Cancel<T>(x: multiset<T>, y: multiset<T>, r: T)
    requires x + multiset{r} == y + multiset{r}
    ensures x == y
  {
    assert x == x + multiset{r} - multiset{r} && y == y + multiset{r} - multiset{r};
  }

  lemma {:induction false} SplitAt<T>(s: seq<T>, i: nat)
    requires i < |s|
    ensures multiset(s) == multiset(s[..i] + s[i + 1..]) + multiset{s[i]}
  {
    assert s == s[..i] + [s[i]] + s[i + 1..];
  }

  lemma {:induction false} JoinAt<T>(a: seq<T>, b: seq<T>, i: nat)
    requires |a| > 0 && i < |b| && a[0] == b[i] && multiset(a[1..]) == multiset(b[..i] + b[i + 1..])
    ensures multiset(a) == multiset(b)
  {
    SplitAt(a, 0);
    SplitAt(b, i);
    assert a[..0] + a[1..] == a[1..];
  }

  lemma {:induction false} RowPerFact(facts: seq<Fact>)
    ensures |RunFreeAll(facts)| == |facts|
  {
    if facts != [] { RowPerFact(facts[1..]); }
  }

  lemma {:induction false} FirstAmong(a: seq<Fact>, b: seq<Fact>) returns (i: nat)
    requires |a| > 0 && RunFreeAll(a) == RunFreeAll(b)
    ensures i < |b| && b[i] == a[0] && RunFreeAll(a[1..]) == RunFreeAll(b[..i] + b[i + 1..])
  {
    assert RunFree(a[0]) in RunFreeAll(a);
    i := RunFreeHas(b, RunFree(a[0]));
    RunFreeInjective(a[0], b[i]);
    RunFreeWithout(b, i);
    Cancel(RunFreeAll(a[1..]), RunFreeAll(b[..i] + b[i + 1..]), RunFree(a[0]));
  }

  lemma {:induction false} EqualRowsEqualFacts(a: seq<Fact>, b: seq<Fact>)
    requires RunFreeAll(a) == RunFreeAll(b)
    ensures multiset(a) == multiset(b)
    decreases |a|
  {
    RowPerFact(a);
    RowPerFact(b);
    if a != [] {
      var i := FirstAmong(a, b);
      EqualRowsEqualFacts(a[1..], b[..i] + b[i + 1..]);
      JoinAt(a, b, i);
    }
  }

  /** Runs with equal projections have the same facts: apart from the run, a projection hides
      nothing. */
  lemma {:induction false} EqualProjectionsEqualFacts(
    run1: string, facts1: seq<Fact>, shown1: seq<Row>, run2: string, facts2: seq<Fact>, shown2: seq<Row>)
    requires multiset(shown1) == ShownAll(run1, facts1) && multiset(shown2) == ShownAll(run2, facts2)
    requires shown1 == shown2
    ensures multiset(facts1) == multiset(facts2)
  {
    ShownAllIsRunFree(run1, facts1);
    ShownAllIsRunFree(run2, facts2);
    EqualRowsEqualFacts(facts1, facts2);
  }

  // ---- the suffix does not identify its run ----

  const CAN_ENGINE := "can-engine-"

  lemma {:induction false} SuffixOf(p: string)
    ensures EngineRunSuffix(RUN + p) == RemovePrefix(p, CAN_ENGINE)
  {
    var id := RUN + p;
    assert ENGINE == RUN + CAN_ENGINE;
    assert id[..4] == RUN && id[4..] == p;
    if StartsWith(id, ENGINE) {
      assert p[..11] == id[..15][4..] == CAN_ENGINE;
    }
    if StartsWith(p, CAN_ENGINE) {
      assert p == CAN_ENGINE + p[11..];
      assert id == ENGINE + p[11..];
      assert id[..15] == ENGINE && id[15..] == p[11..];
    }
  }

  lemma {:induction false} PrependedSuffix(q: string)
    ensures RemovePrefix(CAN_ENGINE + q, CAN_ENGINE) == q
  {
    assert (CAN_ENGINE + q)[..11] == CAN_ENGINE && (CAN_ENGINE + q)[11..] == q;
  }

  /** Two runs share their derived identities exactly when one of them is an engine run
      named after the other. */
  lemma {:induction false} SuffixesCollideIff(p: string, q: string)
    ensures EngineRunSuffix(RUN + p) == EngineRunSuffix(RUN + q) <==>
            || p == q
            || (p == CAN_ENGINE + q && !StartsWith(q, CAN_ENGINE))
            || (q == CAN_ENGINE + p && !StartsWith(p, CAN_ENGINE))
  {
    SuffixOf(p);
    SuffixOf(q);
    PrependedSuffix(p);
    PrependedSuffix(q);
    if StartsWith(p, CAN_ENGINE) { assert p == CAN_ENGINE + p[11..]; }
    if StartsWith(q, CAN_ENGINE) { assert q == CAN_ENGINE + q[11..]; }
  }

  /** The promised uniqueness fails for a public run that repeats an engine run's number. */
  lemma {:induction false} CollidingRuns()
    ensures EngineRunSuffix("run_can-engine-0001") == EngineRunSuffix("run_0001") == "0001"
  {
    assert "run_can-engine-0001" == RUN + (CAN_ENGINE + "0001") && "run_0001" == RUN + "0001";
    assert !StartsWith("0001", CAN_ENGINE);
    SuffixOf("0001");
    SuffixesCollideIff(CAN_ENGINE + "0001", "0001");
  }
}
