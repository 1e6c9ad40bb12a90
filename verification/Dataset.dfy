/**
 The row layout of a generated dataset: roles are given to base rows by digest rank, for
 any digest, and every accepted profile comes out with exactly the counts it asks for.
 */
module Dataset {

  datatype Profile = Profile(records: int, malformed: int, boundary: int, duplicates: int)

  const MAX_ROWS := 5000

  function BaseRows(p: Profile): int { p.records - p.duplicates }

  /** The checks of a profile's constructor. */
  predicate Accepted(p: Profile) {
    && p.records >= 0 && p.malformed >= 0 && p.boundary >= 0 && p.duplicates >= 0
    && p.records <= MAX_ROWS
    && BaseRows(p) >= 0
    && p.malformed + p.boundary <= BaseRows(p)
    && p.duplicates <= BaseRows(p) - p.malformed
  }

  // ---- ranking ----

  /** The rank of an index under the digest; ties go to the smaller index. */
  type Rank = nat -> nat

  predicate Precedes(rank: Rank, i: nat, j: nat) {
    rank(i) < rank(j) || (rank(i) == rank(j) && i < j)
  }

  /** Where a new index goes: before the first that it precedes. */
  function Position(rank: Rank, x: nat, s: seq<nat>, i: nat): (p: nat)
    requires i <= |s|
    ensures i <= p <= |s| && (p < |s| ==> Precedes(rank, x, s[p]))
    ensures forall j :: i <= j < p ==> !Precedes(rank, x, s[j])
    decreases |s| - i
  {
    if i == |s| || Precedes(rank, x, s[i]) then i else Position(rank, x, s, i + 1)
  }

  function Insert(rank: Rank, x: nat, s: seq<nat>): seq<nat> {
    var p := Position(rank, x, s, 0);
    s[..p] + [x] + s[p..]
  }

  /** The indices below `n` outside `excluded`, sorted by rank. */
  function Scored(rank: Rank, n: nat, excluded: set<nat>): seq<nat> {
    if n == 0 then []
    else if n - 1 in excluded then Scored(rank, n - 1, excluded)
    else Insert(rank, n - 1, Scored(rank, n - 1, excluded))
  }

  function TopIndices(rank: Rank, count: nat, n: nat, excluded: set<nat>): set<nat> {
    var scored := Scored(rank, n, excluded);
    First(scored, if count <= |scored| then count else |scored|)
  }

  function First(s: seq<nat>, k: nat): set<nat>
    requires k <= |s|
  {
    if k == 0 then {} else First(s, k - 1) + {s[k - 1]}
  }

  predicate InOrder(rank: Rank, s: seq<nat>) {
    forall i, j :: 0 <= i < j < |s| ==> Precedes(rank, s[i], s[j])
  }

  /** Inserting in the middle: what was there, and the new index. */
  lemma InsertedAt(s: seq<nat>, x: nat, p: nat)
    requires p <= |s|
    ensures var r := s[..p] + [x] + s[p..];
            && |r| == |s| + 1
            && (forall i :: 0 <= i < |r| ==> r[i] == if i < p then s[i] else if i == p then x else s[i - 1])
  {
  }

  lemma {:induction false} InsertKeepsOrder(rank: Rank, x: nat, s: seq<nat>)
    requires InOrder(rank, s) && (forall i :: 0 <= i < |s| ==> s[i] != x)
    ensures InOrder(rank, Insert(rank, x, s))
  {
    var p := Position(rank, x, s, 0);
    var r := Insert(rank, x, s);
    InsertedAt(s, x, p);
    forall i, j | 0 <= i < j < |r| ensures Precedes(rank, r[i], r[j]) {
      if i == p && j > p + 1 { assert Precedes(rank, s[p], s[j - 1]); }
    }
  }

  lemma {:induction false} InsertMembers(rank: Rank, x: nat, s: seq<nat>)
    ensures forall y: nat :: y in Insert(rank, x, s) <==> y == x || y in s
    ensures |Insert(rank, x, s)| == |s| + 1
  {
    var p := Position(rank, x, s, 0);
    assert s == s[..p] + s[p..];
  }

  /** The size of a set below a bound, counted index by index. */
  function Count(n: nat, s: set<nat>): nat {
    if n == 0 then 0 else Count(n - 1, s) + if n - 1 in s then 1 else 0
  }

  ghost predicate HoldsExactly(s: seq<nat>, n: nat, excluded: set<nat>) {
    forall x: nat :: x in s <==> x < n && x !in excluded
  }

  lemma {:induction false} InsertHolds(rank: Rank, s: seq<nat>, n: nat, excluded: set<nat>)
    requires HoldsExactly(s, n, excluded) && n !in excluded
    ensures HoldsExactly(Insert(rank, n, s), n + 1, excluded)
  {
    InsertMembers(rank, n, s);
    var r := Insert(rank, n, s);
    forall x: nat ensures x in r <==> x < n + 1 && x !in excluded {
      assert x in r <==> x == n || x in s;
    }
  }

  lemma {:induction false} ScoredMembers(rank: Rank, n: nat, excluded: set<nat>)
    ensures HoldsExactly(Scored(rank, n, excluded), n, excluded)
    ensures |Scored(rank, n, excluded)| == n - Count(n, excluded)
  {
    if n > 0 {
      ScoredMembers(rank, n - 1, excluded);
      if n - 1 !in excluded {
        InsertHolds(rank, Scored(rank, n - 1, excluded), n - 1, excluded);
        InsertMembers(rank, n - 1, Scored(rank, n - 1, excluded));
      }
    }
  }

  lemma {:induction false} ScoredInOrder(rank: Rank, n: nat, excluded: set<nat>)
    ensures InOrder(rank, Scored(rank, n, excluded))
  {
    if n > 0 {
      ScoredInOrder(rank, n - 1, excluded);
      if n - 1 !in excluded {
        ScoredMembers(rank, n - 1, excluded);
        InsertKeepsOrder(rank, n - 1, Scored(rank, n - 1, excluded));
      }
    }
  }

  lemma {:induction false} FirstFrom(s: seq<nat>, k: nat, x: nat) returns (i: nat)
    requires k <= |s| && x in First(s, k)
    ensures i < k && s[i] == x
  {
    if s[k - 1] == x { i := k - 1; } else { i := FirstFrom(s, k - 1, x); }
  }

  lemma {:induction false} FirstHas(s: seq<nat>, k: nat, i: nat)
    requires i < k <= |s|
    ensures s[i] in First(s, k)
  {
    if i < k - 1 { FirstHas(s, k - 1, i); }
  }

  lemma {:induction false} FirstSize(rank: Rank, s: seq<nat>, k: nat)
    requires InOrder(rank, s) && k <= |s|
    ensures |First(s, k)| == k
  {
    if k > 0 {
      FirstSize(rank, s, k - 1);
      assert s[k - 1] !in First(s, k - 1) by {
        if s[k - 1] in First(s, k - 1) {
          var i := FirstFrom(s, k - 1, s[k - 1]);
          assert false;
        }
      }
    }
  }

  lemma {:induction false} FirstPrecede(rank: Rank, s: seq<nat>, k: nat, x: nat, y: nat)
    requires InOrder(rank, s) && k <= |s| && x in First(s, k) && y in s && y !in First(s, k)
    ensures Precedes(rank, x, y)
  {
    var i := FirstFrom(s, k, x);
    var j :| 0 <= j < |s| && s[j] == y;
    if j < k { FirstHas(s, k, j); }
  }

  /** Exactly the `count` eligible indices that precede all others are selected. */
  lemma {:induction false} TopIndicesSelect(rank: Rank, count: nat, n: nat, excluded: set<nat>)
    requires count <= n - Count(n, excluded)
    ensures var top := TopIndices(rank, count, n, excluded);
            && |top| == count
            && (forall x :: x in top ==> x < n && x !in excluded)
            && (forall x: nat, y: nat :: x in top && y < n && y !in excluded && y !in top ==> Precedes(rank, x, y))
  {
    var scored := Scored(rank, n, excluded);
    var top := TopIndices(rank, count, n, excluded);
    ScoredMembers(rank, n, excluded);
    ScoredInOrder(rank, n, excluded);
    FirstSize(rank, scored, count);
    forall x | x in top ensures x < n && x !in excluded {
      var i := FirstFrom(scored, count, x);
      assert scored[i] in scored;
    }
    forall x: nat, y: nat | x in top && y < n && y !in excluded && y !in top ensures Precedes(rank, x, y) {
      FirstPrecede(rank, scored, count, x, y);
    }
  }

  lemma {:induction false} CountIsSize(n: nat, s: set<nat>)
    ensures Count(n, s) == |set x | x in s && x < n|
  {
    if n == 0 {
      assert (set x | x in s && x < 0) == {};
    } else {
      CountIsSize(n - 1, s);
      var before := set x | x in s && x < n - 1;
      var after := set x | x in s && x < n;
      assert after == if n - 1 in s then before + {n - 1} else before;
    }
  }

  lemma {:induction false} CountAll(n: nat, s: set<nat>)
    requires forall x :: x in s ==> x < n
    ensures Count(n, s) == |s|
  {
    CountIsSize(n, s);
    assert (set x | x in s && x < n) == s;
  }

  // ---- the layout ----

  datatype Layout = Layout(baseRows: nat, malformed: set<nat>, boundary: set<nat>, duplicateSources: set<nat>)

  function LayoutOf(p: Profile, malformedRank: Rank, boundaryRank: Rank, duplicateRank: Rank): Layout
    requires Accepted(p)
  {
    var n := BaseRows(p);
    var malformed := TopIndices(malformedRank, p.malformed, n, {});
    var eligible := n - |malformed|;
    Layout(n, malformed,
           TopIndices(boundaryRank, p.boundary, n, malformed),
           TopIndices(
             duplicateRank, if p.duplicates <= eligible || eligible < 0 then p.duplicates else eligible, n, malformed))
  }

  predicate WellLaidOut(p: Profile, l: Layout) {
    && l.baseRows == BaseRows(p)
    && |l.malformed| == p.malformed && |l.boundary| == p.boundary && |l.duplicateSources| == p.duplicates
    && (forall x :: x in l.malformed ==> x < l.baseRows)
    && (forall x :: x in l.boundary ==> x < l.baseRows && x !in l.malformed)
    && (forall x :: x in l.duplicateSources ==> x < l.baseRows && x !in l.malformed)
  }

  /** A set chosen by rank: each of its members precedes every eligible index left out. */
  ghost predicate ChosenBy(rank: Rank, chosen: set<nat>, n: nat, excluded: set<nat>) {
    forall x: nat, y: nat :: x in chosen && y < n && y !in excluded && y !in chosen ==> Precedes(rank, x, y)
  }

  lemma {:induction false} NothingExcluded(n: nat)
    ensures Count(n, {}) == 0
  {
    CountAll(n, {});
  }

  lemma {:induction false} LayoutIsExact(p: Profile, malformedRank: Rank, boundaryRank: Rank, duplicateRank: Rank)
    requires Accepted(p)
    ensures var l := LayoutOf(p, malformedRank, boundaryRank, duplicateRank);
            && WellLaidOut(p, l)
            && ChosenBy(malformedRank, l.malformed, l.baseRows, {})
            && ChosenBy(boundaryRank, l.boundary, l.baseRows, l.malformed)
            && ChosenBy(duplicateRank, l.duplicateSources, l.baseRows, l.malformed)
  {
    var n := BaseRows(p);
    NothingExcluded(n);
    TopIndicesSelect(malformedRank, p.malformed, n, {});
    var malformed := TopIndices(malformedRank, p.malformed, n, {});
    CountAll(n, malformed);
    TopIndicesSelect(boundaryRank, p.boundary, n, malformed);
    TopIndicesSelect(duplicateRank, p.duplicates, n, malformed);
  }

  // ---- the rows ----

  datatype Role = Valid | Boundary | Malformed | Duplicate

  /** `base` is the base row a row was generated from. */
  datatype Row = Row(index: nat, role: Role, base: nat)

  function RoleFor(l: Layout, base: nat): Role {
    if base in l.malformed then Malformed else if base in l.boundary then Boundary else Valid
  }

  function RowsTo(l: Layout, n: nat): seq<Row> {
    if n == 0 then []
    else
      var before := RowsTo(l, n - 1);
      var row := Row(|before|, RoleFor(l, n - 1), n - 1);
      if row.role != Malformed && n - 1 in l.duplicateSources
      then before + [row] + [Row(|before| + 1, Duplicate, n - 1)]
      else before + [row]
  }

  method GenerateRows(l: Layout) returns (rows: seq<Row>)
    ensures rows == RowsTo(l, l.baseRows)
  {
    rows := [];
    for base := 0 to l.baseRows
      invariant rows == RowsTo(l, base)
    {
      var role := RoleFor(l, base);
      rows := rows + [Row(|rows|, role, base)];
      if role != Malformed && base in l.duplicateSources {
        rows := rows + [Row(|rows|, Duplicate, base)];
      }
    }
  }

  function CountRole(rows: seq<Row>, role: Role, n: nat): nat
    requires n <= |rows|
  {
    if n == 0 then 0 else CountRole(rows, role, n - 1) + if rows[n - 1].role == role then 1 else 0
  }

  function HowMany(rows: seq<Row>, role: Role): nat { CountRole(rows, role, |rows|) }

  lemma {:induction false} CountRolePrefix(rows: seq<Row>, more: seq<Row>, role: Role, n: nat)
    requires n <= |rows|
    ensures CountRole(rows + more, role, n) == CountRole(rows, role, n)
  {
    if n > 0 { CountRolePrefix(rows, more, role, n - 1); }
  }

  lemma {:induction false} HowManyAppend(rows: seq<Row>, row: Row, role: Role)
    ensures HowMany(rows + [row], role) == HowMany(rows, role) + if row.role == role then 1 else 0
  {
    CountRolePrefix(rows, [row], role, |rows|);
  }

  lemma {:induction false} RowsCount(l: Layout, n: nat, role: Role)
    requires forall x :: x in l.boundary || x in l.duplicateSources ==> x !in l.malformed
    ensures HowMany(RowsTo(l, n), role) ==
            match role
            case Malformed => Count(n, l.malformed)
            case Boundary => Count(n, l.boundary)
            case Duplicate => Count(n, l.duplicateSources)
            case Valid => n - Count(n, l.malformed) - Count(n, l.boundary)
    ensures |RowsTo(l, n)| == n + Count(n, l.duplicateSources)
  {
    if n > 0 {
      RowsCount(l, n - 1, role);
      var before := RowsTo(l, n - 1);
      var row := Row(|before|, RoleFor(l, n - 1), n - 1);
      HowManyAppend(before, row, role);
      HowManyAppend(before + [row], Row(|before| + 1, Duplicate, n - 1), role);
    }
  }

  /** For any digest, an accepted profile generates exactly the rows it asks for. */
  lemma {:induction false} ProfileIsExact(p: Profile, malformedRank: Rank, boundaryRank: Rank, duplicateRank: Rank)
    requires Accepted(p)
    ensures var l := LayoutOf(p, malformedRank, boundaryRank, duplicateRank);
            var rows := RowsTo(l, l.baseRows);
            && |rows| == p.records
            && HowMany(rows, Malformed) == p.malformed
            && HowMany(rows, Boundary) == p.boundary
            && HowMany(rows, Duplicate) == p.duplicates
            && HowMany(rows, Valid) == p.records - p.malformed - p.boundary - p.duplicates
  {
    var l := LayoutOf(p, malformedRank, boundaryRank, duplicateRank);
    LayoutIsExact(p, malformedRank, boundaryRank, duplicateRank);
    CountAll(l.baseRows, l.malformed);
    CountAll(l.baseRows, l.boundary);
    CountAll(l.baseRows, l.duplicateSources);
    RowsCount(l, l.baseRows, Malformed);
    RowsCount(l, l.baseRows, Boundary);
    RowsCount(l, l.baseRows, Duplicate);
    RowsCount(l, l.baseRows, Valid);
  }

  // ---- the order of the rows ----

  predicate IsBase(row: Row) { row.role == Valid || row.role == Boundary }

  /** Rows are numbered by position, bases only rise, and a duplicate directly follows its base row. */
  ghost predicate Ordered(rows: seq<Row>) {
    && (forall i :: 0 <= i < |rows| ==> rows[i].index == i)
    && (forall i, j :: 0 <= i < j < |rows| && j == i + 1 && rows[j].role == Duplicate ==>
        IsBase(rows[i]) && rows[i].base == rows[j].base)
    && (|rows| > 0 ==> rows[0].role != Duplicate)
    && (forall i, j :: 0 <= i < j < |rows| ==>
        if rows[j].role == Duplicate then rows[i].base <= rows[j].base else rows[i].base < rows[j].base)
  }

  /** A row of a new base row, or the duplicate of the last one. */
  lemma OrderedAppend(rows: seq<Row>, row: Row)
    requires Ordered(rows) && row.index == |rows|
    requires row.role == Duplicate ==> |rows| > 0 && IsBase(rows[|rows| - 1]) && rows[|rows| - 1].base == row.base
    requires row.role != Duplicate ==> forall i :: 0 <= i < |rows| ==> rows[i].base < row.base
    ensures Ordered(rows + [row])
  {
  }

  predicate BasesBelow(rows: seq<Row>, n: nat) { forall i :: 0 <= i < |rows| ==> rows[i].base < n }

  lemma {:induction false} RowsBelow(l: Layout, n: nat)
    ensures BasesBelow(RowsTo(l, n), n)
  {
    if n > 0 { RowsBelow(l, n - 1); }
  }

  lemma {:induction false} PairOrdered(rows: seq<Row>, row: Row, duplicate: Row)
    requires Ordered(rows) && row.index == |rows| && BasesBelow(rows, row.base) && IsBase(row)
    requires duplicate == Row(|rows| + 1, Duplicate, row.base)
    ensures Ordered(rows + [row] + [duplicate])
  {
    OrderedAppend(rows, row);
    OrderedAppend(rows + [row], duplicate);
  }

  lemma {:induction false} RowsOrdered(l: Layout, n: nat)
    ensures Ordered(RowsTo(l, n)) && BasesBelow(RowsTo(l, n), n)
  {
    RowsBelow(l, n);
    if n > 0 {
      RowsOrdered(l, n - 1);
      var before := RowsTo(l, n - 1);
      var row := Row(|before|, RoleFor(l, n - 1), n - 1);
      if row.role != Malformed && n - 1 in l.duplicateSources {
        PairOrdered(before, row, Row(|before| + 1, Duplicate, n - 1));
      } else {
        OrderedAppend(before, row);
      }
    }
  }

  predicate Followed(rows: seq<Row>, i: nat) { i + 1 < |rows| && rows[i + 1].role == Duplicate }

  /** A base row is followed by its duplicate exactly when the layout chose it as a source. */
  lemma {:induction false} DuplicatesFollow(l: Layout, n: nat, i: nat)
    requires i < |RowsTo(l, n)| && IsBase(RowsTo(l, n)[i])
    ensures Followed(RowsTo(l, n), i) <==> RowsTo(l, n)[i].base in l.duplicateSources
  {
    var before := RowsTo(l, n - 1);
    if i < |before| {
      DuplicatesFollow(l, n - 1, i);
      assert i == |before| - 1 ==> RowsTo(l, n)[i + 1].role != Duplicate;
      LastRow(l, n - 1);
    }
  }

  /** The rows never end with a base row whose duplicate is still to come. */
  lemma LastRow(l: Layout, n: nat)
    ensures var rows := RowsTo(l, n);
            |rows| > 0 && IsBase(rows[|rows| - 1]) ==> rows[|rows| - 1].base !in l.duplicateSources
  {
  }

  /** Every row has the role its base row was chosen for: duplicates come from duplicate
      sources, malformed and boundary rows from their sets, valid rows from neither. */
  lemma {:induction false} RowsFollowLayout(l: Layout, n: nat, i: nat)
    requires i < |RowsTo(l, n)| && forall b :: b in l.boundary ==> b !in l.malformed
    ensures var row := RowsTo(l, n)[i];
            match row.role
            case Malformed => row.base in l.malformed
            case Boundary => row.base in l.boundary
            case Valid => row.base !in l.malformed && row.base !in l.boundary
            case Duplicate => row.base in l.duplicateSources && row.base !in l.malformed
  {
    if i < |RowsTo(l, n - 1)| { RowsFollowLayout(l, n - 1, i); }
  }

  /** Every base row is there. */
  lemma {:induction false} EveryBaseHasItsRow(l: Layout, n: nat, base: nat) returns (i: nat)
    requires base < n
    ensures i < |RowsTo(l, n)| && RowsTo(l, n)[i].base == base && RowsTo(l, n)[i].role != Duplicate
  {
    if base < n - 1 { i := EveryBaseHasItsRow(l, n - 1, base); } else { i := |RowsTo(l, n - 1)|; }
  }
}
