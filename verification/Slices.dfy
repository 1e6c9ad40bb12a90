/**
 The four source slices: base rows rotate over the sources, a duplicate joins its base
 row, malformed rows alternate between the two file sources, and every slice passes the
 ordered-subset check of a derived dataset.
 */
module Slices {
  import opened Dataset

  /** The sources in rotation order. */
  const ASYNC: nat := 0
  const BLOCKING: nat := 1
  const CSV: nat := 2
  const JSONL: nat := 3
  const SOURCES: nat := 4

  /** The base rows, and the malformed rows, among the first `n`. */
  function BasesBefore(rows: seq<Row>, n: nat): nat
    requires n <= |rows|
  {
    if n == 0 then 0 else BasesBefore(rows, n - 1) + if IsBase(rows[n - 1]) then 1 else 0
  }

  function MalformedBefore(rows: seq<Row>, n: nat): nat
    requires n <= |rows|
  {
    if n == 0 then 0 else MalformedBefore(rows, n - 1) + if rows[n - 1].role == Malformed then 1 else 0
  }

  /** The source of the last base row among the first `n`; the first source when there is none. */
  function LastSource(rows: seq<Row>, n: nat): nat
    requires n <= |rows|
  {
    if BasesBefore(rows, n) == 0 then ASYNC else (BasesBefore(rows, n) - 1) % SOURCES
  }

  function SourceOf(rows: seq<Row>, i: nat): (k: nat)
    requires i < |rows|
    ensures k < SOURCES
  {
    match rows[i].role
    case Malformed => if MalformedBefore(rows, i) % 2 == 0 then CSV else JSONL
    case Duplicate => LastSource(rows, i)
    case _ => BasesBefore(rows, i) % SOURCES
  }

  /** The rows of one source among the first `n`, in order. */
  function Slice(rows: seq<Row>, k: nat, n: nat): seq<Row>
    requires n <= |rows|
  {
    if n == 0 then []
    else if SourceOf(rows, n - 1) == k then Slice(rows, k, n - 1) + [rows[n - 1]]
    else Slice(rows, k, n - 1)
  }

  method SliceRows(rows: seq<Row>) returns (slices: seq<seq<Row>>)
    ensures |slices| == SOURCES
    ensures forall k :: 0 <= k < SOURCES ==> slices[k] == Slice(rows, k, |rows|)
  {
    slices := [[], [], [], []];
    var baseOrdinal, malformedOrdinal, lastSource := 0, 0, ASYNC;
    for i := 0 to |rows|
      invariant |slices| == SOURCES && lastSource < SOURCES
      invariant baseOrdinal == BasesBefore(rows, i) && malformedOrdinal == MalformedBefore(rows, i)
      invariant lastSource == LastSource(rows, i)
      invariant forall k :: 0 <= k < SOURCES ==> slices[k] == Slice(rows, k, i)
    {
      var key := lastSource;
      if rows[i].role == Malformed {
        key := if malformedOrdinal % 2 == 0 then CSV else JSONL;
        malformedOrdinal := malformedOrdinal + 1;
      } else if rows[i].role != Duplicate {
        lastSource := baseOrdinal % SOURCES;
        baseOrdinal := baseOrdinal + 1;
        key := lastSource;
      }
      assert key == SourceOf(rows, i);
      slices := slices[key := slices[key] + [rows[i]]];
    }
  }

  // ---- the slices partition the rows ----

  lemma {:induction false} SlicesCount(rows: seq<Row>, n: nat)
    requires n <= |rows|
    ensures |Slice(rows, ASYNC, n)| + |Slice(rows, BLOCKING, n)| + |Slice(rows, CSV, n)| + |Slice(rows, JSONL, n)| == n
  {
    if n > 0 { SlicesCount(rows, n - 1); }
  }

  function Carried(rows: seq<Row>, n: nat): multiset<Row>
    requires n <= |rows|
  {
    multiset(Slice(rows, ASYNC, n)) + multiset(Slice(rows, BLOCKING, n)) + multiset(Slice(rows, CSV, n))
      + multiset(Slice(rows, JSONL, n))
  }

  lemma SliceStep(rows: seq<Row>, k: nat, n: nat)
    requires n < |rows|
    ensures multiset(Slice(rows, k, n + 1)) ==
            multiset(Slice(rows, k, n)) + if SourceOf(rows, n) == k then multiset{rows[n]} else multiset{}
  {
  }

  lemma {:induction false} CarriedStep(rows: seq<Row>, n: nat)
    requires n < |rows|
    ensures Carried(rows, n + 1) == Carried(rows, n) + multiset{rows[n]}
  {
    SliceStep(rows, ASYNC, n);
    SliceStep(rows, BLOCKING, n);
    SliceStep(rows, CSV, n);
    SliceStep(rows, JSONL, n);
  }

  /** No row is lost and none is taken twice. */
  lemma {:induction false} SlicesPartition(rows: seq<Row>, n: nat)
    requires n <= |rows|
    ensures Carried(rows, n) == multiset(rows[..n])
  {
    if n > 0 {
      SlicesPartition(rows, n - 1);
      assert rows[..n] == rows[..n - 1] + [rows[n - 1]];
      CarriedStep(rows, n - 1);
    } else {
      assert rows[..0] == [];
    }
  }

  /** The rows of a slice keep their order. */
  predicate Rising(rows: seq<Row>) {
    forall i, j :: 0 <= i < j < |rows| ==> rows[i].index < rows[j].index
  }

  lemma {:induction false} SliceRises(rows: seq<Row>, k: nat, n: nat)
    requires n <= |rows| && Ordered(rows)
    ensures Rising(Slice(rows, k, n))
    ensures forall i :: 0 <= i < |Slice(rows, k, n)| ==>
              Slice(rows, k, n)[i].index < n && Slice(rows, k, n)[i] == rows[Slice(rows, k, n)[i].index]
  {
    if n > 0 { SliceRises(rows, k, n - 1); }
  }

  /** A duplicate is in the slice of its base row. */
  lemma {:induction false} DuplicateJoinsBase(rows: seq<Row>, i: nat)
    requires Ordered(rows) && 0 < i < |rows| && rows[i].role == Duplicate
    ensures IsBase(rows[i - 1]) && rows[i - 1].base == rows[i].base && SourceOf(rows, i) == SourceOf(rows, i - 1)
  {
    var j := i - 1;
    assert IsBase(rows[j]) && rows[j].base == rows[i].base;
    assert BasesBefore(rows, i) == BasesBefore(rows, j) + 1;
  }

  // ---- the slices are balanced ----

  function BasesIn(rows: seq<Row>, k: nat, n: nat): nat
    requires n <= |rows|
  {
    if n == 0 then 0
    else BasesIn(rows, k, n - 1) + if IsBase(rows[n - 1]) && SourceOf(rows, n - 1) == k then 1 else 0
  }

  /** Each source gets its share of the base rows. */
  lemma {:induction false} ShareOfBases(rows: seq<Row>, k: nat, n: nat)
    requires n <= |rows| && k < SOURCES
    ensures BasesIn(rows, k, n) == (BasesBefore(rows, n) + SOURCES - 1 - k) / SOURCES
  {
    if n > 0 { ShareOfBases(rows, k, n - 1); }
  }

  lemma {:induction false} BalancedBases(rows: seq<Row>, j: nat, k: nat)
    requires j < SOURCES && k < SOURCES
    ensures BasesIn(rows, j, |rows|) <= BasesIn(rows, k, |rows|) + 1
  {
    ShareOfBases(rows, j, |rows|);
    ShareOfBases(rows, k, |rows|);
  }

  function MalformedIn(rows: seq<Row>, k: nat, n: nat): nat
    requires n <= |rows|
  {
    if n == 0 then 0
    else MalformedIn(rows, k, n - 1) + if rows[n - 1].role == Malformed && SourceOf(rows, n - 1) == k then 1 else 0
  }

  /** Only the file sources carry malformed rows, and they share them evenly. */
  lemma {:induction false} ShareOfMalformed(rows: seq<Row>, n: nat)
    requires n <= |rows|
    ensures MalformedIn(rows, ASYNC, n) == 0 && MalformedIn(rows, BLOCKING, n) == 0
    ensures MalformedIn(rows, CSV, n) == (MalformedBefore(rows, n) + 1) / 2
    ensures MalformedIn(rows, JSONL, n) == MalformedBefore(rows, n) / 2
  {
    if n > 0 { ShareOfMalformed(rows, n - 1); }
  }

  lemma {:induction false} NoBaseBetween(rows: seq<Row>, i: nat, j: nat)
    requires i <= j <= |rows| && forall n :: i <= n < j ==> !IsBase(rows[n])
    ensures BasesBefore(rows, j) == BasesBefore(rows, i)
  {
    if i < j { NoBaseBetween(rows, i, j - 1); }
  }

  /** Base rows go round the sources: the first one to the asynchronous source, and each to the
      source after that of the base row before it. */
  lemma {:induction false} BasesGoRound(rows: seq<Row>, i: nat, j: nat)
    requires i <= j < |rows| && IsBase(rows[j])
    ensures (forall n :: 0 <= n < j ==> !IsBase(rows[n])) ==> SourceOf(rows, j) == ASYNC
    ensures i < j && IsBase(rows[i]) && (forall n :: i < n < j ==> !IsBase(rows[n])) ==>
              SourceOf(rows, j) == (SourceOf(rows, i) + 1) % SOURCES
  {
    if forall n :: 0 <= n < j ==> !IsBase(rows[n]) { NoBaseBetween(rows, 0, j); }
    if i < j && IsBase(rows[i]) && (forall n :: i < n < j ==> !IsBase(rows[n])) { NoBaseBetween(rows, i + 1, j); }
  }

  // ---- a slice is always a valid derived dataset ----

  /** The position of a row at or after `from`, or the number of rows. */
  function Position<T(==)>(parent: seq<T>, row: T, from: nat): (p: nat)
    requires from <= |parent|
    ensures from <= p <= |parent| && (p < |parent| ==> parent[p] == row)
    ensures forall i :: from <= i < p ==> parent[i] != row
    decreases |parent| - from
  {
    if from == |parent| || parent[from] == row then from else Position(parent, row, from + 1)
  }

  predicate Differing<T(==)>(rows: seq<T>) { forall i, j :: 0 <= i < j < |rows| ==> rows[i] != rows[j] }

  /** The rows stand at rising positions of the parent. */
  predicate Embeds<T(==)>(parent: seq<T>, sliced: seq<T>, at: seq<nat>) {
    && |at| == |sliced| && (forall i, j :: 0 <= i < j < |at| ==> at[i] < at[j])
    && (forall i :: 0 <= i < |at| ==> at[i] < |parent| && parent[at[i]] == sliced[i])
  }

  ghost predicate OrderedSubset<T>(parent: seq<T>, sliced: seq<T>) {
    Differing(sliced) && exists at :: Embeds(parent, sliced, at)
  }

  /** The positions end as early as they can. */
  ghost predicate Earliest<T>(parent: seq<T>, sliced: seq<T>, at: seq<nat>) {
    && Embeds(parent, sliced, at)
    && forall other :: Embeds(parent, sliced, other) && |at| > 0 ==> at[|at| - 1] <= other[|at| - 1]
  }

  function Next(at: seq<nat>): nat { if at == [] then 0 else at[|at| - 1] + 1 }

  /** All positions of one more row come at or after the first that is still free. */
  lemma {:induction false} NextIsLater<T>(parent: seq<T>, sliced: seq<T>, at: seq<nat>, n: nat, other: seq<nat>)
    requires n < |sliced| && Earliest(parent, sliced[..n], at) && Embeds(parent, sliced, other)
    ensures Next(at) <= |parent| && Position(parent, sliced[n], Next(at)) <= other[n] < |parent|
  {
    assert Embeds(parent, sliced[..n], other[..n]) by {
      assert forall i :: 0 <= i < n ==> other[..n][i] == other[i] && sliced[..n][i] == sliced[i];
    }
    if n > 0 { assert other[..n][n - 1] == other[n - 1] < other[n]; }
  }

  /** Taking the first position that is still free keeps the end earliest. */
  lemma {:induction false} EarliestGrows<T>(parent: seq<T>, sliced: seq<T>, at: seq<nat>, n: nat, p: nat)
    requires n < |sliced| && Earliest(parent, sliced[..n], at) && Next(at) <= |parent|
    requires p == Position(parent, sliced[n], Next(at)) < |parent|
    ensures Earliest(parent, sliced[..n + 1], at + [p])
  {
    var longer := sliced[..n + 1];
    assert longer[..n] == sliced[..n] && longer[n] == sliced[n];
    assert Embeds(parent, longer, at + [p]);
    forall other | Embeds(parent, longer, other) ensures p <= other[n] {
      NextIsLater(parent, longer, at, n, other);
    }
  }

  /** The greedy scan over row objects, whatever parent they come from: it accepts exactly the
      ordered subsets. */
  method DeriveSourceDataset<T(==)>(parent: seq<T>, sliced: seq<T>) returns (accepted: bool)
    ensures accepted <==> OrderedSubset(parent, sliced)
  {
    var last := -1;
    var seen: set<T> := {};
    ghost var at: seq<nat> := [];
    for i := 0 to |sliced|
      invariant -1 <= last < |parent| && Next(at) == last + 1 && |at| == i
      invariant seen == set r | r in sliced[..i]
      invariant Differing(sliced[..i]) && Earliest(parent, sliced[..i], at)
    {
      assert sliced[..i + 1] == sliced[..i] + [sliced[i]];
      if sliced[i] in seen {
        assert !Differing(sliced) by { var j :| 0 <= j < i && sliced[..i][j] == sliced[i]; }
        return false;
      }
      var p := Position(parent, sliced[i], last + 1);
      if p == |parent| {
        forall other ensures !Embeds(parent, sliced, other) {
          if Embeds(parent, sliced, other) { NextIsLater(parent, sliced, at, i, other); }
        }
        return false;
      }
      EarliestGrows(parent, sliced, at, i, p);
      seen := seen + {sliced[i]};
      last := p;
      at := at + [p];
    }
    assert sliced[..|sliced|] == sliced;
    return true;
  }

  function Indices(rows: seq<Row>): (at: seq<nat>)
    ensures |at| == |rows| && forall i :: 0 <= i < |at| ==> at[i] == rows[i].index
  {
    seq(|rows|, i requires 0 <= i < |rows| => rows[i].index)
  }

  /** Every slice of generated rows is accepted. */
  lemma {:induction false} SlicesAreAccepted(l: Layout, k: nat)
    ensures var rows := RowsTo(l, l.baseRows);
            OrderedSubset(rows, Slice(rows, k, |rows|))
  {
    var rows := RowsTo(l, l.baseRows);
    var slice := Slice(rows, k, |rows|);
    RowsOrdered(l, l.baseRows);
    SliceRises(rows, k, |rows|);
    assert Embeds(rows, slice, Indices(slice));
  }
}
