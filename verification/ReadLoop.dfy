/**
 The paged read of the asynchronous source: a scripted rate limit fails one attempt, the
 read starts over, and the second attempt delivers every row.
 */
module ReadLoop {
  import opened Wrappers

  // ---- failure scripts ----

  datatype Failure = Failure(sequence: nat, retryAfter: nat)

  const MAX_SCRIPT_ENTRIES: nat := 1_000

  predicate Sorted(script: seq<Failure>) {
    forall i, j :: 0 <= i < j < |script| ==> script[i].sequence < script[j].sequence
  }

  predicate DuplicateFree(entries: seq<Failure>) {
    forall i, j :: 0 <= i < j < |entries| ==> entries[i].sequence != entries[j].sequence
  }

  /** Where a failure goes in a sorted script. */
  method Place(script: seq<Failure>, f: Failure) returns (p: nat)
    requires Sorted(script) && forall i :: 0 <= i < |script| ==> script[i].sequence != f.sequence
    ensures p <= |script|
    ensures forall i :: 0 <= i < p ==> script[i].sequence < f.sequence
    ensures forall i :: p <= i < |script| ==> f.sequence < script[i].sequence
  {
    p := 0;
    while p < |script| && script[p].sequence < f.sequence
      invariant p <= |script|
      invariant forall i :: 0 <= i < p ==> script[i].sequence < f.sequence
    {
      p := p + 1;
    }
  }

  lemma {:induction false} PlacedSorted(script: seq<Failure>, f: Failure, p: nat)
    requires Sorted(script) && p <= |script|
    requires forall i :: 0 <= i < p ==> script[i].sequence < f.sequence
    requires forall i :: p <= i < |script| ==> f.sequence < script[i].sequence
    ensures Sorted(script[..p] + [f] + script[p..])
    ensures multiset(script[..p] + [f] + script[p..]) == multiset(script) + multiset{f}
  {
    assert script == script[..p] + script[p..];
  }

  /** A script is built from any entries, unless a sequence repeats or there are too many. */
  method FromEntries(entries: seq<Failure>) returns (script: Option<seq<Failure>>)
    ensures script.Some? <==> DuplicateFree(entries) && |entries| <= MAX_SCRIPT_ENTRIES
    ensures script.Some? ==> Sorted(script.value) && multiset(script.value) == multiset(entries)
  {
    var sorted: seq<Failure> := [];
    for i := 0 to |entries|
      invariant DuplicateFree(entries[..i])
      invariant Sorted(sorted) && multiset(sorted) == multiset(entries[..i])
    {
      if exists j :: 0 <= j < i && entries[j].sequence == entries[i].sequence {
        return None;
      }
      AllNew(entries, i, sorted);
      var p := Place(sorted, entries[i]);
      PlacedSorted(sorted, entries[i], p);
      assert entries[..i + 1] == entries[..i] + [entries[i]];
      sorted := sorted[..p] + [entries[i]] + sorted[p..];
    }
    assert entries[..|entries|] == entries;
    return if |entries| <= MAX_SCRIPT_ENTRIES then Some(sorted) else None;
  }

  lemma {:induction false} AllNew(entries: seq<Failure>, i: nat, sorted: seq<Failure>)
    requires i < |entries| && multiset(sorted) == multiset(entries[..i])
    requires forall j :: 0 <= j < i ==> entries[j].sequence != entries[i].sequence
    ensures forall k :: 0 <= k < |sorted| ==> sorted[k].sequence != entries[i].sequence
  {
    forall k | 0 <= k < |sorted| ensures sorted[k].sequence != entries[i].sequence {
      assert sorted[k] in multiset(entries[..i]);
      assert sorted[k] in entries[..i];
    }
  }

  /** The early exit of the lookup misses nothing in a sorted script. */
  method FailureFor(script: seq<Failure>, sequence: nat) returns (f: Option<Failure>)
    requires Sorted(script)
    ensures f.Some? ==> f.value in script && f.value.sequence == sequence
    ensures f.None? <==> forall i :: 0 <= i < |script| ==> script[i].sequence != sequence
  {
    for i := 0 to |script|
      invariant forall j :: 0 <= j < i ==> script[j].sequence < sequence
    {
      if script[i].sequence == sequence {
        return Some(script[i]);
      }
      if script[i].sequence > sequence {
        return None;
      }
    }
    return None;
  }

  predicate Fails(script: seq<Failure>, request: nat) {
    exists i :: 0 <= i < |script| && script[i].sequence == request
  }

  // ---- the scripted source ----

  /** The requests of one full pass; an empty source still answers one. */
  function Pages(rows: nat, pageSize: nat): nat
    requires pageSize > 0
  {
    if rows == 0 then 1 else (rows + pageSize - 1) / pageSize
  }

  lemma {:induction false} DivIs(a: nat, d: nat, q: nat, r: nat)
    requires d > 0 && a == q * d + r && r < d
    ensures a / d == q
  {
    var e := a / d;
    assert a == e * d + a % d;
    assert e < q ==> (e + 1) * d <= q * d;
    assert q < e ==> (q + 1) * d <= e * d;
  }

  lemma {:induction false} OnePageLess(rows: nat, pageSize: nat)
    requires pageSize > 0
    ensures rows <= pageSize ==> Pages(rows, pageSize) == 1
    ensures rows > pageSize ==> Pages(rows, pageSize) == Pages(rows - pageSize, pageSize) + 1
  {
    var x := rows - 1;
    if 0 < rows <= pageSize {
      DivIs(rows + pageSize - 1, pageSize, 1, x);
    } else if rows > pageSize {
      var q, r := x / pageSize, x % pageSize;
      assert x == q * pageSize + r;
      assert (q + 1) * pageSize == q * pageSize + pageSize;
      DivIs(rows + pageSize - 1, pageSize, q + 1, r);
    }
  }

  /** After `k` full pages the next one is the last exactly when it ends the rows. */
  lemma {:induction false} LastPage(rows: nat, pageSize: nat, k: nat)
    requires pageSize > 0 && (k == 0 || k * pageSize < rows)
    ensures k < Pages(rows, pageSize)
    ensures k + 1 == Pages(rows, pageSize) <==> (k + 1) * pageSize >= rows
    decreases k
  {
    OnePageLess(rows, pageSize);
    if k > 0 {
      assert k * pageSize == (k - 1) * pageSize + pageSize && (k + 1) * pageSize == k * pageSize + pageSize;
      LastPage(rows - pageSize, pageSize, k - 1);
    } else if rows > pageSize {
      OnePageLess(rows - pageSize, pageSize);
      assert Pages(rows - pageSize, pageSize) >= 1;
    }
  }

  datatype Answer = Page(rows: seq<int>, next: Option<nat>) | RateLimited | InvalidCursor

  class ScriptedSource {
    const rows: seq<int>
    const pageSize: nat
    const script: seq<Failure>
    var served: nat

    predicate Valid()
      reads this
    {
      pageSize > 0 && Sorted(script)
    }

    constructor (rows: seq<int>, pageSize: nat, script: seq<Failure>)
      requires pageSize > 0 && Sorted(script)
      ensures Valid() && served == 0 && this.rows == rows && this.pageSize == pageSize && this.script == script
    {
      this.rows, this.pageSize, this.script := rows, pageSize, script;
      served := 0;
    }

    /** One page request; a scripted one fails, and every request with a valid cursor counts. */
    method ReadPage(cursor: Option<nat>) returns (answer: Answer)
      requires Valid()
      modifies this`served
      ensures answer.InvalidCursor? <==> cursor.Some? && cursor.value > |rows|
      ensures served == if answer.InvalidCursor? then old(served) else old(served) + 1
      ensures !answer.InvalidCursor? ==> (answer.RateLimited? <==> Fails(script, served))
      ensures answer.Page? ==>
                var from := if cursor.Some? then cursor.value else 0;
                from <= |rows| &&
                var to := if from + pageSize <= |rows| then from + pageSize else |rows|;
                answer == Page(rows[from..to], if to < |rows| then Some(to) else None)
    {
      var from := if cursor.Some? then cursor.value else 0;
      if from > |rows| {
        return InvalidCursor;
      }
      served := served + 1;
      var failure := FailureFor(script, served);
      if failure.Some? {
        return RateLimited;
      }
      var to := if from + pageSize <= |rows| then from + pageSize else |rows|;
      return Page(rows[from..to], if to < |rows| then Some(to) else None);
    }
  }

  // ---- the read ----

  datatype Attempt = Attempt(succeeded: bool, records: nat)

  datatype Read = Read(records: seq<int>, attempts: seq<Attempt>, requests: nat)

  /** One attempt from the first page on. It fails at the first scripted request of its
      pass, having collected the pages before it, or delivers every row in order. */
  method ReadPages(source: ScriptedSource) returns (ok: bool, records: seq<int>, requests: nat)
    requires source.Valid()
    modifies source`served
    ensures ok ==>
              && records == source.rows && requests == Pages(|source.rows|, source.pageSize)
              && source.served == old(source.served) + requests
    ensures ok ==> forall i :: old(source.served) < i <= source.served ==> !Fails(source.script, i)
    ensures !ok ==> old(source.served) < source.served <= old(source.served) + Pages(|source.rows|, source.pageSize)
    ensures !ok ==> Fails(source.script, source.served) && requests == source.served - old(source.served) - 1
    ensures !ok ==> |records| == requests * source.pageSize
    ensures !ok ==> forall i :: old(source.served) < i < source.served ==> !Fails(source.script, i)
  {
    records, requests := [], 0;
    var cursor: Option<nat> := None;
    var n, p := |source.rows|, source.pageSize;
    while true
      invariant source.Valid()
      invariant requests == 0 || requests * p < n
      invariant requests * p <= n || requests == 0
      invariant cursor == if requests == 0 then None else Some(requests * p)
      invariant records == source.rows[..requests * p]
      invariant source.served == old(source.served) + requests
      invariant forall i :: old(source.served) < i <= source.served ==> !Fails(source.script, i)
      decreases n - requests * p
    {
      LastPage(n, p, requests);
      var answer := source.ReadPage(cursor);
      if answer.RateLimited? {
        return false, records, requests;
      }
      assert (requests + 1) * p == requests * p + p;
      records := records + answer.rows;
      requests := requests + 1;
      if answer.next.None? {
        return true, records, requests;
      }
      cursor := answer.next;
    }
  }

  /** The script has one failure, and the first pass runs into it. */
  predicate OneFaultInFirstPass(script: seq<Failure>, rows: nat, pageSize: nat) {
    pageSize > 0 && |script| == 1 && 1 <= script[0].sequence <= Pages(rows, pageSize)
  }

  lemma {:induction false} OnlyFault(script: seq<Failure>)
    requires |script| == 1
    ensures forall i :: Fails(script, i) <==> i == script[0].sequence
  {
    assert Fails(script, script[0].sequence);
  }

  /** The retry loop; the policy grants `retries` retries. Whatever it returns is complete,
      and one fault in the first pass costs exactly the requests up to it. */
  method ReadAsyncSource(source: ScriptedSource, retries: nat) returns (read: Option<Read>)
    requires source.Valid() && source.served == 0
    modifies source`served
    ensures read.Some? ==>
              read.value.records == source.rows && read.value.requests == Pages(|source.rows|, source.pageSize)
    ensures OneFaultInFirstPass(source.script, |source.rows|, source.pageSize) && retries >= 1 ==>
              && read.Some?
              && read.value.attempts == [Attempt(false, (source.script[0].sequence - 1) * source.pageSize),
                  Attempt(true, |source.rows|)]
              && source.served == source.script[0].sequence + Pages(|source.rows|, source.pageSize)
  {
    ghost var oneFault := OneFaultInFirstPass(source.script, |source.rows|, source.pageSize) && retries >= 1;
    ghost var r := if oneFault then source.script[0].sequence else 0;
    if oneFault { OnlyFault(source.script); }
    var attempts: seq<Attempt> := [];
    var left := retries;
    var ok, records, requests := ReadPages(source);
    assert oneFault ==> Fails(source.script, r);
    while !ok && left > 0
      invariant source.Valid()
      invariant ok ==> records == source.rows && requests == Pages(|source.rows|, source.pageSize)
      invariant oneFault && attempts == [] ==>
          !ok && source.served == r && left == retries && |records| == (r - 1) * source.pageSize
      invariant oneFault && attempts != [] ==>
                  ok && attempts == [Attempt(false, (r - 1) * source.pageSize)] && source.served == r + requests
      decreases left
    {
      attempts := attempts + [Attempt(false, |records|)];
      left := left - 1;
      ok, records, requests := ReadPages(source);
    }
    return if ok then Some(Read(records, attempts + [Attempt(true, |records|)], requests)) else None;
  }
}
