/**
 Alias resolution of the import checker: assignments are applied round by round to a
 growing alias map, in whatever order they appear, until a round changes nothing.
 */
module Aliases {
  import opened Wrappers

  /** The expressions the resolver looks into; a subscript keeps its key when it is a string constant. */
  datatype Expr =
    | Name(id: string)
    | Attribute(owner: Expr, attr: string)
    | Subscript(owner: Expr, key: Option<string>)
    | Call(func: Expr, args: seq<Expr>)
    | Text(value: string)
    | Other

  /** An annotation without a value binds nothing; targets that are no names are skipped. */
  datatype Assignment = Assignment(value: Option<Expr>, targets: seq<Option<string>>)

  type AliasMap = map<string, string>

  const BUILTIN_CALL_NAMES := {"__import__", "compile", "eval", "exec", "globals", "locals", "open", "vars"}

  /** A name nobody bound. */
  function Unbound(id: string): string {
    if id == "__builtins__" then "builtins" else if id in BUILTIN_CALL_NAMES then "builtins." + id else id
  }

  function Base(id: string, aliases: AliasMap): string {
    if id in aliases then aliases[id] else Unbound(id)
  }

  function Dotted(owner: Option<string>, attr: string): Option<string> {
    if owner.Some? then Some(owner.value + "." + attr) else None
  }

  function QualifiedName(e: Expr, aliases: AliasMap): Option<string> {
    match e
    case Name(id) => Some(Base(id, aliases))
    case Attribute(owner, attr) => Dotted(QualifiedName(owner, aliases), attr)
    case Subscript(owner, key) =>
      if key.Some? then Dotted(QualifiedName(owner, aliases), key.value) else None
    case Call(func, args) =>
      var accessor := QualifiedName(func, aliases);
      if (accessor == Some("builtins.getattr") || accessor == Some("getattr")) && |args| >= 2 && args[1].Text?
      then Dotted(QualifiedName(args[0], aliases), args[1].value) else None
    case Text(_) => None
    case Other => None
  }

  // ---- one round, and many ----

  function SetAll(aliases: AliasMap, targets: seq<Option<string>>, value: string, n: nat): AliasMap
    requires n <= |targets|
  {
    if n == 0 then aliases
    else
      var before := SetAll(aliases, targets, value, n - 1);
      if targets[n - 1].Some? then before[targets[n - 1].value := value] else before
  }

  function Assign(aliases: AliasMap, a: Assignment): AliasMap {
    if a.value.None? then aliases
    else
      var value := QualifiedName(a.value.value, aliases);
      if value.None? then aliases else SetAll(aliases, a.targets, value.value, |a.targets|)
  }

  /** The first `n` assignments of a round. */
  function Part(assignments: seq<Assignment>, aliases: AliasMap, n: nat): AliasMap
    requires n <= |assignments|
  {
    if n == 0 then aliases else Assign(Part(assignments, aliases, n - 1), assignments[n - 1])
  }

  function Round(assignments: seq<Assignment>, aliases: AliasMap): AliasMap {
    Part(assignments, aliases, |assignments|)
  }

  function Rounds(assignments: seq<Assignment>, imports: AliasMap, r: nat): AliasMap {
    if r == 0 then imports else Round(assignments, Rounds(assignments, imports, r - 1))
  }

  /** The bounded loop: it stops at the first round that changes nothing. */
  method ImportAliases(imports: AliasMap, assignments: seq<Assignment>) returns (aliases: AliasMap, rounds: nat)
    ensures rounds <= |assignments| + 1 && aliases == Rounds(assignments, imports, rounds)
    ensures rounds == |assignments| + 1 || Round(assignments, aliases) == aliases
  {
    aliases := imports;
    rounds := 0;
    while rounds < |assignments| + 1
      invariant rounds <= |assignments| + 1
      invariant aliases == Rounds(assignments, imports, rounds)
    {
      var previous := aliases;
      for k := 0 to |assignments|
        invariant aliases == Part(assignments, previous, k)
      {
        var value := if assignments[k].value.Some? then QualifiedName(assignments[k].value.value, aliases) else None;
        if value.Some? {
          aliases := Bind(aliases, assignments[k].targets, value.value);
        }
      }
      rounds := rounds + 1;
      if aliases == previous {
        return;
      }
    }
  }

  method Bind(before: AliasMap, targets: seq<Option<string>>, value: string) returns (aliases: AliasMap)
    ensures aliases == SetAll(before, targets, value, |targets|)
  {
    aliases := before;
    for k := 0 to |targets|
      invariant aliases == SetAll(before, targets, value, k)
    {
      if targets[k].Some? {
        aliases := aliases[targets[k].value := value];
      }
    }
  }

  // ---- what an expression comes to, whatever the aliases are ----

  /** A root name and the dotted selectors behind it. */
  datatype Shape = Shape(root: string, selectors: string)

  predicate IsGetter(name: string) { name == "builtins.getattr" || name == "getattr" }

  function Extended(shape: Option<Shape>, attr: string): Option<Shape> {
    if shape.Some? then Some(Shape(shape.value.root, shape.value.selectors + "." + attr)) else None
  }

  /** The shape of an expression, with the accessors of its calls looked up in the imports;
      `None` for an expression that resolves to nothing. */
  function ShapeOf(e: Expr, imports: AliasMap): Option<Shape> {
    match e
    case Name(id) => Some(Shape(id, ""))
    case Attribute(owner, attr) => Extended(ShapeOf(owner, imports), attr)
    case Subscript(owner, key) => if key.Some? then Extended(ShapeOf(owner, imports), key.value) else None
    case Call(func, args) =>
      var accessor := ShapeOf(func, imports);
      if accessor.Some? && IsGetter(Base(accessor.value.root, imports) + accessor.value.selectors)
         && |args| >= 2 && args[1].Text?
      then Extended(ShapeOf(args[0], imports), args[1].value) else None
    case Text(_) => None
    case Other => None
  }

  /** One file: what its imports bind, and its assignments in some order. */
  datatype Program = Program(imports: AliasMap, assignments: seq<Assignment>)

  function ValueShape(p: Program, i: nat): Option<Shape>
    requires i < |p.assignments|
  {
    if p.assignments[i].value.Some? then ShapeOf(p.assignments[i].value.value, p.imports) else None
  }

  /** The assignment resolves and has the name among its targets. */
  predicate Binds(p: Program, i: nat, id: string)
    requires i < |p.assignments|
  {
    ValueShape(p, i).Some? && Some(id) in p.assignments[i].targets
  }

  predicate IsBound(p: Program, id: string) {
    exists j :: 0 <= j < |p.assignments| && Binds(p, j, id)
  }

  /** No call in the expression has an accessor whose root some assignment binds. */
  predicate Steady(p: Program, e: Expr) {
    match e
    case Attribute(owner, _) => Steady(p, owner)
    case Subscript(owner, key) => key.Some? ==> Steady(p, owner)
    case Call(func, args) =>
      && Steady(p, func)
      && (ShapeOf(func, p.imports).Some? ==> !IsBound(p, ShapeOf(func, p.imports).value.root))
      && (|args| >= 2 ==> Steady(p, args[0]))
    case _ => true
  }

  /** Names nobody binds keep what the imports say. */
  ghost predicate Foreign(p: Program, aliases: AliasMap) {
    && (forall id :: id in p.imports ==> id in aliases)
    && (forall id :: !IsBound(p, id) ==> (id in aliases <==> id in p.imports))
    && (forall id :: !IsBound(p, id) && id in p.imports ==> aliases[id] == p.imports[id])
  }

  lemma {:induction false} ForeignBase(p: Program, aliases: AliasMap, id: string)
    requires Foreign(p, aliases) && !IsBound(p, id)
    ensures Base(id, aliases) == Base(id, p.imports)
  {
  }

  function Rendered(shape: Option<Shape>, aliases: AliasMap): Option<string> {
    if shape.Some? then Some(Base(shape.value.root, aliases) + shape.value.selectors) else None
  }

  lemma {:induction false} DottedShape(shape: Option<Shape>, aliases: AliasMap, attr: string)
    ensures Dotted(Rendered(shape, aliases), attr) == Rendered(Extended(shape, attr), aliases)
  {
    if shape.Some? {
      var base, selectors := Base(shape.value.root, aliases), shape.value.selectors;
      assert base + selectors + "." + attr == base + (selectors + "." + attr);
    }
  }

  /** With steady accessors a qualified name depends on the alias of its root alone. */
  lemma {:induction false} NameFromRoot(p: Program, e: Expr, aliases: AliasMap)
    requires Steady(p, e) && Foreign(p, aliases)
    ensures QualifiedName(e, aliases) == Rendered(ShapeOf(e, p.imports), aliases)
  {
    match e
    case Name(id) => assert Base(id, aliases) + "" == Base(id, aliases);
    case Attribute(owner, attr) =>
      NameFromRoot(p, owner, aliases);
      DottedShape(ShapeOf(owner, p.imports), aliases, attr);
    case Subscript(owner, key) =>
      if key.Some? {
        NameFromRoot(p, owner, aliases);
        DottedShape(ShapeOf(owner, p.imports), aliases, key.value);
      }
    case Call(func, args) =>
      NameFromRoot(p, func, aliases);
      var accessor := ShapeOf(func, p.imports);
      if accessor.Some? { ForeignBase(p, aliases, accessor.value.root); }
      if |args| >= 2 && args[1].Text? {
        NameFromRoot(p, args[0], aliases);
        DottedShape(ShapeOf(args[0], p.imports), aliases, args[1].value);
      }
    case _ =>
  }

  // ---- full recursive resolution ----

  /** Accessors are steady and no name is bound by two assignments. */
  ghost predicate WellBound(p: Program) {
    && (forall i :: 0 <= i < |p.assignments| && p.assignments[i].value.Some? ==>
        Steady(p, p.assignments[i].value.value))
    && (forall i, j, id :: 0 <= i < j < |p.assignments| && Binds(p, i, id) ==> !Binds(p, j, id))
  }

  /** The value of one assignment begins with a name that the other one binds. */
  predicate Uses(p: Program, i: nat, j: nat)
    requires i < |p.assignments| && j < |p.assignments|
  {
    ValueShape(p, i).Some? && Binds(p, j, ValueShape(p, i).value.root)
  }

  /** No cyclic aliases: some ranking decreases from each assignment to the one it uses. */
  ghost predicate Acyclic(p: Program, rank: seq<nat>) {
    && WellBound(p) && |rank| == |p.assignments|
    && forall i, j :: 0 <= i < |p.assignments| && 0 <= j < |p.assignments| && Uses(p, i, j) ==> rank[j] < rank[i]
  }

  /** What an assignment resolves to when every alias is followed to its end. */
  ghost function Resolve(p: Program, rank: seq<nat>, i: nat): string
    requires Acyclic(p, rank) && i < |p.assignments| && ValueShape(p, i).Some?
    decreases rank[i]
  {
    var shape := ValueShape(p, i).value;
    if exists j :: 0 <= j < |p.assignments| && Uses(p, i, j) then
      var j :| 0 <= j < |p.assignments| && Uses(p, i, j);
      Resolve(p, rank, j) + shape.selectors
    else Base(shape.root, p.imports) + shape.selectors
  }

  // ---- rounds settle assignments ----

  ghost predicate SettledAt(p: Program, rank: seq<nat>, aliases: AliasMap, i: nat)
    requires Acyclic(p, rank) && i < |p.assignments|
  {
    forall id :: Binds(p, i, id) ==> id in aliases && aliases[id] == Resolve(p, rank, i)
  }

  /** Everything the assignment uses is settled. */
  ghost predicate Ready(p: Program, settled: set<nat>, i: nat)
    requires i < |p.assignments|
  {
    forall j :: 0 <= j < |p.assignments| && Uses(p, i, j) ==> j in settled
  }

  ghost predicate Settled(p: Program, rank: seq<nat>, aliases: AliasMap, settled: set<nat>)
    requires Acyclic(p, rank)
  {
    && Foreign(p, aliases)
    && (forall i :: i in settled ==> i < |p.assignments| && Ready(p, settled, i))
    && (forall i :: i in settled ==> i < |p.assignments| && SettledAt(p, rank, aliases, i))
  }

  lemma {:induction false} SetAllSets(aliases: AliasMap, targets: seq<Option<string>>, value: string, n: nat)
    requires n <= |targets|
    ensures forall id :: id in SetAll(aliases, targets, value, n) <==> id in aliases || Some(id) in targets[..n]
    ensures forall id :: id in SetAll(aliases, targets, value, n) ==>
              SetAll(aliases, targets, value, n)[id] == if Some(id) in targets[..n] then value else aliases[id]
  {
    if n > 0 {
      SetAllSets(aliases, targets, value, n - 1);
      assert targets[..n] == targets[..n - 1] + [targets[n - 1]];
    }
  }

  /** An assignment sets its own names to one value and leaves all others alone. */
  lemma {:induction false} AssignSets(p: Program, aliases: AliasMap, i: nat) returns (value: string)
    requires WellBound(p) && Foreign(p, aliases) && i < |p.assignments|
    ensures var shape := ValueShape(p, i);
            shape.Some? ==> value == Base(shape.value.root, aliases) + shape.value.selectors
    ensures forall id :: id in Assign(aliases, p.assignments[i]) <==> id in aliases || Binds(p, i, id)
    ensures forall id :: id in Assign(aliases, p.assignments[i]) ==>
              Assign(aliases, p.assignments[i])[id] == if Binds(p, i, id) then value else aliases[id]
  {
    var a := p.assignments[i];
    value := "";
    if a.value.Some? {
      NameFromRoot(p, a.value.value, aliases);
      var shape := ValueShape(p, i);
      if shape.Some? {
        value := Base(shape.value.root, aliases) + shape.value.selectors;
        SetAllSets(aliases, a.targets, value, |a.targets|);
        assert a.targets[..|a.targets|] == a.targets;
      }
    }
  }

  /** A ready assignment is given the value of full resolution. */
  lemma {:induction false} ReadyResolves(p: Program, rank: seq<nat>, aliases: AliasMap, settled: set<nat>, i: nat)
    requires Acyclic(p, rank) && i < |p.assignments| && ValueShape(p, i).Some?
    requires Settled(p, rank, aliases, settled) && Ready(p, settled, i)
    ensures Rendered(ValueShape(p, i), aliases) == Some(Resolve(p, rank, i))
  {
    var shape := ValueShape(p, i).value;
    if exists j :: 0 <= j < |p.assignments| && Uses(p, i, j) {
      var j :| 0 <= j < |p.assignments| && Uses(p, i, j)
          && Resolve(p, rank, i) == Resolve(p, rank, j) + shape.selectors;
      assert SettledAt(p, rank, aliases, j);
    } else {
      forall j | 0 <= j < |p.assignments| ensures !Binds(p, j, shape.root) {
        assert !Uses(p, i, j);
      }
      ForeignBase(p, aliases, shape.root);
    }
  }

  ghost predicate PartSettled(p: Program, rank: seq<nat>, aliases: AliasMap, settled: set<nat>, n: nat)
    requires Acyclic(p, rank) && n <= |p.assignments|
  {
    && Settled(p, rank, aliases, settled)
    && forall i :: 0 <= i < n && Ready(p, settled, i) ==> SettledAt(p, rank, aliases, i)
  }

  lemma {:induction false} AssignKeepsForeign(p: Program, aliases: AliasMap, i: nat)
    requires WellBound(p) && i < |p.assignments| && Foreign(p, aliases)
    ensures Foreign(p, Assign(aliases, p.assignments[i]))
  {
    var value := AssignSets(p, aliases, i);
    forall id | !IsBound(p, id) ensures !Binds(p, i, id) {
    }
  }

  lemma {:induction false} AssignKeepsSettled(p: Program, rank: seq<nat>, aliases: AliasMap, i: nat, k: nat)
    requires Acyclic(p, rank) && i < |p.assignments| && k < |p.assignments| && i != k
    requires Foreign(p, aliases) && SettledAt(p, rank, aliases, k)
    ensures SettledAt(p, rank, Assign(aliases, p.assignments[i]), k)
  {
    var value := AssignSets(p, aliases, i);
  }

  lemma {:induction false} ReadySettles(p: Program, rank: seq<nat>, aliases: AliasMap, settled: set<nat>, i: nat)
    requires Acyclic(p, rank) && i < |p.assignments|
    requires Settled(p, rank, aliases, settled) && Ready(p, settled, i)
    ensures SettledAt(p, rank, Assign(aliases, p.assignments[i]), i)
  {
    if ValueShape(p, i).Some? {
      ReadyResolves(p, rank, aliases, settled, i);
      var value := AssignSets(p, aliases, i);
    }
  }

  lemma {:induction false} OneMoreSettles(p: Program, rank: seq<nat>, before: AliasMap, settled: set<nat>, n: nat)
    requires Acyclic(p, rank) && n < |p.assignments| && PartSettled(p, rank, before, settled, n)
    ensures PartSettled(p, rank, Assign(before, p.assignments[n]), settled, n + 1)
  {
    var after := Assign(before, p.assignments[n]);
    AssignKeepsForeign(p, before, n);
    forall i | 0 <= i < |p.assignments| && (i in settled || (i < n + 1 && Ready(p, settled, i)))
      ensures SettledAt(p, rank, after, i)
    {
      if i == n {
        ReadySettles(p, rank, before, settled, i);
      } else {
        AssignKeepsSettled(p, rank, before, n, i);
      }
    }
  }

  lemma {:induction false} PartSettles(p: Program, rank: seq<nat>, aliases: AliasMap, settled: set<nat>, n: nat)
    requires Acyclic(p, rank) && n <= |p.assignments| && Settled(p, rank, aliases, settled)
    ensures PartSettled(p, rank, Part(p.assignments, aliases, n), settled, n)
  {
    if n > 0 {
      PartSettles(p, rank, aliases, settled, n - 1);
      OneMoreSettles(p, rank, Part(p.assignments, aliases, n - 1), settled, n - 1);
    }
  }

  ghost function NextSettled(p: Program, settled: set<nat>): set<nat> {
    set i: nat | i < |p.assignments| && Ready(p, settled, i)
  }

  /** One more round settles everything that is ready. */
  lemma {:induction false} RoundSettles(p: Program, rank: seq<nat>, aliases: AliasMap, settled: set<nat>)
    requires Acyclic(p, rank) && Settled(p, rank, aliases, settled)
    ensures Settled(p, rank, Round(p.assignments, aliases), NextSettled(p, settled))
    ensures settled <= NextSettled(p, settled)
  {
    PartSettles(p, rank, aliases, settled, |p.assignments|);
  }

  lemma {:induction false} SomeReady(p: Program, rank: seq<nat>, settled: set<nat>, i: nat) returns (k: nat)
    requires Acyclic(p, rank) && i < |p.assignments| && i !in settled
    ensures k < |p.assignments| && k !in settled && Ready(p, settled, k)
    decreases rank[i]
  {
    if Ready(p, settled, i) {
      k := i;
    } else {
      var j :| 0 <= j < |p.assignments| && Uses(p, i, j) && j !in settled;
      k := SomeReady(p, rank, settled, j);
    }
  }

  ghost function Indices(n: nat): (s: set<nat>)
    ensures |s| == n && forall i: nat :: i in s <==> i < n
  {
    if n == 0 then {} else Indices(n - 1) + {n - 1}
  }

  /** Each round settles at least one assignment more. */
  lemma {:induction false} SettledGrows(p: Program, rank: seq<nat>, settled: set<nat>)
    requires Acyclic(p, rank) && forall i :: i in settled ==> i < |p.assignments| && Ready(p, settled, i)
    ensures || |NextSettled(p, settled)| > |settled|
            || settled == NextSettled(p, settled) == Indices(|p.assignments|)
  {
    var next := NextSettled(p, settled);
    if settled != Indices(|p.assignments|) {
      var i: nat :| i < |p.assignments| && i !in settled;
      var k := SomeReady(p, rank, settled, i);
      assert settled + {k} <= next;
      SubsetSize(settled + {k}, next);
    } else {
      assert next == settled;
    }
  }

  lemma {:induction false} SubsetSize(a: set<nat>, b: set<nat>)
    requires a <= b
    ensures |a| <= |b|
  {
    assert b == a + (b - a);
  }

  lemma NoSettled(p: Program, rank: seq<nat>)
    requires Acyclic(p, rank)
    ensures Settled(p, rank, p.imports, {})
  {
  }

  lemma {:induction false} RoundsSettle(p: Program, rank: seq<nat>, r: nat) returns (settled: set<nat>)
    requires Acyclic(p, rank)
    ensures Settled(p, rank, Rounds(p.assignments, p.imports, r), settled)
    ensures |settled| >= r || settled == Indices(|p.assignments|)
  {
    if r == 0 {
      settled := {};
      NoSettled(p, rank);
    } else {
      var before := RoundsSettle(p, rank, r - 1);
      var aliases := Rounds(p.assignments, p.imports, r - 1);
      RoundSettles(p, rank, aliases, before);
      SettledGrows(p, rank, before);
      settled := NextSettled(p, before);
      assert Rounds(p.assignments, p.imports, r) == Round(p.assignments, aliases);
    }
  }

  /** The map that full resolution describes, name by name. */
  ghost predicate IsResolution(p: Program, rank: seq<nat>, aliases: AliasMap)
    requires Acyclic(p, rank)
  {
    && Foreign(p, aliases)
    && forall i :: 0 <= i < |p.assignments| ==> SettledAt(p, rank, aliases, i)
  }

  lemma {:induction false} ManyRoundsResolve(p: Program, rank: seq<nat>, r: nat)
    requires Acyclic(p, rank) && r >= |p.assignments|
    ensures IsResolution(p, rank, Rounds(p.assignments, p.imports, r))
  {
    var settled := RoundsSettle(p, rank, r);
    var all := Indices(|p.assignments|);
    assert settled <= all;
    if settled != all {
      var i :| i in all && i !in settled;
      SubsetSize(settled + {i}, all);
    }
  }

  lemma {:induction false} ResolutionIsUnique(p: Program, rank: seq<nat>, m1: AliasMap, m2: AliasMap)
    requires Acyclic(p, rank) && IsResolution(p, rank, m1) && IsResolution(p, rank, m2)
    ensures m1 == m2
  {
    forall id ensures id in m1 <==> id in m2
      ensures id in m1 ==> m1[id] == m2[id]
    {
      if IsBound(p, id) {
        var j :| 0 <= j < |p.assignments| && Binds(p, j, id);
        assert SettledAt(p, rank, m1, j) && SettledAt(p, rank, m2, j);
      }
    }
  }

  lemma {:induction false} FixpointStays(p: Program, r: nat, more: nat)
    requires Round(p.assignments, Rounds(p.assignments, p.imports, r)) == Rounds(p.assignments, p.imports, r)
    ensures Rounds(p.assignments, p.imports, r + more) == Rounds(p.assignments, p.imports, r)
  {
    if more > 0 { FixpointStays(p, r, more - 1); }
  }

  /** However the assignments are ordered, the bounded loop ends at a fixpoint, and the
      fixpoint is full recursive resolution. */
  lemma {:induction false} LoopResolves(p: Program, rank: seq<nat>, rounds: nat)
    requires Acyclic(p, rank)
    requires var aliases := Rounds(p.assignments, p.imports, rounds);
             rounds == |p.assignments| + 1 || Round(p.assignments, aliases) == aliases
    ensures var aliases := Rounds(p.assignments, p.imports, rounds);
            IsResolution(p, rank, aliases) && Round(p.assignments, aliases) == aliases
  {
    var n := |p.assignments|;
    if rounds < n {
      FixpointStays(p, rounds, n - rounds);
    }
    ManyRoundsResolve(p, rank, if rounds < n then n else rounds);
    ManyRoundsResolve(p, rank, n + 1);
    ManyRoundsResolve(p, rank, n + 2);
    ResolutionIsUnique(p, rank, Rounds(p.assignments, p.imports, n + 1), Rounds(p.assignments, p.imports, n + 2));
  }

  // ---- with steady accessors the order does not matter ----

  /** The same assignments in another order: `place[i]` is where the i-th went. */
  predicate Reordered(p: Program, p': Program, place: seq<nat>) {
    && p'.imports == p.imports && |p'.assignments| == |p.assignments| == |place|
    && (forall i :: 0 <= i < |place| ==> place[i] < |place| && p'.assignments[place[i]] == p.assignments[i])
    && (forall k: nat :: k < |place| ==> k in place)
    && (forall i, j :: 0 <= i < j < |place| ==> place[i] != place[j])
  }

  lemma {:induction false} UserIsUnique(p: Program, i: nat, j: nat, k: nat)
    requires WellBound(p) && i < |p.assignments| && j < |p.assignments| && k < |p.assignments|
    requires Uses(p, i, j) && Uses(p, i, k)
    ensures j == k
  {
    var id := ValueShape(p, i).value.root;
    assert Binds(p, j, id) && Binds(p, k, id);
  }

  lemma {:induction false} SameResolution(
      p: Program, p': Program, place: seq<nat>, rank: seq<nat>, rank': seq<nat>, i: nat)
    requires Reordered(p, p', place) && Acyclic(p, rank) && Acyclic(p', rank')
    requires i < |p.assignments| && ValueShape(p, i).Some?
    ensures Resolve(p, rank, i) == Resolve(p', rank', place[i])
    decreases rank[i]
  {
    if exists j :: 0 <= j < |p.assignments| && Uses(p, i, j) {
      var j :| 0 <= j < |p.assignments| && Uses(p, i, j)
               && Resolve(p, rank, i) == Resolve(p, rank, j) + ValueShape(p, i).value.selectors;
      SameResolution(p, p', place, rank, rank', j);
      assert Uses(p', place[i], place[j]);
      forall k | 0 <= k < |p'.assignments| && Uses(p', place[i], k) ensures k == place[j] {
        UserIsUnique(p', place[i], k, place[j]);
      }
    } else {
      forall k | 0 <= k < |p'.assignments| ensures !Uses(p', place[i], k) {
        assert k in place;
        var j :| 0 <= j < |place| && place[j] == k;
        assert !Uses(p, i, j);
      }
    }
  }

  lemma {:induction false} SameBound(p: Program, p': Program, place: seq<nat>)
    requires Reordered(p, p', place)
    ensures forall id :: IsBound(p, id) <==> IsBound(p', id)
  {
    forall id ensures IsBound(p, id) <==> IsBound(p', id) {
      if IsBound(p, id) {
        var i :| 0 <= i < |p.assignments| && Binds(p, i, id);
        assert Binds(p', place[i], id);
      }
      if IsBound(p', id) {
        var k :| 0 <= k < |p'.assignments| && Binds(p', k, id);
        assert k in place;
        var i :| 0 <= i < |place| && place[i] == k;
        assert Binds(p, i, id);
      }
    }
  }

  /** Two orders of the same assignments, calls included, resolve to the same aliases. */
  lemma {:induction false} OrderDoesNotMatter(
    p: Program, p': Program, place: seq<nat>, rank: seq<nat>, rank': seq<nat>, m: AliasMap, m': AliasMap)
    requires Reordered(p, p', place) && Acyclic(p, rank) && Acyclic(p', rank')
    requires IsResolution(p, rank, m) && IsResolution(p', rank', m')
    ensures m == m'
  {
    SameBound(p, p', place);
    forall i | 0 <= i < |p.assignments| ensures SettledAt(p, rank, m', i) {
      assert SettledAt(p', rank', m', place[i]);
      if ValueShape(p, i).Some? {
        SameResolution(p, p', place, rank, rank', i);
      }
    }
    ResolutionIsUnique(p, rank, m, m');
  }

  // ---- rebinding an accessor breaks it ----

  /** `getattr` bound to another name, and a call of it. */
  function Shadowing(other: string): Assignment { Assignment(Some(Name(other)), [Some("getattr")]) }

  function Calling(owner: string, attr: string, target: string): Assignment {
    Assignment(Some(Call(Name("getattr"), [Name(owner), Text(attr)])), [Some(target)])
  }

  lemma {:induction false} AssignShadowing(aliases: AliasMap, other: string)
    ensures Assign(aliases, Shadowing(other)) == aliases["getattr" := Base(other, aliases)]
  {
    var value := Base(other, aliases);
    assert SetAll(aliases, [Some("getattr")], value, 0) == aliases;
    assert SetAll(aliases, [Some("getattr")], value, 1) == aliases["getattr" := value];
  }

  lemma {:induction false} AssignCalling(aliases: AliasMap, owner: string, attr: string, target: string)
    ensures Assign(aliases, Calling(owner, attr, target)) ==
            if IsGetter(Base("getattr", aliases)) then aliases[target := Base(owner, aliases) + "." + attr] else aliases
  {
    var e := Calling(owner, attr, target).value.value;
    assert QualifiedName(Name("getattr"), aliases) == Some(Base("getattr", aliases));
    assert QualifiedName(Name(owner), aliases) == Some(Base(owner, aliases));
    if IsGetter(Base("getattr", aliases)) {
      var value := Base(owner, aliases) + "." + attr;
      assert QualifiedName(e, aliases) == Some(value);
      assert SetAll(aliases, [Some(target)], value, 0) == aliases;
      assert SetAll(aliases, [Some(target)], value, 1) == aliases[target := value];
    } else {
      assert QualifiedName(e, aliases) == None;
    }
  }

  lemma {:induction false} RoundOfTwo(a: Assignment, b: Assignment, aliases: AliasMap)
    ensures Round([a, b], aliases) == Assign(Assign(aliases, a), b)
  {
    assert Part([a, b], aliases, 0) == aliases;
    assert Part([a, b], aliases, 1) == Assign(aliases, a);
  }

  /** The names of the pair below are apart, the imports bind neither `getattr` nor the target,
      and `other` is no accessor. */
  predicate Apart(imports: AliasMap, other: string, owner: string, target: string) {
    && "getattr" !in imports && target !in imports && !IsGetter(Base(other, imports))
    && other != "getattr" && owner != "getattr" && target != "getattr" && target != other && target != owner
  }

  lemma {:induction false} ShadowFirst(imports: AliasMap, other: string, owner: string, attr: string, target: string)
    requires Apart(imports, other, owner, target)
    ensures var order := [Shadowing(other), Calling(owner, attr, target)];
            && Rounds(order, imports, 1) == imports["getattr" := Base(other, imports)]
            && Round(order, Rounds(order, imports, 1)) == Rounds(order, imports, 1)
  {
    var m1 := imports["getattr" := Base(other, imports)];
    RoundOfTwo(Shadowing(other), Calling(owner, attr, target), imports);
    RoundOfTwo(Shadowing(other), Calling(owner, attr, target), m1);
    AssignShadowing(imports, other);
    AssignShadowing(m1, other);
    AssignCalling(m1, owner, attr, target);
    assert m1["getattr" := Base(other, imports)] == m1;
    assert Rounds([Shadowing(other), Calling(owner, attr, target)], imports, 0) == imports;
  }

  lemma {:induction false} CallFirst(imports: AliasMap, other: string, owner: string, attr: string, target: string)
    requires Apart(imports, other, owner, target)
    ensures var order := [Calling(owner, attr, target), Shadowing(other)];
            && Rounds(order, imports, 1) ==
               imports[target := Base(owner, imports) + "." + attr]["getattr" := Base(other, imports)]
            && Round(order, Rounds(order, imports, 1)) == Rounds(order, imports, 1)
  {
    var m2 := imports[target := Base(owner, imports) + "." + attr];
    var m3 := m2["getattr" := Base(other, imports)];
    assert Unbound("getattr") == "getattr";
    RoundOfTwo(Calling(owner, attr, target), Shadowing(other), imports);
    RoundOfTwo(Calling(owner, attr, target), Shadowing(other), m3);
    AssignCalling(imports, owner, attr, target);
    AssignShadowing(m2, other);
    AssignCalling(m3, owner, attr, target);
    AssignShadowing(m3, other);
    assert m3["getattr" := Base(other, imports)] == m3;
    assert Rounds([Calling(owner, attr, target), Shadowing(other)], imports, 0) == imports;
  }

  /** Under any imports that leave it alone, `getattr` rebound to a name that is no accessor and
      one call of it: the call is taken for the builtin in the first round if it comes first,
      and the alias it leaves behind stays. Both orders reach a fixpoint after one round, and
      the fixpoints differ. */
  lemma {:induction false} CallsDependOnOrder(
      imports: AliasMap, other: string, owner: string, attr: string, target: string)
    requires Apart(imports, other, owner, target)
    ensures var order := [Shadowing(other), Calling(owner, attr, target)];
            var aliases := Rounds(order, imports, 1);
            target !in aliases && Round(order, aliases) == aliases
    ensures var order := [Calling(owner, attr, target), Shadowing(other)];
            var aliases := Rounds(order, imports, 1);
            && target in aliases && aliases[target] == Base(owner, imports) + "." + attr
            && Round(order, aliases) == aliases
  {
    ShadowFirst(imports, other, owner, attr, target);
    CallFirst(imports, other, owner, attr, target);
  }

  // ---- the spellings of a builtin ----

  /** The ways to write a builtin: by its name, as an attribute or an item of `__builtins__` or
      of an alias of the module, and through `getattr`, itself spelled in two ways. */
  function Spellings(id: string, module_: string): seq<Expr> {
    var builtins := Name("__builtins__");
    [Name(id), Attribute(builtins, id), Subscript(builtins, Some(id)),
     Attribute(Name(module_), id), Subscript(Name(module_), Some(id)),
     Call(Name("getattr"), [builtins, Text(id)]), Call(Attribute(builtins, "getattr"), [Name(module_), Text(id)])]
  }

  /** However a watched builtin is written, it comes to one qualified name. */
  lemma {:induction false} SpellingsAgree(id: string, module_: string, aliases: AliasMap, i: nat)
    requires id in {"__import__", "compile", "eval", "exec", "globals", "locals", "open", "vars"}
    requires id !in aliases && "__builtins__" !in aliases && "getattr" !in aliases
    requires module_ in aliases && aliases[module_] == "builtins"
    requires i < |Spellings(id, module_)|
    ensures QualifiedName(Spellings(id, module_)[i], aliases) == Some("builtins" + "." + id)
  {
    var builtins := Name("__builtins__");
    assert QualifiedName(builtins, aliases) == Some("builtins");
    assert QualifiedName(Name(module_), aliases) == Some("builtins");
    assert QualifiedName(Name("getattr"), aliases) == Some("getattr") by { NotABuiltin("getattr"); }
    assert QualifiedName(Attribute(builtins, "getattr"), aliases) == Some("builtins" + "." + "getattr");
    assert "builtins" + "." + "getattr" == "builtins.getattr";
    assert "builtins." + id == "builtins" + "." + id;
    assert id != "__builtins__" by { WatchedNames(id); }
  }

  lemma WatchedNames(id: string)
    requires id in {"__import__", "compile", "eval", "exec", "globals", "locals", "open", "vars"}
    ensures id != "__builtins__"
  {
  }

  lemma NotABuiltin(id: string)
    requires id == "getattr"
    ensures Unbound(id) == id
  {
  }

  /** Any other name that nobody bound stands for itself. */
  lemma {:induction false} OtherNamesStand(id: string, aliases: AliasMap)
    requires id !in aliases && id != "__builtins__"
    requires id !in {"__import__", "compile", "eval", "exec", "globals", "locals", "open", "vars"}
    ensures QualifiedName(Name(id), aliases) == Some(id)
  {
  }

  /** What cannot be named: calls other than of `getattr` with a constant name, items without
      a constant key, and everything under them. */
  lemma {:induction false} OtherCallsAreNameless(func: Expr, args: seq<Expr>, aliases: AliasMap)
    requires |args| < 2 || !args[1].Text? ||
             (QualifiedName(func, aliases).Some? ==> !IsGetter(QualifiedName(func, aliases).value))
    ensures QualifiedName(Call(func, args), aliases) == None
    ensures forall attr :: QualifiedName(Attribute(Call(func, args), attr), aliases) == None
    ensures forall owner :: QualifiedName(Subscript(owner, None), aliases) == None
  {
  }
}
