/**
 The TypeScript type printer, as text: a schema tree is rendered without parentheses,
 and the text is read back with `&` binding tighter than `|` and brackets respected.
 */
module TypePrinter {

  /** The tree the printer walks, one constructor per way it renders: a single word (a
      reference, a literal, a primitive, `unknown`, `never`), alternatives (`anyOf`,
      `oneOf`, an enumeration, a list of types), `allOf`, an array, an object, and a
      combinator without any item. */
  datatype Schema =
    | Word(text: string)
    | AnyOf(items: Items)
    | AllOf(items: Items)
    | ArrayOf(item: Schema)
    | Object(properties: Properties)
    | NoItem(all: bool)

  datatype Items = One(first: Schema) | More(first: Schema, rest: Items)

  /** The lines of an object; `Index` is the schema of its additional properties. */
  datatype Properties =
    | NoProperty
    | Property(name: string, optional: bool, schema: Schema, rest: Properties)
    | Index(schema: Schema)

  datatype Token =
    | TWord(text: string) | Bar | Amp | OpenArray | CloseArray
    | OpenBrace | CloseBrace | Label(name: string, optional: bool) | IndexLabel | Semi

  const EMPTY_OBJECT := "Record<string, never>"

  function Print(s: Schema): seq<Token> {
    match s
    case Word(text) => [TWord(text)]
    case AnyOf(items) => Join(items, Bar)
    case AllOf(items) => Join(items, Amp)
    case ArrayOf(item) => [OpenArray] + Print(item) + [CloseArray]
    case Object(properties) =>
      if properties.NoProperty? then [TWord(EMPTY_OBJECT)] else [OpenBrace] + Lines(properties) + [CloseBrace]
    case NoItem(_) => []
  }

  function Join(items: Items, separator: Token): seq<Token> {
    match items
    case One(first) => Print(first)
    case More(first, rest) => Print(first) + [separator] + Join(rest, separator)
  }

  function Lines(properties: Properties): seq<Token> {
    match properties
    case NoProperty => []
    case Property(name, optional, schema, rest) => [Label(name, optional)] + Print(schema) + [Semi] + Lines(rest)
    case Index(schema) => [IndexLabel] + Print(schema) + [Semi]
  }

  // ---- reading the text ----

  datatype Type =
    | Atom(text: string)
    | Union(left: Type, right: Type)
    | Inter(left: Type, right: Type)
    | List(item: Type)
    | Record(members: Members)

  datatype Members =
    | NoMember
    | Member(name: string, optional: bool, typ: Type, rest: Members)
    | IndexMember(typ: Type, rest: Members)

  datatype Parsed<T> = Got(value: T, rest: seq<Token>) | Stuck

  predicate Starts(ts: seq<Token>, t: Token) { |ts| > 0 && ts[0] == t }

  function ReadUnion(ts: seq<Token>): (r: Parsed<Type>)
    ensures r.Got? ==> |r.rest| < |ts|
    decreases |ts|, 3
  {
    var first := ReadInter(ts);
    if first.Got? && Starts(first.rest, Bar) then
      var others := ReadUnion(first.rest[1..]);
      if others.Got? then Got(Union(first.value, others.value), others.rest) else Stuck
    else first
  }

  function ReadInter(ts: seq<Token>): (r: Parsed<Type>)
    ensures r.Got? ==> |r.rest| < |ts|
    decreases |ts|, 2
  {
    var first := ReadPrimary(ts);
    if first.Got? && Starts(first.rest, Amp) then
      var others := ReadInter(first.rest[1..]);
      if others.Got? then Got(Inter(first.value, others.value), others.rest) else Stuck
    else first
  }

  function ReadPrimary(ts: seq<Token>): (r: Parsed<Type>)
    ensures r.Got? ==> |r.rest| < |ts|
    decreases |ts|, 1
  {
    if ts == [] then Stuck
    else match ts[0]
      case TWord(text) => Got(Atom(text), ts[1..])
      case OpenArray =>
        var item := ReadUnion(ts[1..]);
        if item.Got? && Starts(item.rest, CloseArray) then Got(List(item.value), item.rest[1..]) else Stuck
      case OpenBrace =>
        var members := ReadMembers(ts[1..]);
        if members.Got? then Got(Record(members.value), members.rest) else Stuck
      case _ => Stuck
  }

  /** Members up to and including the closing brace. */
  function ReadMembers(ts: seq<Token>): (r: Parsed<Members>)
    ensures r.Got? ==> |r.rest| < |ts|
    decreases |ts|, 0
  {
    if ts == [] then Stuck
    else match ts[0]
      case CloseBrace => Got(NoMember, ts[1..])
      case Label(name, optional) =>
        var typ := ReadUnion(ts[1..]);
        if typ.Got? && Starts(typ.rest, Semi) then
          var rest := ReadMembers(typ.rest[1..]);
          if rest.Got? then Got(Member(name, optional, typ.value, rest.value), rest.rest) else Stuck
        else Stuck
      case IndexLabel =>
        var typ := ReadUnion(ts[1..]);
        if typ.Got? && Starts(typ.rest, Semi) then
          var rest := ReadMembers(typ.rest[1..]);
          if rest.Got? then Got(IndexMember(typ.value, rest.value), rest.rest) else Stuck
        else Stuck
      case _ => Stuck
  }

  // ---- the type a tree stands for, with nested alternatives written out in a row ----

  function OrElse(a: Type, b: Type): Type {
    if a.Union? then Union(a.left, OrElse(a.right, b)) else Union(a, b)
  }

  function AndAlso(a: Type, b: Type): Type {
    if a.Inter? then Inter(a.left, AndAlso(a.right, b)) else Inter(a, b)
  }

  function TypeOf(s: Schema): Type {
    match s
    case Word(text) => Atom(text)
    case AnyOf(items) => AnyOfType(items)
    case AllOf(items) => AllOfType(items)
    case ArrayOf(item) => List(TypeOf(item))
    case Object(properties) => if properties.NoProperty? then Atom(EMPTY_OBJECT) else Record(MembersOf(properties))
    case NoItem(all) => Atom(if all then "unknown" else "never")
  }

  function AnyOfType(items: Items): Type {
    match items
    case One(first) => TypeOf(first)
    case More(first, rest) => OrElse(TypeOf(first), AnyOfType(rest))
  }

  function AllOfType(items: Items): Type {
    match items
    case One(first) => TypeOf(first)
    case More(first, rest) => AndAlso(TypeOf(first), AllOfType(rest))
  }

  function MembersOf(properties: Properties): Members {
    match properties
    case NoProperty => NoMember
    case Property(name, optional, schema, rest) => Member(name, optional, TypeOf(schema), MembersOf(rest))
    case Index(schema) => IndexMember(TypeOf(schema), NoMember)
  }

  // ---- the condition ----

  /** Everywhere in the tree, an `allOf` of two or more has no item that renders as a union. */
  predicate Faithful(s: Schema) {
    match s
    case Word(_) => true
    case AnyOf(items) => FaithfulItems(items)
    case AllOf(items) => FaithfulItems(items) && (items.More? ==> NoUnionIn(items))
    case ArrayOf(item) => Faithful(item)
    case Object(properties) => FaithfulProperties(properties)
    case NoItem(_) => true
  }

  predicate FaithfulItems(items: Items) {
    Faithful(items.first) && (items.More? ==> FaithfulItems(items.rest))
  }

  predicate FaithfulProperties(properties: Properties) {
    match properties
    case NoProperty => true
    case Property(_, _, schema, rest) => Faithful(schema) && FaithfulProperties(rest)
    case Index(schema) => Faithful(schema)
  }

  /** No combinator of the tree is without items. */
  predicate Whole(s: Schema) {
    match s
    case Word(_) => true
    case AnyOf(items) => WholeItems(items)
    case AllOf(items) => WholeItems(items)
    case ArrayOf(item) => Whole(item)
    case Object(properties) => WholeProperties(properties)
    case NoItem(_) => false
  }

  predicate WholeItems(items: Items) { Whole(items.first) && (items.More? ==> WholeItems(items.rest)) }

  predicate WholeProperties(properties: Properties) {
    match properties
    case NoProperty => true
    case Property(_, _, schema, rest) => Whole(schema) && WholeProperties(rest)
    case Index(schema) => Whole(schema)
  }

  predicate RendersUnion(s: Schema) {
    match s
    case AnyOf(items) => items.More? || RendersUnion(items.first)
    case AllOf(items) => items.One? && RendersUnion(items.first)
    case _ => false
  }

  predicate NoUnionIn(items: Items) {
    !RendersUnion(items.first) && (items.More? ==> NoUnionIn(items.rest))
  }

  lemma {:induction false} UnionTypes(s: Schema)
    ensures TypeOf(s).Union? <==> RendersUnion(s)
  {
    match s
    case AnyOf(items) => if items.One? { UnionTypes(items.first); }
    case AllOf(items) => if items.One? { UnionTypes(items.first); }
    case _ =>
  }

  // ---- what the text reads as, for every tree ----

  /** Two texts joined by `&`: the last alternative of the first meets the first of the second. */
  function Glue(a: Type, b: Type): Type {
    if a.Union? then Union(a.left, Glue(a.right, b))
    else if b.Union? then Union(AndAlso(a, b.left), b.right)
    else AndAlso(a, b)
  }

  function Reading(s: Schema): Type {
    match s
    case Word(text) => Atom(text)
    case AnyOf(items) => AnyOfReading(items)
    case AllOf(items) => AllOfReading(items)
    case ArrayOf(item) => List(Reading(item))
    case Object(properties) => if properties.NoProperty? then Atom(EMPTY_OBJECT) else Record(MembersReading(properties))
    case NoItem(all) => Atom(if all then "unknown" else "never")
  }

  function AnyOfReading(items: Items): Type {
    match items
    case One(first) => Reading(first)
    case More(first, rest) => OrElse(Reading(first), AnyOfReading(rest))
  }

  function AllOfReading(items: Items): Type {
    match items
    case One(first) => Reading(first)
    case More(first, rest) => Glue(Reading(first), AllOfReading(rest))
  }

  function MembersReading(properties: Properties): Members {
    match properties
    case NoProperty => NoMember
    case Property(name, optional, schema, rest) => Member(name, optional, Reading(schema), MembersReading(rest))
    case Index(schema) => IndexMember(Reading(schema), NoMember)
  }

  lemma {:induction false} OrElseAssociates(a: Type, b: Type, c: Type)
    ensures OrElse(OrElse(a, b), c) == OrElse(a, OrElse(b, c))
  {
    if a.Union? { OrElseAssociates(a.right, b, c); }
  }

  lemma {:induction false} AndAlsoAssociates(a: Type, b: Type, c: Type)
    ensures AndAlso(AndAlso(a, b), c) == AndAlso(a, AndAlso(b, c))
  {
    if a.Inter? { AndAlsoAssociates(a.right, b, c); }
  }

  lemma {:induction false} GlueAssociates(a: Type, b: Type, c: Type)
    ensures Glue(Glue(a, b), c) == Glue(a, Glue(b, c))
  {
    if a.Union? {
      GlueAssociates(a.right, b, c);
    } else if !b.Union? {
      AndAlsoAssociates(a, b, if c.Union? then c.left else c);
    }
  }

  lemma {:induction false} GlueThenOr(a: Type, b: Type, c: Type)
    ensures OrElse(Glue(a, b), c) == Glue(a, OrElse(b, c))
  {
    if a.Union? { GlueThenOr(a.right, b, c); }
  }

  lemma {:induction false} OrThenGlue(a: Type, b: Type, c: Type)
    ensures Glue(OrElse(a, b), c) == OrElse(a, Glue(b, c))
  {
    if a.Union? { OrThenGlue(a.right, b, c); }
  }

  /** What reading gives when a type is followed by more text. */
  function Then(t: Type, rest: seq<Token>): Parsed<Type> {
    if Starts(rest, Bar) || Starts(rest, Amp) then
      var others := ReadUnion(rest[1..]);
      if others.Stuck? then Stuck
      else Got(if rest[0] == Bar then OrElse(t, others.value) else Glue(t, others.value), others.rest)
    else Got(t, rest)
  }

  lemma FactorsAreNoUnion(ts: seq<Token>)
    ensures ReadPrimary(ts).Got? ==> !ReadPrimary(ts).value.Union? && !ReadPrimary(ts).value.Inter?
    ensures ReadInter(ts).Got? ==> !ReadInter(ts).value.Union?
  {
  }

  lemma {:induction false} PrimaryThen(ts: seq<Token>, t: Type, rest: seq<Token>)
    requires ReadPrimary(ts + rest) == Got(t, rest)
    ensures ReadUnion(ts + rest) == Then(t, rest)
  {
    FactorsAreNoUnion(ts + rest);
    if Starts(rest, Amp) {
      FactorsAreNoUnion(rest[1..]);
    }
  }

  lemma {:induction false} ArrayReads(item: Schema, rest: seq<Token>)
    requires ReadUnion(Print(item) + ([CloseArray] + rest)) == Got(Reading(item), [CloseArray] + rest)
    ensures ReadUnion(Print(ArrayOf(item)) + rest) == Then(List(Reading(item)), rest)
  {
    var ts := Print(ArrayOf(item)) + rest;
    assert ts[1..] == Print(item) + ([CloseArray] + rest);
    assert ([CloseArray] + rest)[1..] == rest;
    PrimaryThen(Print(ArrayOf(item)), List(Reading(item)), rest);
  }

  lemma {:induction false} ObjectReads(properties: Properties, rest: seq<Token>)
    requires ReadMembers(Lines(properties) + ([CloseBrace] + rest)) == Got(MembersReading(properties), rest)
    ensures ReadUnion(Print(Object(properties)) + rest) == Then(Reading(Object(properties)), rest)
  {
    var s := Object(properties);
    var ts := Print(s) + rest;
    if properties.NoProperty? {
      assert ts[1..] == rest;
    } else {
      assert ts[1..] == Lines(properties) + ([CloseBrace] + rest);
    }
    PrimaryThen(Print(s), Reading(s), rest);
  }

  /** Every printed tree without empty combinators, faithful or not, reads as `Reading` says,
      whatever follows it. */
  lemma {:induction false} PrintedReads(s: Schema, rest: seq<Token>)
    requires Whole(s)
    ensures ReadUnion(Print(s) + rest) == Then(Reading(s), rest)
    decreases s, 1
  {
    match s
    case Word(text) =>
      assert ([TWord(text)] + rest)[1..] == rest;
      PrimaryThen(Print(s), Reading(s), rest);
    case AnyOf(items) => AlternativesRead(items, rest);
    case AllOf(items) => FactorsRead(items, rest);
    case ArrayOf(item) =>
      PrintedReads(item, [CloseArray] + rest);
      ArrayReads(item, rest);
    case Object(properties) =>
      MembersRead(properties, rest);
      ObjectReads(properties, rest);
  }

  lemma {:induction false} AlternativesRead(items: Items, rest: seq<Token>)
    requires WholeItems(items)
    ensures ReadUnion(Join(items, Bar) + rest) == Then(AnyOfReading(items), rest)
    decreases items, 0
  {
    if items.One? {
      PrintedReads(items.first, rest);
    } else {
      var tail := [Bar] + Join(items.rest, Bar) + rest;
      PrintedReads(items.first, tail);
      AlternativesRead(items.rest, rest);
      assert Join(items, Bar) + rest == Print(items.first) + tail;
      assert tail[1..] == Join(items.rest, Bar) + rest;
      if (Starts(rest, Bar) || Starts(rest, Amp)) && ReadUnion(rest[1..]).Got? {
        var others := ReadUnion(rest[1..]).value;
        OrElseAssociates(Reading(items.first), AnyOfReading(items.rest), others);
        OrThenGlue(Reading(items.first), AnyOfReading(items.rest), others);
      }
    }
  }

  lemma {:induction false} FactorsRead(items: Items, rest: seq<Token>)
    requires WholeItems(items)
    ensures ReadUnion(Join(items, Amp) + rest) == Then(AllOfReading(items), rest)
    decreases items, 0
  {
    if items.One? {
      PrintedReads(items.first, rest);
    } else {
      var tail := [Amp] + Join(items.rest, Amp) + rest;
      PrintedReads(items.first, tail);
      FactorsRead(items.rest, rest);
      assert Join(items, Amp) + rest == Print(items.first) + tail;
      assert tail[1..] == Join(items.rest, Amp) + rest;
      if (Starts(rest, Bar) || Starts(rest, Amp)) && ReadUnion(rest[1..]).Got? {
        var others := ReadUnion(rest[1..]).value;
        GlueAssociates(Reading(items.first), AllOfReading(items.rest), others);
        GlueThenOr(Reading(items.first), AllOfReading(items.rest), others);
      }
    }
  }

  lemma {:induction false} MembersRead(properties: Properties, rest: seq<Token>)
    requires WholeProperties(properties)
    ensures ReadMembers(Lines(properties) + ([CloseBrace] + rest)) == Got(MembersReading(properties), rest)
    decreases properties, 0
  {
    var close := [CloseBrace] + rest;
    LinesThen(properties, close);
    assert close[1..] == rest;
    if properties.Index? {
      PrintedReads(properties.schema, [Semi] + close);
      LineReads(IndexLabel, properties.schema, close);
    } else if properties.Property? {
      PrintedReads(properties.schema, [Semi] + (Lines(properties.rest) + close));
      MembersRead(properties.rest, rest);
      LineReads(Label(properties.name, properties.optional), properties.schema, Lines(properties.rest) + close);
    }
  }

  /** The first line of an object and the text after it. */
  lemma {:induction false} LinesThen(properties: Properties, close: seq<Token>)
    ensures Lines(properties) + close ==
            match properties
            case NoProperty => close
            case Property(name, optional, schema, rest) =>
              [Label(name, optional)] + (Print(schema) + ([Semi] + (Lines(rest) + close)))
            case Index(schema) => [IndexLabel] + (Print(schema) + ([Semi] + close))
  {
  }

  /** One line of an object and what reading makes of the lines after it. */
  lemma {:induction false} LineReads(head: Token, schema: Schema, after: seq<Token>)
    requires head.Label? || head.IndexLabel?
    requires ReadUnion(Print(schema) + ([Semi] + after)) == Got(Reading(schema), [Semi] + after)
    requires ReadMembers(after).Got?
    ensures var rest := ReadMembers(after);
            ReadMembers([head] + (Print(schema) + ([Semi] + after))) ==
            Got(if head.Label? then Member(head.name, head.optional, Reading(schema), rest.value)
                else IndexMember(Reading(schema), rest.value), rest.rest)
  {
    var ts := [head] + (Print(schema) + ([Semi] + after));
    assert ts[1..] == Print(schema) + ([Semi] + after);
    assert ([Semi] + after)[1..] == after;
  }

  // ---- an empty combinator leaves a hole in the text ----

  /** The text goes on with something other than an operand, or not at all. */
  predicate NoOperand(ts: seq<Token>) { ts == [] || !(ts[0].TWord? || ts[0].OpenArray? || ts[0].OpenBrace?) }

  /** Wherever a combinator is empty, reading gets stuck at the hole it leaves. */
  lemma {:induction false} HolesStick(s: Schema, rest: seq<Token>)
    requires !Whole(s) && NoOperand(rest)
    ensures ReadUnion(Print(s) + rest).Stuck?
    decreases s, 1
  {
    match s
    case NoItem(_) =>
      assert Print(s) + rest == rest;
      NoPrimary(rest);
    case AnyOf(items) => HoleAmong(items, Bar, rest);
    case AllOf(items) => HoleAmong(items, Amp, rest);
    case ArrayOf(item) =>
      HolesStick(item, [CloseArray] + rest);
      ArraySticks(item, rest);
    case Object(properties) =>
      HoleInMembers(properties, [CloseBrace] + rest);
      ObjectSticks(properties, rest);
  }

  lemma {:induction false} ArraySticks(item: Schema, rest: seq<Token>)
    requires ReadUnion(Print(item) + ([CloseArray] + rest)).Stuck?
    ensures ReadUnion(Print(ArrayOf(item)) + rest).Stuck?
  {
    var ts := Print(ArrayOf(item)) + rest;
    assert ts[1..] == Print(item) + ([CloseArray] + rest);
    NoPrimary(ts);
  }

  lemma {:induction false} ObjectSticks(properties: Properties, rest: seq<Token>)
    requires !WholeProperties(properties) && ReadMembers(Lines(properties) + ([CloseBrace] + rest)).Stuck?
    ensures ReadUnion(Print(Object(properties)) + rest).Stuck?
  {
    var ts := Print(Object(properties)) + rest;
    assert ts[1..] == Lines(properties) + ([CloseBrace] + rest);
    NoPrimary(ts);
  }

  lemma NoPrimary(ts: seq<Token>)
    requires ReadPrimary(ts).Stuck?
    ensures ReadUnion(ts).Stuck?
  {
  }

  lemma {:induction false} HoleAmong(items: Items, separator: Token, rest: seq<Token>)
    requires !WholeItems(items) && NoOperand(rest) && (separator == Bar || separator == Amp)
    ensures ReadUnion(Join(items, separator) + rest).Stuck?
    decreases items, 0
  {
    if items.One? {
      HolesStick(items.first, rest);
    } else {
      var tail := [separator] + Join(items.rest, separator) + rest;
      assert Join(items, separator) + rest == Print(items.first) + tail;
      if Whole(items.first) {
        PrintedReads(items.first, tail);
        HoleAmong(items.rest, separator, rest);
        assert tail[1..] == Join(items.rest, separator) + rest;
      } else {
        HolesStick(items.first, tail);
      }
    }
  }

  lemma {:induction false} HoleInMembers(properties: Properties, rest: seq<Token>)
    requires !WholeProperties(properties)
    ensures ReadMembers(Lines(properties) + rest).Stuck?
    decreases properties, 0
  {
    var ts := Lines(properties) + rest;
    LinesThen(properties, rest);
    if properties.Index? {
      HolesStick(properties.schema, [Semi] + rest);
      assert ts[1..] == Print(properties.schema) + ([Semi] + rest);
    } else {
      var after := Lines(properties.rest) + rest;
      if Whole(properties.schema) {
        PrintedReads(properties.schema, [Semi] + after);
        HoleInMembers(properties.rest, rest);
        assert ([Semi] + after)[1..] == after;
      } else {
        HolesStick(properties.schema, [Semi] + after);
      }
      assert ts[1..] == Print(properties.schema) + ([Semi] + after);
    }
  }

  // ---- a faithful tree reads as its type ----

  lemma {:induction false} FaithfulReading(s: Schema)
    requires Faithful(s)
    ensures Reading(s) == TypeOf(s)
    decreases s, 1
  {
    match s
    case Word(_) =>
    case AnyOf(items) => FaithfulAlternatives(items);
    case AllOf(items) =>
      if items.One? { FaithfulReading(items.first); } else { FaithfulFactors(items); }
    case ArrayOf(item) => FaithfulReading(item);
    case Object(properties) => FaithfulMembers(properties);
    case NoItem(_) =>
  }

  lemma {:induction false} FaithfulAlternatives(items: Items)
    requires FaithfulItems(items)
    ensures AnyOfReading(items) == AnyOfType(items)
    decreases items, 0
  {
    FaithfulReading(items.first);
    if items.More? { FaithfulAlternatives(items.rest); }
  }

  lemma {:induction false} FaithfulFactors(items: Items)
    requires FaithfulItems(items) && NoUnionIn(items)
    ensures AllOfReading(items) == AllOfType(items) && !AllOfType(items).Union?
    decreases items, 0
  {
    FaithfulReading(items.first);
    UnionTypes(items.first);
    if items.More? { FaithfulFactors(items.rest); }
  }

  lemma {:induction false} FaithfulMembers(properties: Properties)
    requires FaithfulProperties(properties)
    ensures MembersReading(properties) == MembersOf(properties)
    decreases properties, 0
  {
    if !properties.NoProperty? { FaithfulReading(properties.schema); }
    if properties.Property? { FaithfulMembers(properties.rest); }
  }

  // ---- and no other tree does ----

  /** The alternatives, and the factors, that a type has in a row. */
  function Width(t: Type): nat { if t.Union? then 1 + Width(t.right) else 1 }
  function Depth(t: Type): nat { if t.Inter? then 1 + Depth(t.right) else 1 }

  lemma {:induction false} WidthOfOr(a: Type, b: Type)
    ensures Width(OrElse(a, b)) == Width(a) + Width(b)
  {
    if a.Union? { WidthOfOr(a.right, b); }
  }

  lemma {:induction false} WidthOfGlue(a: Type, b: Type)
    ensures Width(Glue(a, b)) == Width(a) + Width(b) - 1
  {
    if a.Union? { WidthOfGlue(a.right, b); }
  }

  lemma {:induction false} DepthOfAnd(a: Type, b: Type)
    ensures Depth(AndAlso(a, b)) == Depth(a) + Depth(b)
  {
    if a.Inter? { DepthOfAnd(a.right, b); }
  }

  lemma {:induction false} OrCancels(a: Type, b: Type, c: Type, d: Type)
    requires OrElse(a, b) == OrElse(c, d) && Width(a) == Width(c)
    ensures a == c && b == d
  {
    if a.Union? { OrCancels(a.right, b, c.right, d); }
  }

  lemma {:induction false} AndCancels(a: Type, b: Type, c: Type, d: Type)
    requires AndAlso(a, b) == AndAlso(c, d) && Depth(a) == Depth(c)
    ensures a == c && b == d
  {
    if a.Inter? { AndCancels(a.right, b, c.right, d); }
  }

  /** Reading never has fewer alternatives than the tree, and without alternatives it has as many factors. */
  lemma {:induction false} Measures(s: Schema)
    ensures Width(TypeOf(s)) <= Width(Reading(s))
    ensures Width(Reading(s)) == 1 ==> Depth(TypeOf(s)) == Depth(Reading(s))
    decreases s, 1
  {
    match s
    case AnyOf(items) => MeasureAlternatives(items);
    case AllOf(items) => MeasureFactors(items);
    case _ =>
  }

  lemma {:induction false} MeasureAlternatives(items: Items)
    ensures Width(AnyOfType(items)) <= Width(AnyOfReading(items))
    ensures Width(AnyOfReading(items)) == 1 ==> Depth(AnyOfType(items)) == Depth(AnyOfReading(items))
    decreases items, 0
  {
    Measures(items.first);
    if items.More? {
      MeasureAlternatives(items.rest);
      WidthOfOr(TypeOf(items.first), AnyOfType(items.rest));
      WidthOfOr(Reading(items.first), AnyOfReading(items.rest));
    }
  }

  lemma {:induction false} MeasureFactors(items: Items)
    ensures Width(AllOfType(items)) <= Width(AllOfReading(items))
    ensures Width(AllOfReading(items)) == 1 ==>
        Depth(AllOfType(items)) == Depth(AllOfReading(items)) && NoUnionIn(items)
    decreases items, 0
  {
    Measures(items.first);
    UnionTypes(items.first);
    if items.More? {
      MeasureFactors(items.rest);
      WidthOfGlue(Reading(items.first), AllOfReading(items.rest));
      DepthOfAnd(TypeOf(items.first), AllOfType(items.rest));
      DepthOfAnd(Reading(items.first), AllOfReading(items.rest));
    }
  }

  lemma {:induction false} ReadingIsFaithful(s: Schema)
    requires Reading(s) == TypeOf(s)
    ensures Faithful(s)
    decreases s, 1
  {
    match s
    case Word(_) =>
    case AnyOf(items) => AlternativesAreFaithful(items);
    case AllOf(items) =>
      if items.One? { ReadingIsFaithful(items.first); } else { FactorsAreFaithful(items); }
    case ArrayOf(item) => ReadingIsFaithful(item);
    case Object(properties) => MembersAreFaithful(properties);
    case NoItem(_) =>
  }

  lemma {:induction false} AlternativesAreFaithful(items: Items)
    requires AnyOfReading(items) == AnyOfType(items)
    ensures FaithfulItems(items)
    decreases items, 0
  {
    if items.More? {
      Measures(items.first);
      MeasureAlternatives(items.rest);
      WidthOfOr(TypeOf(items.first), AnyOfType(items.rest));
      WidthOfOr(Reading(items.first), AnyOfReading(items.rest));
      OrCancels(Reading(items.first), AnyOfReading(items.rest), TypeOf(items.first), AnyOfType(items.rest));
      AlternativesAreFaithful(items.rest);
    }
    ReadingIsFaithful(items.first);
  }

  lemma {:induction false} FactorsAreFaithful(items: Items)
    requires AllOfReading(items) == AllOfType(items) && Width(AllOfReading(items)) == 1
    ensures FaithfulItems(items) && NoUnionIn(items)
    decreases items, 0
  {
    MeasureFactors(items);
    if items.More? {
      Measures(items.first);
      MeasureFactors(items.rest);
      WidthOfGlue(Reading(items.first), AllOfReading(items.rest));
      AndCancels(Reading(items.first), AllOfReading(items.rest), TypeOf(items.first), AllOfType(items.rest));
      FactorsAreFaithful(items.rest);
    }
    ReadingIsFaithful(items.first);
  }

  lemma {:induction false} MembersAreFaithful(properties: Properties)
    requires MembersReading(properties) == MembersOf(properties)
    ensures FaithfulProperties(properties)
    decreases properties, 0
  {
    if !properties.NoProperty? { ReadingIsFaithful(properties.schema); }
    if properties.Property? { MembersAreFaithful(properties.rest); }
  }

  /** The printed text reads back as the type of its tree exactly when the tree has no empty
      combinator and is faithful. */
  lemma {:induction false} RoundTripIff(s: Schema)
    ensures ReadUnion(Print(s)) == Got(TypeOf(s), []) <==> Whole(s) && Faithful(s)
  {
    assert Print(s) + [] == Print(s);
    if Whole(s) {
      PrintedReads(s, []);
      if Faithful(s) { FaithfulReading(s); }
      if Reading(s) == TypeOf(s) { ReadingIsFaithful(s); }
    } else {
      HolesStick(s, []);
    }
  }

  // ---- the meaning of types ----

  datatype Value = Scalar(code: nat) | Elements(items: seq<Value>) | Fields(fields: map<string, Value>)

  /** Membership, for any meaning of the words. */
  predicate Has(t: Type, v: Value, word: (string, Value) -> bool) {
    match t
    case Atom(text) => word(text, v)
    case Union(left, right) => Has(left, v, word) || Has(right, v, word)
    case Inter(left, right) => Has(left, v, word) && Has(right, v, word)
    case List(item) => v.Elements? && forall i :: 0 <= i < |v.items| ==> Has(item, v.items[i], word)
    case Record(members) => v.Fields? && HasMembers(members, v.fields, word)
  }

  /** An index signature constrains every field, also those that are named. */
  predicate HasMembers(members: Members, fields: map<string, Value>, word: (string, Value) -> bool) {
    match members
    case NoMember => true
    case Member(name, optional, typ, rest) =>
      (if name in fields then Has(typ, fields[name], word) else optional) && HasMembers(rest, fields, word)
    case IndexMember(typ, rest) =>
      (forall k :: k in fields ==> Has(typ, fields[k], word)) && HasMembers(rest, fields, word)
  }

  /** What a schema accepts: `anyOf` some item, `allOf` every item. Additional properties are
      those without a name of their own; a `strict` reading checks them on every field. */
  predicate Accepts(s: Schema, v: Value, word: (string, Value) -> bool, strict: bool) {
    match s
    case Word(text) => word(text, v)
    case AnyOf(items) => SomeAccepts(items, v, word, strict)
    case AllOf(items) => AllAccept(items, v, word, strict)
    case ArrayOf(item) => v.Elements? && forall i :: 0 <= i < |v.items| ==> Accepts(item, v.items[i], word, strict)
    case Object(properties) =>
      if properties.NoProperty? then word(EMPTY_OBJECT, v)
      else v.Fields? && AcceptsFields(properties, v.fields, Names(properties), word, strict)
    case NoItem(all) => all
  }

  predicate SomeAccepts(items: Items, v: Value, word: (string, Value) -> bool, strict: bool) {
    Accepts(items.first, v, word, strict) || (items.More? && SomeAccepts(items.rest, v, word, strict))
  }

  predicate AllAccept(items: Items, v: Value, word: (string, Value) -> bool, strict: bool) {
    Accepts(items.first, v, word, strict) && (items.More? ==> AllAccept(items.rest, v, word, strict))
  }

  function Names(properties: Properties): set<string> {
    if properties.Property? then {properties.name} + Names(properties.rest) else {}
  }

  predicate AcceptsFields(
    properties: Properties, fields: map<string, Value>, named: set<string>, word: (string, Value) -> bool, strict: bool)
  {
    match properties
    case NoProperty => true
    case Property(name, optional, schema, rest) =>
      && (if name in fields then Accepts(schema, fields[name], word, strict) else optional)
      && AcceptsFields(rest, fields, named, word, strict)
    case Index(schema) =>
      forall k :: k in fields && (strict || k !in named) ==> Accepts(schema, fields[k], word, strict)
  }

  /** All fields outside some names are accepted by the schema of the additional properties. */
  predicate AllBut(
    schema: Schema, fields: map<string, Value>, but: set<string>, word: (string, Value) -> bool, strict: bool)
  {
    forall k :: k in fields && k !in but ==> Accepts(schema, fields[k], word, strict)
  }

  /** Every object with an index signature has no named property beside it. */
  predicate IndexAlone(s: Schema) {
    match s
    case Word(_) => true
    case AnyOf(items) => IndexAloneItems(items)
    case AllOf(items) => IndexAloneItems(items)
    case ArrayOf(item) => IndexAlone(item)
    case Object(properties) =>
      if properties.Index? then IndexAlone(properties.schema) else NoIndex(properties)
    case NoItem(_) => true
  }

  predicate IndexAloneItems(items: Items) {
    IndexAlone(items.first) && (items.More? ==> IndexAloneItems(items.rest))
  }

  predicate NoIndex(properties: Properties) {
    match properties
    case NoProperty => true
    case Property(_, _, schema, rest) => IndexAlone(schema) && NoIndex(rest)
    case Index(_) => false
  }

  lemma {:induction false} HasOr(a: Type, b: Type, v: Value, word: (string, Value) -> bool)
    ensures Has(OrElse(a, b), v, word) <==> Has(a, v, word) || Has(b, v, word)
  {
    if a.Union? { HasOr(a.right, b, v, word); }
  }

  lemma {:induction false} HasAnd(a: Type, b: Type, v: Value, word: (string, Value) -> bool)
    ensures Has(AndAlso(a, b), v, word) <==> Has(a, v, word) && Has(b, v, word)
  {
    if a.Inter? { HasAnd(a.right, b, v, word); }
  }

  /** The type of every tree has exactly the values of the strict reading. */
  lemma {:induction false} TypeMeansStrict(s: Schema, v: Value, word: (string, Value) -> bool)
    requires Whole(s)
    ensures Has(TypeOf(s), v, word) <==> Accepts(s, v, word, true)
    decreases s, 1
  {
    match s
    case Word(_) =>
    case AnyOf(items) => AnyOfMeans(items, v, word);
    case AllOf(items) => AllOfMeans(items, v, word);
    case ArrayOf(item) =>
      if v.Elements? {
        forall i | 0 <= i < |v.items|
          ensures Has(TypeOf(item), v.items[i], word) <==> Accepts(item, v.items[i], word, true)
        {
          TypeMeansStrict(item, v.items[i], word);
        }
      }
    case Object(properties) =>
      if v.Fields? && !properties.NoProperty? { FieldsMean(properties, v.fields, Names(properties), word); }
  }

  lemma {:induction false} AnyOfMeans(items: Items, v: Value, word: (string, Value) -> bool)
    requires WholeItems(items)
    ensures Has(AnyOfType(items), v, word) <==> SomeAccepts(items, v, word, true)
    decreases items, 0
  {
    TypeMeansStrict(items.first, v, word);
    if items.More? {
      AnyOfMeans(items.rest, v, word);
      HasOr(TypeOf(items.first), AnyOfType(items.rest), v, word);
    }
  }

  lemma {:induction false} AllOfMeans(items: Items, v: Value, word: (string, Value) -> bool)
    requires WholeItems(items)
    ensures Has(AllOfType(items), v, word) <==> AllAccept(items, v, word, true)
    decreases items, 0
  {
    TypeMeansStrict(items.first, v, word);
    if items.More? {
      AllOfMeans(items.rest, v, word);
      HasAnd(TypeOf(items.first), AllOfType(items.rest), v, word);
    }
  }

  lemma {:induction false} FieldsMean(
    properties: Properties, fields: map<string, Value>, named: set<string>, word: (string, Value) -> bool)
    requires WholeProperties(properties)
    ensures HasMembers(MembersOf(properties), fields, word) <==> AcceptsFields(properties, fields, named, word, true)
    decreases properties, 0
  {
    if properties.Property? {
      if properties.name in fields { TypeMeansStrict(properties.schema, fields[properties.name], word); }
      FieldsMean(properties.rest, fields, named, word);
    } else if properties.Index? {
      forall k | k in fields
        ensures Has(TypeOf(properties.schema), fields[k], word) <==> Accepts(properties.schema, fields[k], word, true)
      {
        TypeMeansStrict(properties.schema, fields[k], word);
      }
    }
  }

  /** The strict reading accepts nothing more than the schema, and the same where index
      signatures stand alone. */
  lemma {:induction false} StrictAcceptsLess(s: Schema, v: Value, word: (string, Value) -> bool)
    ensures Accepts(s, v, word, true) ==> Accepts(s, v, word, false)
    ensures IndexAlone(s) ==> (Accepts(s, v, word, true) <==> Accepts(s, v, word, false))
    decreases s, 1
  {
    match s
    case Word(_) =>
    case AnyOf(items) => ItemsAcceptLess(items, v, word);
    case AllOf(items) => ItemsAcceptLess(items, v, word);
    case ArrayOf(item) =>
      if v.Elements? {
        forall i | 0 <= i < |v.items|
          ensures Accepts(item, v.items[i], word, true) ==> Accepts(item, v.items[i], word, false)
          ensures IndexAlone(item) ==>
                    (Accepts(item, v.items[i], word, true) <==> Accepts(item, v.items[i], word, false))
        {
          StrictAcceptsLess(item, v.items[i], word);
        }
      }
    case Object(properties) =>
      if v.Fields? { FieldsAcceptLess(properties, v.fields, Names(properties), word); }
    case NoItem(_) =>
  }

  lemma {:induction false} ItemsAcceptLess(items: Items, v: Value, word: (string, Value) -> bool)
    ensures SomeAccepts(items, v, word, true) ==> SomeAccepts(items, v, word, false)
    ensures AllAccept(items, v, word, true) ==> AllAccept(items, v, word, false)
    ensures IndexAloneItems(items) ==>
              && (SomeAccepts(items, v, word, true) <==> SomeAccepts(items, v, word, false))
              && (AllAccept(items, v, word, true) <==> AllAccept(items, v, word, false))
    decreases items, 0
  {
    StrictAcceptsLess(items.first, v, word);
    if items.More? { ItemsAcceptLess(items.rest, v, word); }
  }

  lemma {:induction false} FieldsAcceptLess(
    properties: Properties, fields: map<string, Value>, named: set<string>, word: (string, Value) -> bool)
    ensures AcceptsFields(properties, fields, named, word, true) ==>
              AcceptsFields(properties, fields, named, word, false)
    ensures NoIndex(properties) || (properties.Index? && named == {} && IndexAlone(properties.schema)) ==>
              (AcceptsFields(properties, fields, named, word, true) <==>
               AcceptsFields(properties, fields, named, word, false))
    decreases properties, 0
  {
    if properties.Property? {
      if properties.name in fields { StrictAcceptsLess(properties.schema, fields[properties.name], word); }
      FieldsAcceptLess(properties.rest, fields, named, word);
    } else if properties.Index? {
      IndexAcceptsLess(properties.schema, fields, word);
    }
  }

  lemma {:induction false} IndexAcceptsLess(
    schema: Schema, fields: map<string, Value>, word: (string, Value) -> bool)
    ensures forall k :: k in fields && Accepts(schema, fields[k], word, true) ==>
              Accepts(schema, fields[k], word, false)
    ensures IndexAlone(schema) ==>
              forall k :: k in fields ==>
                (Accepts(schema, fields[k], word, true) <==> Accepts(schema, fields[k], word, false))
    decreases schema, 2
  {
    forall k | k in fields
      ensures Accepts(schema, fields[k], word, true) ==> Accepts(schema, fields[k], word, false)
      ensures IndexAlone(schema) ==>
                (Accepts(schema, fields[k], word, true) <==> Accepts(schema, fields[k], word, false))
    {
      StrictAcceptsLess(schema, fields[k], word);
    }
  }

  /** No type has a value that the schema refuses, and where index signatures stand alone it
      has exactly the values the schema accepts. */
  lemma {:induction false} TypeMeansSchema(s: Schema, v: Value, word: (string, Value) -> bool)
    requires Whole(s)
    ensures Has(TypeOf(s), v, word) ==> Accepts(s, v, word, false)
    ensures IndexAlone(s) ==> (Has(TypeOf(s), v, word) <==> Accepts(s, v, word, false))
  {
    TypeMeansStrict(s, v, word);
    StrictAcceptsLess(s, v, word);
  }

  /** The printed text of a faithful tree, read back, means the schema read strictly: it has no
      value that the schema refuses, and all it accepts where index signatures stand alone. */
  lemma {:induction false} MeaningPreserved(s: Schema, v: Value, word: (string, Value) -> bool)
    requires Whole(s) && Faithful(s)
    ensures ReadUnion(Print(s)).Got? && ReadUnion(Print(s)).rest == []
    ensures var t := ReadUnion(Print(s)).value;
            && (Has(t, v, word) <==> Accepts(s, v, word, true))
            && (Has(t, v, word) ==> Accepts(s, v, word, false))
            && (IndexAlone(s) ==> (Has(t, v, word) <==> Accepts(s, v, word, false)))
  {
    RoundTripIff(s);
    TypeMeansStrict(s, v, word);
    TypeMeansSchema(s, v, word);
  }

  // ---- an index signature beside named properties ----

  /** Named properties, each sound by itself, with the index signature at the end. */
  predicate Indexed(properties: Properties) {
    match properties
    case NoProperty => false
    case Property(_, _, schema, rest) => Whole(schema) && IndexAlone(schema) && Indexed(rest)
    case Index(schema) => Whole(schema) && IndexAlone(schema)
  }

  function IndexOf(properties: Properties): Schema
    requires Indexed(properties)
  {
    if properties.Index? then properties.schema else IndexOf(properties.rest)
  }

  lemma {:induction false} IndexedIsWhole(properties: Properties)
    requires Indexed(properties)
    ensures WholeProperties(properties)
  {
    if properties.Property? { IndexedIsWhole(properties.rest); }
  }

  lemma {:induction false} IndexedAccepts(
    properties: Properties, fields: map<string, Value>, named: set<string>, word: (string, Value) -> bool)
    requires Indexed(properties)
    ensures AcceptsFields(properties, fields, named, word, true) <==>
            && AcceptsFields(properties, fields, named, word, false)
            && AllBut(IndexOf(properties), fields, {}, word, false)
  {
    if properties.Index? {
      IndexAcceptsLess(properties.schema, fields, word);
    } else {
      if properties.name in fields { StrictAcceptsLess(properties.schema, fields[properties.name], word); }
      IndexedAccepts(properties.rest, fields, named, word);
    }
  }

  /** The type of an object with an index signature has a value exactly when the schema accepts
      it and the schema of the additional properties accepts its named fields as well. */
  lemma {:induction false} IndexNarrows(
      properties: Properties, fields: map<string, Value>, word: (string, Value) -> bool)
    requires Indexed(properties)
    ensures Has(TypeOf(Object(properties)), Fields(fields), word) <==>
            && Accepts(Object(properties), Fields(fields), word, false)
            && forall k :: k in fields && k in Names(properties) ==>
                 Accepts(IndexOf(properties), fields[k], word, false)
  {
    IndexedIsWhole(properties);
    TypeMeansStrict(Object(properties), Fields(fields), word);
    IndexedAccepts(properties, fields, Names(properties), word);
    if AcceptsFields(properties, fields, Names(properties), word, false) {
      IndexIsLast(properties, fields, Names(properties), word);
    }
  }

  lemma {:induction false} IndexIsLast(
    properties: Properties, fields: map<string, Value>, named: set<string>, word: (string, Value) -> bool)
    requires Indexed(properties) && AcceptsFields(properties, fields, named, word, false)
    ensures AllBut(IndexOf(properties), fields, named, word, false)
  {
    if properties.Property? { IndexIsLast(properties.rest, fields, named, word); }
  }

  /** An object that the schema accepts and the printed type refuses: its one field is named
      `n`, and the schema of the additional properties does not accept that field's value. */
  lemma {:induction false} IndexRefusesNamed(v: Value)
    ensures var s := Object(Property("n", false, Word("a"), Index(Word("b"))));
            var word := (text: string, value: Value) => text == "a";
            && Accepts(s, Fields(map["n" := v]), word, false)
            && ReadUnion(Print(s)).Got? && !Has(ReadUnion(Print(s)).value, Fields(map["n" := v]), word)
  {
    var properties := Property("n", false, Word("a"), Index(Word("b")));
    var s, fields := Object(properties), map["n" := v];
    var word := (text: string, value: Value) => text == "a";
    assert "a"[0] != "b"[0];
    assert Accepts(Word("a"), fields["n"], word, false) && !Accepts(Word("b"), fields["n"], word, false);
    assert Names(properties) == {"n"};
    assert AllBut(Word("b"), fields, {"n"}, word, false);
    assert AcceptsFields(Index(Word("b")), fields, {"n"}, word, false);
    assert AcceptsFields(properties, fields, {"n"}, word, false);
    RoundTripIff(s);
    assert IndexOf(properties) == Word("b");
    IndexNarrows(properties, fields, word);
  }

  /** A union under `allOf` changes its meaning: `a & b | c` accepts a value of `c` alone. */
  lemma {:induction false} UnionUnderAllOf(v: Value)
    ensures var s := AllOf(More(Word("a"), One(AnyOf(More(Word("b"), One(Word("c")))))));
            var word := (text: string, value: Value) => text == "c";
            && ReadUnion(Print(s)).Got? && Has(ReadUnion(Print(s)).value, v, word) && !Accepts(s, v, word, false)
  {
    var inner := AnyOf(More(Word("b"), One(Word("c"))));
    var s := AllOf(More(Word("a"), One(inner)));
    PrintedReads(s, []);
    assert Print(s) + [] == Print(s);
    assert Reading(inner) == Union(Atom("b"), Atom("c"));
    assert Reading(s) == Union(Inter(Atom("a"), Atom("b")), Atom("c"));
    assert "a"[0] != "c"[0];
    var word := (text: string, value: Value) => text == "c";
    assert !Accepts(Word("a"), v, word, false);
    assert !AllAccept(More(Word("a"), One(inner)), v, word, false);
    assert Has(Atom("c"), v, word);
  }
}
