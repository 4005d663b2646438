/**
 The translation of a GraphQL `where` argument into Cube filters, and what it does to the meaning:
 fields of an object are a conjunction, and so are the filters of a list.
 */
module GraphqlWhere {
  import opened Wrappers

  // ---- the argument ----

  datatype Value = Flag(b: bool) | Single(text: string) | Many(texts: seq<string>)

  datatype Operation = Operation(operator: string, value: Value)

  /** The where input of a cube, and the one of the root: objects with fields in order. */
  datatype CubeWhere = CubeWhere(fields: seq<CubeField>)

  datatype RootWhere = RootWhere(fields: seq<RootField>)

  /** A field of a cube's where input: AND, OR or the filter of a member. */
  datatype CubeField =
    | Any(elements: seq<CubeWhere>)
    | All(elements: seq<CubeWhere>)
    | Member(name: string, operations: seq<Operation>)

  /** A field of the root where input. */
  datatype RootField =
    | AnyOf(elements: seq<RootWhere>)
    | AllOf(elements: seq<RootWhere>)
    | Cube(name: string, fields: seq<CubeField>)

  // ---- the filters ----

  datatype Values = NoValues | TextValue(text: string) | ListValue(texts: seq<string>)

  datatype Filter =
    | Or(filters: seq<Filter>)
    | And(filters: seq<Filter>)
    | Atom(member: string, operator: string, values: Values)

  function MapWhereOperator(operator: string, value: Value): string {
    match operator
    case "in" => "equals"
    case "notIn" => "notEquals"
    case "set" => if value == Flag(true) then "set" else "notSet"
    case _ => operator
  }

  function TextsOf(value: Value): seq<string> {
    match value
    case Flag(b) => [if b then "true" else "false"]
    case Single(s) => [s]
    case Many(texts) => texts
  }

  predicate IsDigit(c: char) { '0' <= c <= '9' }

  /** The text starts like a date, `dddd-dd-dd`. */
  predicate StartsWithDate(s: string) {
    && |s| >= 10
    && (forall i | i in {0, 1, 2, 3, 5, 6, 8, 9} :: IsDigit(s[i]))
    && s[4] == '-' && s[7] == '-'
  }

  /** The `values` property, which is left out when it would be undefined or an empty text. */
  function MapWhereValue(operator: string, value: Value): Values {
    var texts := TextsOf(value);
    if operator == "set" then NoValues
    else if operator in {"inDateRange", "notInDateRange"} && |texts| == 1 && !StartsWithDate(texts[0]) then
      if texts[0] == "" then NoValues else TextValue(texts[0])
    else ListValue(texts)
  }

  function ToUpper(c: char): char {
    if 'a' <= c <= 'z' then c - ('a' - 'A') else c
  }

  /** A cube of the metadata keeps its name, any other name is capitalized. */
  function NormalizedKey(name: string, cubes: set<string>): string {
    if name in cubes || name == "" then name else [ToUpper(name[0])] + name[1..]
  }

  function OperationFilters(member: string, operations: seq<Operation>): (f: seq<Filter>)
    ensures |f| == |operations|
  {
    seq(|operations|, i requires 0 <= i < |operations| =>
      Atom(member, MapWhereOperator(operations[i].operator, operations[i].value),
           MapWhereValue(operations[i].operator, operations[i].value)))
  }

  /** The filters of a cube's where input under its prefix. */
  function CubeFilters(w: seq<CubeField>, prefix: string): seq<Filter>
    decreases w, 0
  {
    if w == [] then [] else FieldFilters(w[0], prefix) + CubeFilters(w[1..], prefix)
  }

  function FieldFilters(f: CubeField, prefix: string): seq<Filter>
    decreases f, 2
  {
    match f
    case Any(elements) => [Or(ElementFilters(elements, prefix))]
    case All(elements) => [And(ElementFilters(elements, prefix))]
    case Member(name, operations) => OperationFilters(prefix + "." + name, operations)
  }

  /** The elements of a list are flattened: their filters are put one after the other. */
  function ElementFilters(elements: seq<CubeWhere>, prefix: string): seq<Filter>
    decreases elements, 1
  {
    if elements == [] then [] else CubeFilters(elements[0].fields, prefix) + ElementFilters(elements[1..], prefix)
  }

  predicate HasBoolean(fields: seq<CubeField>) {
    exists i :: 0 <= i < |fields| && !fields[i].Member?
  }

  function Singletons(fields: seq<CubeField>): (s: seq<CubeWhere>)
    ensures |s| == |fields|
  {
    seq(|fields|, i requires 0 <= i < |fields| => CubeWhere([fields[i]]))
  }

  /** What a cube's fields are translated as: several fields around a boolean are wrapped into one AND list. */
  function Wrapped(fields: seq<CubeField>): seq<CubeField> {
    if HasBoolean(fields) && |fields| > 1 then [All(Singletons(fields))] else fields
  }

  function RootFilters(w: seq<RootField>, cubes: set<string>): seq<Filter>
    decreases w, 0
  {
    if w == [] then [] else RootFieldFilters(w[0], cubes) + RootFilters(w[1..], cubes)
  }

  function RootFieldFilters(f: RootField, cubes: set<string>): seq<Filter>
    decreases f, 2
  {
    match f
    case AnyOf(elements) => [Or(RootElementFilters(elements, cubes))]
    case AllOf(elements) => [And(RootElementFilters(elements, cubes))]
    case Cube(name, fields) => CubeFilters(Wrapped(fields), NormalizedKey(name, cubes))
  }

  function RootElementFilters(elements: seq<RootWhere>, cubes: set<string>): seq<Filter>
    decreases elements, 1
  {
    if elements == [] then [] else RootFilters(elements[0].fields, cubes) + RootElementFilters(elements[1..], cubes)
  }

  // ---- the translation as the source runs it ----

  lemma {:induction false} CubeFiltersSnoc(w: seq<CubeField>, f: CubeField, prefix: string)
    ensures CubeFilters(w + [f], prefix) == CubeFilters(w, prefix) + FieldFilters(f, prefix)
  {
    if w == [] {
      assert [] + [f] == [f] && [f][1..] == [];
    } else {
      assert (w + [f])[1..] == w[1..] + [f];
      CubeFiltersSnoc(w[1..], f, prefix);
    }
  }

  lemma {:induction false} ElementFiltersSnoc(elements: seq<CubeWhere>, e: CubeWhere, prefix: string)
    ensures ElementFilters(elements + [e], prefix) == ElementFilters(elements, prefix) + CubeFilters(e.fields, prefix)
  {
    if elements == [] {
      assert [] + [e] == [e] && [e][1..] == [];
    } else {
      assert (elements + [e])[1..] == elements[1..] + [e];
      ElementFiltersSnoc(elements[1..], e, prefix);
    }
  }

  method CubeWhereToFilters(w: seq<CubeField>, prefix: string) returns (queryFilters: seq<Filter>)
    ensures queryFilters == CubeFilters(w, prefix)
    decreases w, 0
  {
    queryFilters := [];
    for i := 0 to |w|
      invariant queryFilters == CubeFilters(w[..i], prefix)
    {
      assert w[..i + 1] == w[..i] + [w[i]];
      CubeFiltersSnoc(w[..i], w[i], prefix);
      match w[i] {
        case Any(elements) =>
          var filters := ElementsToFilters(elements, prefix);
          queryFilters := queryFilters + [Or(filters)];
        case All(elements) =>
          var filters := ElementsToFilters(elements, prefix);
          queryFilters := queryFilters + [And(filters)];
        case Member(name, operations) =>
          queryFilters := queryFilters + OperationFilters(prefix + "." + name, operations);
      }
    }
    assert w[..|w|] == w;
  }

  /** The `reduce` over the elements of AND or OR. */
  method ElementsToFilters(elements: seq<CubeWhere>, prefix: string) returns (filters: seq<Filter>)
    ensures filters == ElementFilters(elements, prefix)
    decreases elements, 1
  {
    filters := [];
    for i := 0 to |elements|
      invariant filters == ElementFilters(elements[..i], prefix)
    {
      assert elements[..i + 1] == elements[..i] + [elements[i]];
      ElementFiltersSnoc(elements[..i], elements[i], prefix);
      var more := CubeWhereToFilters(elements[i].fields, prefix);
      filters := filters + more;
    }
    assert elements[..|elements|] == elements;
  }

  lemma {:induction false} RootFiltersSnoc(w: seq<RootField>, f: RootField, cubes: set<string>)
    ensures RootFilters(w + [f], cubes) == RootFilters(w, cubes) + RootFieldFilters(f, cubes)
  {
    if w == [] {
      assert [] + [f] == [f] && [f][1..] == [];
    } else {
      assert (w + [f])[1..] == w[1..] + [f];
      RootFiltersSnoc(w[1..], f, cubes);
    }
  }

  lemma {:induction false} RootElementFiltersSnoc(elements: seq<RootWhere>, e: RootWhere, cubes: set<string>)
    ensures RootElementFilters(elements + [e], cubes) ==
            RootElementFilters(elements, cubes) + RootFilters(e.fields, cubes)
  {
    if elements == [] {
      assert [] + [e] == [e] && [e][1..] == [];
    } else {
      assert (elements + [e])[1..] == elements[1..] + [e];
      RootElementFiltersSnoc(elements[1..], e, cubes);
    }
  }

  method WhereToFilters(w: seq<RootField>, cubes: set<string>) returns (queryFilters: seq<Filter>)
    ensures queryFilters == RootFilters(w, cubes)
    decreases w, 0
  {
    queryFilters := [];
    for i := 0 to |w|
      invariant queryFilters == RootFilters(w[..i], cubes)
    {
      assert w[..i + 1] == w[..i] + [w[i]];
      RootFiltersSnoc(w[..i], w[i], cubes);
      match w[i] {
        case AnyOf(elements) =>
          var filters := RootElementsToFilters(elements, cubes);
          queryFilters := queryFilters + [Or(filters)];
        case AllOf(elements) =>
          var filters := RootElementsToFilters(elements, cubes);
          queryFilters := queryFilters + [And(filters)];
        case Cube(name, fields) =>
          var arg := fields;
          if HasBoolean(fields) && |fields| > 1 {
            arg := [All(Singletons(fields))];
          }
          var res := CubeWhereToFilters(arg, NormalizedKey(name, cubes));
          queryFilters := queryFilters + res;
      }
    }
    assert w[..|w|] == w;
  }

  method RootElementsToFilters(elements: seq<RootWhere>, cubes: set<string>) returns (filters: seq<Filter>)
    ensures filters == RootElementFilters(elements, cubes)
    decreases elements, 1
  {
    filters := [];
    for i := 0 to |elements|
      invariant filters == RootElementFilters(elements[..i], cubes)
    {
      assert elements[..i + 1] == elements[..i] + [elements[i]];
      RootElementFiltersSnoc(elements[..i], elements[i], cubes);
      var more := WhereToFilters(elements[i].fields, cubes);
      filters := filters + more;
    }
    assert elements[..|elements|] == elements;
  }

  // ---- meaning ----

  /** A row: the text of each member, `None` for null, and what the remaining operators say of a value. */
  datatype World = World(row: map<string, Option<string>>, other: (string, Option<string>, seq<string>) -> bool)

  function ValueIn(world: World, member: string): Option<string> {
    if member in world.row then world.row[member] else None
  }

  predicate OneOf(v: Option<string>, texts: seq<string>) {
    v.Some? && v.value in texts
  }

  /** What the argument asks of a member. */
  predicate Asks(world: World, member: string, op: Operation) {
    var v, texts := ValueIn(world, member), TextsOf(op.value);
    match op.operator
    case "equals" => OneOf(v, texts)
    case "in" => OneOf(v, texts)
    case "notEquals" => !OneOf(v, texts)
    case "notIn" => !OneOf(v, texts)
    case "set" => v.Some? == (op.value == Flag(true))
    case name => world.other(name, v, texts)
  }

  function Listed(values: Values): seq<string> {
    match values
    case NoValues => []
    case TextValue(t) => [t]
    case ListValue(texts) => texts
  }

  /** What a filter says of a row. */
  predicate Holds(world: World, f: Filter) {
    match f
    case Or(filters) => exists i :: 0 <= i < |filters| && Holds(world, filters[i])
    case And(filters) => forall i :: 0 <= i < |filters| ==> Holds(world, filters[i])
    case Atom(member, operator, values) =>
      var v := ValueIn(world, member);
      match operator
      case "equals" => OneOf(v, Listed(values))
      case "notEquals" => !OneOf(v, Listed(values))
      case "set" => v.Some?
      case "notSet" => v.None?
      case name => world.other(name, v, Listed(values))
  }

  predicate HoldAll(world: World, filters: seq<Filter>) {
    forall i :: 0 <= i < |filters| ==> Holds(world, filters[i])
  }

  predicate HoldsSome(world: World, filters: seq<Filter>) {
    exists i :: 0 <= i < |filters| && Holds(world, filters[i])
  }

  predicate CubeMeans(world: World, w: seq<CubeField>, prefix: string)
    decreases w, 0
  {
    w == [] || (FieldMeans(world, w[0], prefix) && CubeMeans(world, w[1..], prefix))
  }

  predicate FieldMeans(world: World, f: CubeField, prefix: string)
    decreases f, 2
  {
    match f
    case Any(elements) => SomeElementMeans(world, elements, prefix)
    case All(elements) => AllElementsMean(world, elements, prefix)
    case Member(name, operations) =>
      forall i | 0 <= i < |operations| :: Asks(world, prefix + "." + name, operations[i])
  }

  predicate SomeElementMeans(world: World, elements: seq<CubeWhere>, prefix: string)
    decreases elements, 1
  {
    elements != [] && (CubeMeans(world, elements[0].fields, prefix) || SomeElementMeans(world, elements[1..], prefix))
  }

  predicate AllElementsMean(world: World, elements: seq<CubeWhere>, prefix: string)
    decreases elements, 1
  {
    elements == [] || (CubeMeans(world, elements[0].fields, prefix) && AllElementsMean(world, elements[1..], prefix))
  }

  predicate RootMeans(world: World, w: seq<RootField>, cubes: set<string>)
    decreases w, 0
  {
    w == [] || (RootFieldMeans(world, w[0], cubes) && RootMeans(world, w[1..], cubes))
  }

  predicate RootFieldMeans(world: World, f: RootField, cubes: set<string>)
    decreases f, 2
  {
    match f
    case AnyOf(elements) => SomeRootMeans(world, elements, cubes)
    case AllOf(elements) => AllRootsMean(world, elements, cubes)
    case Cube(name, fields) => CubeMeans(world, fields, NormalizedKey(name, cubes))
  }

  predicate SomeRootMeans(world: World, elements: seq<RootWhere>, cubes: set<string>)
    decreases elements, 1
  {
    elements != [] && (RootMeans(world, elements[0].fields, cubes) || SomeRootMeans(world, elements[1..], cubes))
  }

  predicate AllRootsMean(world: World, elements: seq<RootWhere>, cubes: set<string>)
    decreases elements, 1
  {
    elements == [] || (RootMeans(world, elements[0].fields, cubes) && AllRootsMean(world, elements[1..], cubes))
  }

  // ---- which arguments ----

  const OPERATORS: set<string> := {
    "equals", "notEquals", "in", "notIn", "set", "gt", "lt", "gte", "lte",
    "contains", "notContains", "startsWith", "notStartsWith", "endsWith", "notEndsWith",
    "inDateRange", "notInDateRange", "beforeDate", "beforeOrOnDate", "afterDate", "afterOrOnDate"
  }

  /** The operators of the schema; a date range is not the empty text. */
  predicate ValidOperation(op: Operation) {
    op.operator in OPERATORS && (op.operator in {"inDateRange", "notInDateRange"} ==> TextsOf(op.value) != [""])
  }

  /** How strict a condition on OR elements is: exactly one filter each, or at least one. */
  datatype Mode = ExactlyOne | AtLeastOne

  predicate Counts(n: nat, mode: Mode) {
    if mode.ExactlyOne? then n == 1 else n >= 1
  }

  ghost predicate CubeOk(w: seq<CubeField>, prefix: string, mode: Mode)
    decreases w, 0
  {
    w == [] || (FieldOk(w[0], prefix, mode) && CubeOk(w[1..], prefix, mode))
  }

  ghost predicate FieldOk(f: CubeField, prefix: string, mode: Mode)
    decreases f, 2
  {
    match f
    case Any(elements) => ElementsOk(elements, prefix, mode, true)
    case All(elements) => ElementsOk(elements, prefix, mode, false)
    case Member(_, operations) => forall i | 0 <= i < |operations| :: ValidOperation(operations[i])
  }

  ghost predicate ElementsOk(elements: seq<CubeWhere>, prefix: string, mode: Mode, counted: bool)
    decreases elements, 1
  {
    elements != [] ==>
      && CubeOk(elements[0].fields, prefix, mode)
      && (counted ==> Counts(|CubeFilters(elements[0].fields, prefix)|, mode))
      && ElementsOk(elements[1..], prefix, mode, counted)
  }

  ghost predicate RootOk(w: seq<RootField>, cubes: set<string>, mode: Mode)
    decreases w, 0
  {
    w == [] || (RootFieldOk(w[0], cubes, mode) && RootOk(w[1..], cubes, mode))
  }

  ghost predicate RootFieldOk(f: RootField, cubes: set<string>, mode: Mode)
    decreases f, 2
  {
    match f
    case AnyOf(elements) => RootElementsOk(elements, cubes, mode, true)
    case AllOf(elements) => RootElementsOk(elements, cubes, mode, false)
    case Cube(name, fields) => CubeOk(fields, NormalizedKey(name, cubes), mode)
  }

  ghost predicate RootElementsOk(elements: seq<RootWhere>, cubes: set<string>, mode: Mode, counted: bool)
    decreases elements, 1
  {
    elements != [] ==>
      && RootOk(elements[0].fields, cubes, mode)
      && (counted ==> Counts(|RootFilters(elements[0].fields, cubes)|, mode))
      && RootElementsOk(elements[1..], cubes, mode, counted)
  }

  // ---- the translation keeps the meaning ----

  /** Equality on every row, or no row lost. */
  predicate Kept(mode: Mode, before: bool, after: bool) {
    if mode.ExactlyOne? then before == after else (before ==> after)
  }

  lemma OperationKeepsMeaning(world: World, member: string, op: Operation)
    requires ValidOperation(op)
    ensures Holds(world, Atom(member, MapWhereOperator(op.operator, op.value), MapWhereValue(op.operator, op.value)))
            == Asks(world, member, op)
  {
    var texts := TextsOf(op.value);
    if op.operator in {"inDateRange", "notInDateRange"} && |texts| == 1 {
      assert texts == [texts[0]];
    }
  }

  lemma HoldAllAppend(world: World, a: seq<Filter>, b: seq<Filter>)
    ensures HoldAll(world, a + b) == (HoldAll(world, a) && HoldAll(world, b))
    ensures HoldsSome(world, a + b) == (HoldsSome(world, a) || HoldsSome(world, b))
  {
    var s := a + b;
    forall i | 0 <= i < |a| ensures s[i] == a[i] {
    }
    forall i | 0 <= i < |b| ensures s[|a| + i] == b[i] {
    }
    if HoldAll(world, s) {
      forall i | 0 <= i < |a| ensures Holds(world, a[i]) { assert Holds(world, s[i]); }
      forall i | 0 <= i < |b| ensures Holds(world, b[i]) { assert Holds(world, s[|a| + i]); }
    }
    if i :| 0 <= i < |a| && Holds(world, a[i]) {
      assert Holds(world, s[i]);
    }
    if i :| 0 <= i < |b| && Holds(world, b[i]) {
      assert Holds(world, s[|a| + i]);
    }
  }

  lemma SomeOfOne(world: World, filters: seq<Filter>, mode: Mode)
    requires Counts(|filters|, mode)
    ensures Kept(mode, HoldAll(world, filters), HoldsSome(world, filters))
  {
    if HoldAll(world, filters) {
      assert Holds(world, filters[0]);
    }
  }

  lemma {:induction false} CubeKeepsMeaning(world: World, w: seq<CubeField>, prefix: string, mode: Mode)
    requires CubeOk(w, prefix, mode)
    ensures Kept(mode, CubeMeans(world, w, prefix), HoldAll(world, CubeFilters(w, prefix)))
    decreases w, 0
  {
    if w != [] {
      FieldKeepsMeaning(world, w[0], prefix, mode);
      CubeKeepsMeaning(world, w[1..], prefix, mode);
      HoldAllAppend(world, FieldFilters(w[0], prefix), CubeFilters(w[1..], prefix));
    }
  }

  lemma {:induction false} FieldKeepsMeaning(world: World, f: CubeField, prefix: string, mode: Mode)
    requires FieldOk(f, prefix, mode)
    ensures Kept(mode, FieldMeans(world, f, prefix), HoldAll(world, FieldFilters(f, prefix)))
    decreases f, 2
  {
    match f {
      case Any(elements) =>
        AnyKeepsMeaning(world, elements, prefix, mode);
        assert Holds(world, FieldFilters(f, prefix)[0]) == HoldsSome(world, ElementFilters(elements, prefix));
      case All(elements) =>
        AllKeepsMeaning(world, elements, prefix, mode);
        assert Holds(world, FieldFilters(f, prefix)[0]) == HoldAll(world, ElementFilters(elements, prefix));
      case Member(name, operations) =>
        forall i | 0 <= i < |operations|
          ensures Holds(world, FieldFilters(f, prefix)[i]) == Asks(world, prefix + "." + name, operations[i])
        {
          OperationKeepsMeaning(world, prefix + "." + name, operations[i]);
        }
    }
  }

  lemma {:induction false} AnyKeepsMeaning(world: World, elements: seq<CubeWhere>, prefix: string, mode: Mode)
    requires ElementsOk(elements, prefix, mode, true)
    ensures Kept(mode, SomeElementMeans(world, elements, prefix), HoldsSome(world, ElementFilters(elements, prefix)))
    decreases elements, 1
  {
    if elements != [] {
      CubeKeepsMeaning(world, elements[0].fields, prefix, mode);
      SomeOfOne(world, CubeFilters(elements[0].fields, prefix), mode);
      AnyKeepsMeaning(world, elements[1..], prefix, mode);
      HoldAllAppend(world, CubeFilters(elements[0].fields, prefix), ElementFilters(elements[1..], prefix));
    }
  }

  lemma {:induction false} AllKeepsMeaning(world: World, elements: seq<CubeWhere>, prefix: string, mode: Mode)
    requires ElementsOk(elements, prefix, mode, false)
    ensures Kept(mode, AllElementsMean(world, elements, prefix), HoldAll(world, ElementFilters(elements, prefix)))
    decreases elements, 1
  {
    if elements != [] {
      CubeKeepsMeaning(world, elements[0].fields, prefix, mode);
      AllKeepsMeaning(world, elements[1..], prefix, mode);
      HoldAllAppend(world, CubeFilters(elements[0].fields, prefix), ElementFilters(elements[1..], prefix));
    }
  }

  /** Wrapping the fields of a cube into one AND list changes neither the meaning nor the condition. */
  lemma WrappingKeepsMeaning(world: World, fields: seq<CubeField>, prefix: string, mode: Mode)
    ensures CubeMeans(world, Wrapped(fields), prefix) == CubeMeans(world, fields, prefix)
    ensures CubeOk(fields, prefix, mode) ==> CubeOk(Wrapped(fields), prefix, mode)
  {
    if HasBoolean(fields) && |fields| > 1 {
      SingletonsMean(world, fields, prefix, mode);
      var w := [All(Singletons(fields))];
      assert w[1..] == [] && CubeOk(w[1..], prefix, mode) && CubeMeans(world, w[1..], prefix);
      if CubeOk(fields, prefix, mode) {
        assert FieldOk(w[0], prefix, mode);
      }
    }
  }

  lemma {:induction false} SingletonsMean(world: World, fields: seq<CubeField>, prefix: string, mode: Mode)
    ensures AllElementsMean(world, Singletons(fields), prefix) == CubeMeans(world, fields, prefix)
    ensures CubeOk(fields, prefix, mode) ==> ElementsOk(Singletons(fields), prefix, mode, false)
  {
    if fields != [] {
      SingletonsMean(world, fields[1..], prefix, mode);
      var all, one := Singletons(fields), [fields[0]];
      assert all[0].fields == one && one[1..] == [];
      assert all[1..] == Singletons(fields[1..]);
      assert CubeMeans(world, one, prefix) == FieldMeans(world, fields[0], prefix);
      assert CubeOk(one, prefix, mode) == FieldOk(fields[0], prefix, mode);
    }
  }

  lemma {:induction false} RootKeeps(world: World, w: seq<RootField>, cubes: set<string>, mode: Mode)
    requires RootOk(w, cubes, mode)
    ensures Kept(mode, RootMeans(world, w, cubes), HoldAll(world, RootFilters(w, cubes)))
    decreases w, 0
  {
    if w != [] {
      RootFieldKeeps(world, w[0], cubes, mode);
      RootKeeps(world, w[1..], cubes, mode);
      HoldAllAppend(world, RootFieldFilters(w[0], cubes), RootFilters(w[1..], cubes));
    }
  }

  lemma {:induction false} RootFieldKeeps(world: World, f: RootField, cubes: set<string>, mode: Mode)
    requires RootFieldOk(f, cubes, mode)
    ensures Kept(mode, RootFieldMeans(world, f, cubes), HoldAll(world, RootFieldFilters(f, cubes)))
    decreases f, 2
  {
    match f {
      case AnyOf(elements) =>
        AnyOfKeeps(world, elements, cubes, mode);
        assert Holds(world, RootFieldFilters(f, cubes)[0]) == HoldsSome(world, RootElementFilters(elements, cubes));
      case AllOf(elements) =>
        AllOfKeeps(world, elements, cubes, mode);
        assert Holds(world, RootFieldFilters(f, cubes)[0]) == HoldAll(world, RootElementFilters(elements, cubes));
      case Cube(name, fields) =>
        WrappingKeepsMeaning(world, fields, NormalizedKey(name, cubes), mode);
        CubeKeepsMeaning(world, Wrapped(fields), NormalizedKey(name, cubes), mode);
    }
  }

  lemma {:induction false} AnyOfKeeps(world: World, elements: seq<RootWhere>, cubes: set<string>, mode: Mode)
    requires RootElementsOk(elements, cubes, mode, true)
    ensures Kept(mode, SomeRootMeans(world, elements, cubes), HoldsSome(world, RootElementFilters(elements, cubes)))
    decreases elements, 1
  {
    if elements != [] {
      RootKeeps(world, elements[0].fields, cubes, mode);
      SomeOfOne(world, RootFilters(elements[0].fields, cubes), mode);
      AnyOfKeeps(world, elements[1..], cubes, mode);
      HoldAllAppend(world, RootFilters(elements[0].fields, cubes), RootElementFilters(elements[1..], cubes));
    }
  }

  lemma {:induction false} AllOfKeeps(world: World, elements: seq<RootWhere>, cubes: set<string>, mode: Mode)
    requires RootElementsOk(elements, cubes, mode, false)
    ensures Kept(mode, AllRootsMean(world, elements, cubes), HoldAll(world, RootElementFilters(elements, cubes)))
    decreases elements, 1
  {
    if elements != [] {
      RootKeeps(world, elements[0].fields, cubes, mode);
      AllOfKeeps(world, elements[1..], cubes, mode);
      HoldAllAppend(world, RootFilters(elements[0].fields, cubes), RootElementFilters(elements[1..], cubes));
    }
  }

  /** If every OR element yields exactly one filter, the filters accept exactly the rows the argument asks for. */
  lemma WhereKeepsMeaning(world: World, w: seq<RootField>, cubes: set<string>)
    requires RootOk(w, cubes, ExactlyOne)
    ensures HoldAll(world, RootFilters(w, cubes)) <==> RootMeans(world, w, cubes)
  {
    RootKeeps(world, w, cubes, ExactlyOne);
  }

  /** If no OR element is empty, the filters never reject a row the argument asks for. */
  lemma WhereLosesNoRow(world: World, w: seq<RootField>, cubes: set<string>)
    requires RootOk(w, cubes, AtLeastOne) && RootMeans(world, w, cubes)
    ensures HoldAll(world, RootFilters(w, cubes))
  {
    RootKeeps(world, w, cubes, AtLeastOne);
  }

  // ---- the condition is exact ----

  datatype Pair = Pair(name: string, text: string)

  /** An element that asks members to equal texts. */
  function Flat(pairs: seq<Pair>): CubeWhere {
    CubeWhere(seq(|pairs|, i requires 0 <= i < |pairs| =>
        Member(pairs[i].name, [Operation("equals", Single(pairs[i].text))])))
  }

  function Flats(elements: seq<seq<Pair>>): (f: seq<CubeWhere>)
    ensures |f| == |elements|
  {
    seq(|elements|, i requires 0 <= i < |elements| => Flat(elements[i]))
  }

  ghost predicate DistinctNames(elements: seq<seq<Pair>>) {
    forall i, j, k, l | 0 <= i < |elements| && 0 <= j < |elements[i]| && 0 <= k < |elements|
        && 0 <= l < |elements[k]| ::
      elements[i][j].name == elements[k][l].name ==> i == k && j == l
  }

  function PairAtom(prefix: string, p: Pair): Filter {
    Atom(prefix + "." + p.name, "equals", ListValue([p.text]))
  }

  lemma {:induction false} CubeMeansAll(world: World, w: seq<CubeField>, prefix: string)
    ensures CubeMeans(world, w, prefix) <==> forall k | 0 <= k < |w| :: FieldMeans(world, w[k], prefix)
  {
    if w != [] {
      CubeMeansAll(world, w[1..], prefix);
      assert w == [w[0]] + w[1..];
    }
  }

  lemma {:induction false} SomeElementIs(world: World, elements: seq<CubeWhere>, prefix: string)
    ensures SomeElementMeans(world, elements, prefix) <==>
            exists i :: 0 <= i < |elements| && CubeMeans(world, elements[i].fields, prefix)
  {
    if elements != [] {
      SomeElementIs(world, elements[1..], prefix);
      assert elements == [elements[0]] + elements[1..];
      if i :| 0 <= i < |elements[1..]| && CubeMeans(world, elements[1..][i].fields, prefix) {
        assert CubeMeans(world, elements[i + 1].fields, prefix);
      }
    }
  }

  lemma {:induction false} FlatFilters(pairs: seq<Pair>, prefix: string)
    ensures |CubeFilters(Flat(pairs).fields, prefix)| == |pairs|
    ensures forall j | 0 <= j < |pairs| :: CubeFilters(Flat(pairs).fields, prefix)[j] == PairAtom(prefix, pairs[j])
  {
    if pairs != [] {
      FlatFilters(pairs[1..], prefix);
      assert Flat(pairs).fields[1..] == Flat(pairs[1..]).fields;
    }
  }

  lemma {:induction false} FlatsFilters(elements: seq<seq<Pair>>, prefix: string, world: World)
    ensures HoldsSome(world, ElementFilters(Flats(elements), prefix)) <==>
            exists i, j :: 0 <= i < |elements| && 0 <= j < |elements[i]|
                && Holds(world, PairAtom(prefix, elements[i][j]))
  {
    if elements != [] {
      FlatsFilters(elements[1..], prefix, world);
      FlatFilters(elements[0], prefix);
      var head := CubeFilters(Flat(elements[0]).fields, prefix);
      assert Flats(elements)[1..] == Flats(elements[1..]);
      HoldAllAppend(world, head, ElementFilters(Flats(elements[1..]), prefix));
      if j :| 0 <= j < |head| && Holds(world, head[j]) {
        assert Holds(world, PairAtom(prefix, elements[0][j]));
      }
      var rest := elements[1..];
      if i, j :| 0 <= i < |rest| && 0 <= j < |rest[i]| && Holds(world, PairAtom(prefix, rest[i][j])) {
        assert Holds(world, PairAtom(prefix, elements[i + 1][j]));
      }
      if i, j :| 0 <= i < |elements| && 0 <= j < |elements[i]| && Holds(world, PairAtom(prefix, elements[i][j])) {
        if i == 0 {
          assert Holds(world, head[j]);
        } else {
          assert Holds(world, PairAtom(prefix, elements[1..][i - 1][j]));
        }
      }
    }
  }

  ghost predicate PairsHold(world: World, pairs: seq<Pair>, prefix: string) {
    forall j | 0 <= j < |pairs| :: Holds(world, PairAtom(prefix, pairs[j]))
  }

  lemma FlatMeans(world: World, elements: seq<seq<Pair>>, prefix: string)
    ensures SomeElementMeans(world, Flats(elements), prefix) <==>
            exists i :: 0 <= i < |elements| && PairsHold(world, elements[i], prefix)
  {
    SomeElementIs(world, Flats(elements), prefix);
    forall i | 0 <= i < |elements|
      ensures CubeMeans(world, Flats(elements)[i].fields, prefix) <==> PairsHold(world, elements[i], prefix)
    {
      var fields := Flats(elements)[i].fields;
      CubeMeansAll(world, fields, prefix);
      forall j | 0 <= j < |elements[i]|
        ensures FieldMeans(world, fields[j], prefix) == Holds(world, PairAtom(prefix, elements[i][j]))
      {
        var Member(name, operations) := fields[j];
        assert |operations| == 1;
        assert FieldMeans(world, fields[j], prefix) == Asks(world, prefix + "." + name, operations[0]);
      }
    }
  }

  /** Each OR element of an argument, seen alone: the filters mean the same on every row. */
  ghost predicate SameOnEveryRow(elements: seq<CubeWhere>, prefix: string) {
    forall world: World ::
      HoldsSome(world, ElementFilters(elements, prefix)) <==> SomeElementMeans(world, elements, prefix)
  }

  lemma NullRow(elements: seq<seq<Pair>>, prefix: string, i: nat)
    requires i < |elements| && elements[i] == []
    ensures !SameOnEveryRow(Flats(elements), prefix)
  {
    var world := World(map[], (o, v, t) => false);
    FlatsFilters(elements, prefix, world);
    FlatMeans(world, elements, prefix);
    assert PairsHold(world, elements[i], prefix);
  }

  lemma PrefixedApart(prefix: string, a: string, b: string)
    ensures prefix + "." + a == prefix + "." + b ==> a == b
  {
    assert (prefix + "." + a)[|prefix| + 1..] == a && (prefix + "." + b)[|prefix| + 1..] == b;
  }

  lemma HalfMatch(elements: seq<seq<Pair>>, prefix: string, i: nat)
    requires DistinctNames(elements) && (forall k | 0 <= k < |elements| :: elements[k] != [])
    requires i < |elements| && |elements[i]| >= 2
    ensures !SameOnEveryRow(Flats(elements), prefix)
  {
    var p := elements[i][0];
    var world := World(map[prefix + "." + p.name := Some(p.text)], (o, v, t) => false);
    FlatsFilters(elements, prefix, world);
    FlatMeans(world, elements, prefix);
    assert Holds(world, PairAtom(prefix, elements[i][0]));
    forall k | 0 <= k < |elements| ensures !PairsHold(world, elements[k], prefix) {
      var j := if k == i then 1 else 0;
      assert 0 <= j < |elements[k]|;
      assert elements[k][j].name != elements[i][0].name;
      PrefixedApart(prefix, elements[k][j].name, p.name);
      assert !Holds(world, PairAtom(prefix, elements[k][j]));
    }
    assert HoldsSome(world, ElementFilters(Flats(elements), prefix));
    assert !SomeElementMeans(world, Flats(elements), prefix);
  }

  lemma {:induction false} FlatOk(elements: seq<seq<Pair>>, prefix: string)
    requires forall i | 0 <= i < |elements| :: |elements[i]| == 1
    ensures ElementsOk(Flats(elements), prefix, ExactlyOne, true)
  {
    if elements != [] {
      FlatOk(elements[1..], prefix);
      FlatFilters(elements[0], prefix);
      assert Flats(elements)[1..] == Flats(elements[1..]);
      var fields := Flat(elements[0]).fields;
      assert |fields| == 1 && fields[1..] == [];
      assert FieldOk(fields[0], prefix, ExactlyOne);
    }
  }

  /**
   The condition is exact. For an OR whose elements compare different members with texts, the filters
   mean what the argument means on every row if and only if each element yields exactly one filter.
   */
  lemma OneFilterPerElementIsExact(elements: seq<seq<Pair>>, prefix: string)
    requires DistinctNames(elements)
    ensures SameOnEveryRow(Flats(elements), prefix) <==> forall i | 0 <= i < |elements| :: |elements[i]| == 1
  {
    if forall i | 0 <= i < |elements| :: |elements[i]| == 1 {
      FlatOk(elements, prefix);
      forall world: World
        ensures HoldsSome(world, ElementFilters(Flats(elements), prefix))
            <==> SomeElementMeans(world, Flats(elements), prefix)
      {
        AnyKeepsMeaning(world, Flats(elements), prefix, ExactlyOne);
      }
    } else {
      var i :| 0 <= i < |elements| && |elements[i]| != 1;
      if k :| 0 <= k < |elements| && elements[k] == [] {
        NullRow(elements, prefix, k);
      } else {
        HalfMatch(elements, prefix, i);
      }
    }
  }

  // ---- names, values and shapes ----

  /** A lower-case letter and its capital are 32 apart. */
  predicate IsCapitalOf(c: char, d: char) {
    if 'a' <= d <= 'z' then c as int == d as int - 32 else c == d
  }

  /** The cube a key stands for: itself if the metadata has it, else the name with a capital. */
  predicate StandsFor(key: string, name: string, cubes: set<string>) {
    if name in cubes then key == name
    else |key| == |name| && (name != "" ==> IsCapitalOf(key[0], name[0]) && key[1..] == name[1..])
  }

  lemma KeyIs(name: string, cubes: set<string>)
    ensures StandsFor(NormalizedKey(name, cubes), name, cubes)
  {
  }

  /** A filter names its member by the cube its key stands for, a dot and the member; the operators come in order. */
  lemma MembersOfFilters(name: string, member: string, operations: seq<Operation>, cubes: set<string>)
    ensures var f := RootFilters([Cube(name, [Member(member, operations)])], cubes);
            && |f| == |operations|
            && forall i | 0 <= i < |f| ::
                 && f[i].Atom? && |f[i].member| == |name| + 1 + |member|
                 && StandsFor(f[i].member[..|name|], name, cubes) && f[i].member[|name|..] == "." + member
                 && f[i].operator == MapWhereOperator(operations[i].operator, operations[i].value)
  {
    var key := NormalizedKey(name, cubes);
    KeyIs(name, cubes);
    var fields := [Member(member, operations)];
    var root := [Cube(name, fields)];
    var f := RootFilters(root, cubes);
    assert fields[1..] == [] && root[1..] == [];
    assert Wrapped(fields) == fields;
    assert CubeFilters(fields, key) == FieldFilters(fields[0], key) + CubeFilters(fields[1..], key);
    assert f == RootFieldFilters(root[0], cubes) + RootFilters(root[1..], cubes);
    assert f == OperationFilters(key + "." + member, operations);
    forall i | 0 <= i < |f| ensures f[i].member[..|name|] == key && f[i].member[|name|..] == "." + member {
      assert f[i].member == key + "." + member;
    }
  }

  /** The texts of a value: a flag is written out, a single value is a list of one. */
  lemma TextsAre(s: string, many: seq<string>)
    ensures TextsOf(Flag(true)) == ["true"] && TextsOf(Flag(false)) == ["false"]
    ensures TextsOf(Single(s)) == [s] && TextsOf(Many(many)) == many
  {
  }

  /**
   The values of a filter: none for `set`; the bare text for one date range that is no date, which is
   parsed as natural language later, and none if it is empty; else the list.
   */
  lemma ValuesAre(operator: string, value: Value)
    ensures var texts, values := TextsOf(value), MapWhereValue(operator, value);
            && (operator == "set" ==> values == NoValues)
            && (operator in {"inDateRange", "notInDateRange"} && |texts| == 1 && !StartsWithDate(texts[0]) ==>
                  values == if texts[0] != "" then TextValue(texts[0]) else NoValues)
            && (operator in {"inDateRange", "notInDateRange"} && (|texts| != 1 || StartsWithDate(texts[0])) ==>
                  values == ListValue(texts))
            && (operator !in {"set", "inDateRange", "notInDateRange"} ==> values == ListValue(texts))
  {
  }

  lemma DatesAre()
    ensures StartsWithDate("2024-01-31") && StartsWithDate("2024-01-31T10:00") && !StartsWithDate("last 7 days")
  {
    assert "last 7 days"[0] == 'l';
  }

  /** Several fields around a boolean give one filter, so they count as one in a surrounding OR. */
  lemma WrappedIsOneFilter(fields: seq<CubeField>, prefix: string)
    requires HasBoolean(fields) && |fields| > 1
    ensures |CubeFilters(Wrapped(fields), prefix)| == 1 && CubeFilters(Wrapped(fields), prefix)[0].And?
  {
    var w := [All(Singletons(fields))];
    assert w[1..] == [] && CubeFilters(w[1..], prefix) == [];
  }
}
