/**
 The condition and the parameters that ask a database for the columns of given tables: tables are
 grouped by schema in a plain object, and each schema gives one clause of an OR.
 */
module ColumnCondition {
  import opened Wrappers
  import opened JsObject

  datatype Table = Table(schema: string, name: string)

  /** `?`, or a numbered placeholder such as `$1`, as the driver's `param` writes it. */
  datatype Placeholder = Question | Numbered(n: nat)

  datatype Style = Positional | ByNumber

  function Param(style: Style, index: nat): Placeholder {
    if style.Positional? then Question else Numbered(index + 1)
  }

  /** `(schema_column = p AND table_column IN (p, ...))`. */
  datatype Clause = Clause(schema: Placeholder, tables: seq<Placeholder>)

  /** A schema name that every object inherits makes `push` a call of something that is no function. */
  datatype Result = Condition(clauses: seq<Clause>, parameters: seq<string>) | Throws

  // ---- what a database makes of it ----

  /** The parameter a placeholder stands for; the k-th question mark takes the k-th parameter. */
  function Bound(p: Placeholder, parameters: seq<string>, position: nat): Option<string> {
    var i := if p.Question? then position else p.n - 1;
    if 0 <= i < |parameters| then Some(parameters[i]) else None
  }

  predicate ClauseHolds(c: Clause, parameters: seq<string>, at: nat, row: Table) {
    && Bound(c.schema, parameters, at) == Some(row.schema)
    && exists i :: 0 <= i < |c.tables| && Bound(c.tables[i], parameters, at + 1 + i) == Some(row.name)
  }

  /** The OR of the clauses on a column row of that schema and table; `at` question marks come before. */
  predicate Holds(clauses: seq<Clause>, parameters: seq<string>, at: nat, row: Table) {
    clauses != [] &&
    (ClauseHolds(clauses[0], parameters, at, row) ||
     Holds(clauses[1..], parameters, at + 1 + |clauses[0].tables|, row))
  }

  function Size(clauses: seq<Clause>): nat {
    if clauses == [] then 0 else 1 + |clauses[0].tables| + Size(clauses[1..])
  }

  predicate WithinClause(c: Clause, count: nat) {
    && (c.schema.Numbered? ==> 1 <= c.schema.n <= count)
    && (forall i | 0 <= i < |c.tables| :: c.tables[i].Numbered? ==> 1 <= c.tables[i].n <= count)
  }

  predicate Within(clauses: seq<Clause>, count: nat) {
    forall i | 0 <= i < |clauses| :: WithinClause(clauses[i], count)
  }

  lemma {:induction false} SizeSnoc(clauses: seq<Clause>, c: Clause)
    ensures Size(clauses + [c]) == Size(clauses) + 1 + |c.tables|
  {
    if clauses == [] {
      assert [] + [c] == [c];
    } else {
      assert (clauses + [c])[1..] == clauses[1..] + [c];
      SizeSnoc(clauses[1..], c);
    }
  }

  lemma HeadUnchanged(head: Clause, parameters: seq<string>, more: seq<string>, at: nat, row: Table)
    requires WithinClause(head, |parameters|) && at + 1 + |head.tables| <= |parameters|
    ensures ClauseHolds(head, parameters + more, at, row) <==> ClauseHolds(head, parameters, at, row)
  {
    var all := parameters + more;
    assert Bound(head.schema, all, at) == Bound(head.schema, parameters, at);
    assert forall i | 0 <= i < |head.tables| ::
        Bound(head.tables[i], all, at + 1 + i) == Bound(head.tables[i], parameters, at + 1 + i);
  }

  lemma HoldsCons(head: Clause, rest: seq<Clause>, parameters: seq<string>, at: nat, row: Table)
    ensures Holds([head] + rest, parameters, at, row) <==>
            ClauseHolds(head, parameters, at, row) || Holds(rest, parameters, at + 1 + |head.tables|, row)
  {
    assert ([head] + rest)[1..] == rest;
  }

  /** Parameters that come later change no clause before them. */
  lemma {:induction false} HoldsSnoc(clauses: seq<Clause>, c: Clause, parameters: seq<string>, more: seq<string>,
                                         at: nat, row: Table)
    requires Within(clauses, |parameters|) && at + Size(clauses) <= |parameters|
    ensures Holds(clauses + [c], parameters + more, at, row) <==>
            Holds(clauses, parameters, at, row) || ClauseHolds(c, parameters + more, at + Size(clauses), row)
  {
    if clauses == [] {
      HoldsCons(c, [], parameters + more, at, row);
      assert [c] + [] == [] + [c];
    } else {
      var head, rest := clauses[0], clauses[1..];
      assert clauses + [c] == [head] + (rest + [c]);
      HoldsCons(head, rest + [c], parameters + more, at, row);
      HeadUnchanged(head, parameters, more, at, row);
      HoldsSnoc(rest, c, parameters, more, at + 1 + |head.tables|, row);
    }
  }

  // ---- building it ----

  /** `groupedBySchema` as an object: its names in order of insertion, and a list for each. */
  ghost predicate Groups(tables: seq<Table>, names: seq<string>, lists: map<string, seq<string>>) {
    && NoRepeat(names)
    && (forall s :: s in lists <==> s in names)
    && (forall s | s in lists :: lists[s] != [])
    && (forall row: Table :: row in tables <==> row.schema in lists && row.name in lists[row.schema])
  }

  method GroupBySchema(tables: seq<Table>) returns (names: seq<string>, lists: map<string, seq<string>>, threw: bool)
    ensures threw <==> exists t :: t in tables && t.schema in PROTOTYPE_NAMES
    ensures !threw ==> Groups(tables, names, lists)
  {
    names, lists, threw := [], map[], false;
    for i := 0 to |tables|
      invariant Groups(tables[..i], names, lists)
      invariant forall t | t in tables[..i] :: t.schema !in PROTOTYPE_NAMES
      invariant forall s | s in lists :: s !in PROTOTYPE_NAMES
    {
      var t := tables[i];
      assert tables[..i + 1] == tables[..i] + [t];
      if t.schema !in lists {
        if t.schema in PROTOTYPE_NAMES {
          assert tables[i] in tables;
          return names, lists, true;
        }
        names := names + [t.schema];
        lists := lists[t.schema := []];
      }
      lists := lists[t.schema := lists[t.schema] + [t.name]];
    }
    assert tables[..|tables|] == tables;
  }

  function Placeholders(style: Style, from: nat, count: nat): (p: seq<Placeholder>)
    ensures |p| == count
  {
    seq(count, i requires 0 <= i => Param(style, from + i))
  }

  /** The clause of one schema asks for that schema and its tables. */
  lemma NewClauseHolds(style: Style, before: seq<string>, schema: string, names: seq<string>, row: Table)
    ensures var parameters := before + [schema] + names;
            var c := Clause(Param(style, |before|), Placeholders(style, |before| + 1, |names|));
            && WithinClause(c, |parameters|)
            && (ClauseHolds(c, parameters, |before|, row) <==> row.schema == schema && row.name in names)
  {
    var parameters := before + [schema] + names;
    var c := Clause(Param(style, |before|), Placeholders(style, |before| + 1, |names|));
    assert Bound(c.schema, parameters, |before|) == Some(schema);
    forall i | 0 <= i < |names| ensures Bound(c.tables[i], parameters, |before| + 1 + i) == Some(names[i]) {
      assert c.tables[i] == Param(style, |before| + 1 + i);
      assert parameters[|before| + 1 + i] == names[i];
    }
    if row.name in names {
      var i :| 0 <= i < |names| && names[i] == row.name;
      assert Bound(c.tables[i], parameters, |before| + 1 + i) == Some(row.name);
    }
  }

  /** The clauses so far ask for the schemas seen so far. */
  ghost predicate AskFor(clauses: seq<Clause>, parameters: seq<string>, schemas: seq<string>,
                         lists: map<string, seq<string>>)
  {
    && Size(clauses) == |parameters| && Within(clauses, |parameters|)
    && (forall row :: Holds(clauses, parameters, 0, row) <==>
                      row.schema in schemas && row.schema in lists && row.name in lists[row.schema])
  }

  lemma ClauseAdded(style: Style, clauses: seq<Clause>, parameters: seq<string>, schemas: seq<string>,
                    lists: map<string, seq<string>>, schema: string)
    requires AskFor(clauses, parameters, schemas, lists) && schema in lists
    ensures var clause := Clause(Param(style, |parameters|), Placeholders(style, |parameters| + 1, |lists[schema]|));
            AskFor(clauses + [clause], parameters + [schema] + lists[schema], schemas + [schema], lists)
  {
    var names := lists[schema];
    var clause := Clause(Param(style, |parameters|), Placeholders(style, |parameters| + 1, |names|));
    var all := parameters + [schema] + names;
    assert all == parameters + ([schema] + names);
    SizeSnoc(clauses, clause);
    forall row ensures Holds(clauses + [clause], all, 0, row) <==>
                       row.schema in schemas + [schema] && row.schema in lists && row.name in lists[row.schema]
    {
      HoldsSnoc(clauses, clause, parameters, [schema] + names, 0, row);
      NewClauseHolds(style, parameters, schema, names, row);
    }
    NewClauseHolds(style, parameters, schema, names, Table("", ""));
  }

  /**
   The condition means what was asked, with question marks as with numbers: a column row is accepted
   exactly when its schema and table are among the tables, every parameter has one placeholder, and no
   clause has an empty list. The one way out is a schema with an inherited name.
   */
  method ColumnsCondition(tables: seq<Table>, style: Style) returns (r: Result)
    ensures r.Throws? <==> exists t :: t in tables && t.schema in PROTOTYPE_NAMES
    ensures r.Condition? ==> forall row :: Holds(r.clauses, r.parameters, 0, row) <==> row in tables
    ensures r.Condition? ==> Size(r.clauses) == |r.parameters| && Within(r.clauses, |r.parameters|)
    ensures r.Condition? ==> (forall c | c in r.clauses :: c.tables != []) && (r.clauses == [] <==> tables == [])
  {
    var names, lists, threw := GroupBySchema(tables);
    if threw {
      return Throws;
    }
    OwnKeysElements(names);
    var keys := OwnKeys(names);
    var conditions: seq<Clause>, parameters: seq<string> := [], [];
    for k := 0 to |keys|
      invariant |conditions| == k && AskFor(conditions, parameters, keys[..k], lists)
      invariant forall c | c in conditions :: c.tables != []
    {
      var schema := keys[k];
      assert schema in keys;
      var tableNames := lists[schema];
      ClauseAdded(style, conditions, parameters, keys[..k], lists, schema);
      assert keys[..k + 1] == keys[..k] + [schema];
      var clause := Clause(Param(style, |parameters|), Placeholders(style, |parameters| + 1, |tableNames|));
      parameters := parameters + [schema];
      parameters := parameters + tableNames;
      conditions := conditions + [clause];
    }
    assert keys[..|keys|] == keys;
    if tables != [] {
      assert tables[0] in tables;
    }
    if keys != [] {
      assert keys[0] in keys;
      assert Table(keys[0], lists[keys[0]][0]) in tables;
    }
    return Condition(conditions, parameters);
  }
}
