/**
 The pivot of a result set: rows are grouped by the string of their x values, columns are collected by
 the string of their y values, and each cell takes the last matching row.
 */
module Pivot {
  import opened Wrappers
  import opened Strings
  import opened JsObject

  /** A value of a data row; a value other than null stands for its string. */
  datatype Val = Null | Text(text: string)

  type Row = map<string, Val>

  const MEASURES := "measures"

  /** Axes, the measures of the query and the fill value of one pivot. */
  datatype Config = Config(x: seq<string>, y: seq<string>, measures: seq<string>, fill: Val)

  datatype Entry = Entry(xValues: seq<Val>, row: Row)

  datatype Group = Group(key: string, entries: seq<Entry>)

  datatype Cell = Cell(yValues: seq<Val>, value: Val)

  datatype PivotRow = PivotRow(xValues: seq<Val>, cells: seq<Cell>)

  /** Reading a measure of an inherited property throws a `TypeError`. */
  datatype Table = Rows(rows: seq<PivotRow>) | Throws

  // ---- axis values ----

  function Field(row: Row, name: string): Val {
    if name in row then row[name] else Null
  }

  function Dimensions(axis: seq<string>, row: Row): seq<Val> {
    if axis == [] then []
    else (if axis[0] == MEASURES then [] else [Field(row, axis[0])]) + Dimensions(axis[1..], row)
  }

  /** The tuples of a row on an axis: one per measure if the axis carries the measures, else one. */
  function AxisValues(cfg: Config, axis: seq<string>, row: Row): seq<seq<Val>> {
    if MEASURES in axis && |cfg.measures| > 0 then
      seq(|cfg.measures|, i requires 0 <= i < |cfg.measures| =>
        Dimensions(axis, row) + if cfg.measures[i] == "" then [] else [Text(cfg.measures[i])])
    else [Dimensions(axis, row)]
  }

  function Format(v: Val): string {
    if v.Null? then "∅" else if v.text == "" then "[Empty string]" else v.text
  }

  function Formats(vals: seq<Val>): (s: seq<string>)
    ensures |s| == |vals|
  {
    seq(|vals|, i requires 0 <= i < |vals| => Format(vals[i]))
  }

  /** `axisValuesString`. */
  function AxisString(vals: seq<Val>): string {
    Join(Formats(vals), ", ")
  }

  function Plains(vals: seq<Val>): (s: seq<string>)
    ensures |s| == |vals|
  {
    seq(|vals|, i requires 0 <= i < |vals| => if vals[i].Null? then "" else vals[i].text)
  }

  /** `values.join()`: null and the empty string look the same. */
  function ColumnKey(vals: seq<Val>): string {
    Join(Plains(vals), ",")
  }

  function EntriesOf(row: Row, tuples: seq<seq<Val>>): (e: seq<Entry>)
    ensures |e| == |tuples|
  {
    seq(|tuples|, i requires 0 <= i < |tuples| => Entry(tuples[i], row))
  }

  function Entries(cfg: Config, data: seq<Row>): seq<Entry> {
    if data == [] then []
    else Entries(cfg, DropLast(data)) + EntriesOf(Last(data), AxisValues(cfg, cfg.x, Last(data)))
  }

  // ---- grouping ----

  /** The keys in order of first appearance. */
  function Keys(entries: seq<Entry>): seq<string> {
    if entries == [] then []
    else
      var before, k := Keys(DropLast(entries)), AxisString(Last(entries).xValues);
      if k in before then before else before + [k]
  }

  function Members(entries: seq<Entry>, k: string): seq<Entry> {
    if entries == [] then []
    else Members(DropLast(entries), k) + if AxisString(Last(entries).xValues) == k then [Last(entries)] else []
  }

  function Grouped(entries: seq<Entry>): (g: seq<Group>)
    ensures |g| == |Keys(entries)|
  {
    seq(|Keys(entries)|, i requires 0 <= i < |Keys(entries)| =>
        Group(Keys(entries)[i], Members(entries, Keys(entries)[i])))
  }

  lemma {:induction false} KeysElements(entries: seq<Entry>)
    ensures NoRepeat(Keys(entries))
    ensures forall k :: k in Keys(entries) <==> Members(entries, k) != []
    ensures forall k, e :: e in Members(entries, k) <==> e in entries && AxisString(e.xValues) == k
  {
    if entries != [] {
      KeysElements(DropLast(entries));
      assert entries == DropLast(entries) + [Last(entries)];
    }
  }

  /** `groupByToPairs`: a Map from keys to lists, read back in insertion order. */
  method GroupByToPairs(entries: seq<Entry>) returns (groups: seq<Group>)
    ensures groups == Grouped(entries)
  {
    var keys: seq<string>, acc: map<string, seq<Entry>> := [], map[];
    for n := 0 to |entries|
      invariant keys == Keys(entries[..n])
      invariant forall k :: k in acc <==> k in keys
      invariant forall k | k in keys :: acc[k] == Members(entries[..n], k)
    {
      assert DropLast(entries[..n + 1]) == entries[..n] && Last(entries[..n + 1]) == entries[n];
      KeysElements(entries[..n]);
      var key := AxisString(entries[n].xValues);
      if key !in acc {
        keys := keys + [key];
        acc := acc[key := []];
      }
      acc := acc[key := acc[key] + [entries[n]]];
    }
    assert entries[..|entries|] == entries;
    groups := seq(|keys|, i requires 0 <= i < |keys| && keys[i] in acc => Group(keys[i], acc[keys[i]]));
  }

  // ---- gap filling ----

  /** The key of `groupBy(({ xValues }) => xValues[0])`. */
  function FirstKey(e: Entry): string {
    if e.xValues == [] then "undefined" else if e.xValues[0].Null? then "null" else e.xValues[0].text
  }

  function MembersAt(entries: seq<Entry>, d: string): seq<Entry> {
    if entries == [] then []
    else MembersAt(DropLast(entries), d) + if FirstKey(Last(entries)) == d then [Last(entries)] else []
  }

  function SeriesGroup(entries: seq<Entry>, d: string): Group {
    var found := MembersAt(entries, d);
    Group(d, if found == [] then [Entry([Text(d)], map[])] else found)
  }

  /** One group for each point of the series, empty points with an empty row. */
  function Filled(series: seq<string>, entries: seq<Entry>): (g: seq<Group>)
    ensures |g| == |series|
  {
    seq(|series|, i requires 0 <= i < |series| => SeriesGroup(entries, series[i]))
  }

  lemma {:induction false} MembersAtElements(entries: seq<Entry>, d: string)
    ensures forall e :: e in MembersAt(entries, d) <==> e in entries && FirstKey(e) == d
  {
    if entries != [] {
      MembersAtElements(DropLast(entries), d);
      assert entries == DropLast(entries) + [Last(entries)];
    }
  }

  // ---- columns ----

  /** The y tuples met while walking the groups; an empty row adds none. */
  function TuplesOf(cfg: Config, entries: seq<Entry>): seq<seq<Val>> {
    if entries == [] then []
    else
      var row := Last(entries).row;
      TuplesOf(cfg, DropLast(entries)) + if |row| > 0 then AxisValues(cfg, cfg.y, row) else []
  }

  function Tuples(cfg: Config, groups: seq<Group>): seq<seq<Val>> {
    if groups == [] then [] else Tuples(cfg, DropLast(groups)) + TuplesOf(cfg, Last(groups).entries)
  }

  /** The own names of `yValuesMap` in order of insertion. */
  function ColumnNames(tuples: seq<seq<Val>>): seq<string> {
    if tuples == [] then []
    else
      var before, k := ColumnNames(DropLast(tuples)), ColumnKey(Last(tuples));
      if k in before || k == PROTO then before else before + [k]
  }

  /** The value of a name: the last tuple assigned to it. */
  function LastTuple(tuples: seq<seq<Val>>, k: string): seq<Val> {
    if tuples == [] then []
    else if ColumnKey(Last(tuples)) == k then Last(tuples)
    else LastTuple(DropLast(tuples), k)
  }

  /** `Object.values(yValuesMap)`. */
  function Columns(tuples: seq<seq<Val>>): (c: seq<seq<Val>>)
    ensures |c| == |OwnKeys(ColumnNames(tuples))|
  {
    var names := OwnKeys(ColumnNames(tuples));
    seq(|names|, i requires 0 <= i < |names| => LastTuple(tuples, names[i]))
  }

  lemma {:induction false} ColumnNamesElements(tuples: seq<seq<Val>>)
    ensures NoRepeat(ColumnNames(tuples))
    ensures forall t | t in tuples && ColumnKey(t) != PROTO :: ColumnKey(t) in ColumnNames(tuples)
    ensures forall k | k in ColumnNames(tuples) ::
              k != PROTO && LastTuple(tuples, k) in tuples && ColumnKey(LastTuple(tuples, k)) == k
  {
    if tuples != [] {
      ColumnNamesElements(DropLast(tuples));
      assert tuples == DropLast(tuples) + [Last(tuples)];
    }
  }

  /** The columns are tuples that occur, and the key of each tells it from the others. */
  lemma ColumnsElements(tuples: seq<seq<Val>>)
    ensures forall c | c in Columns(tuples) :: c in tuples && ColumnKey(c) != PROTO
    ensures forall i, j | 0 <= i < j < |Columns(tuples)| ::
        ColumnKey(Columns(tuples)[i]) != ColumnKey(Columns(tuples)[j])
    ensures forall t | t in tuples && ColumnKey(t) != PROTO ::
              exists i :: 0 <= i < |Columns(tuples)| && ColumnKey(Columns(tuples)[i]) == ColumnKey(t)
  {
    ColumnNamesElements(tuples);
    var inserted := ColumnNames(tuples);
    OwnKeysElements(inserted);
    var names, cols := OwnKeys(inserted), Columns(tuples);
    forall i | 0 <= i < |cols| ensures ColumnKey(cols[i]) == names[i] && cols[i] in tuples {
      assert names[i] in names;
    }
    forall t | t in tuples && ColumnKey(t) != PROTO
      ensures exists i :: 0 <= i < |cols| && ColumnKey(cols[i]) == ColumnKey(t)
    {
      assert ColumnKey(t) in names;
      var i :| 0 <= i < |names| && names[i] == ColumnKey(t);
      assert ColumnKey(cols[i]) == ColumnKey(t);
    }
  }

  /** `yValuesMap` after the tuples seen so far. */
  ghost predicate Collected(seen: seq<seq<Val>>, names: seq<string>, yValuesMap: map<string, seq<Val>>) {
    && names == ColumnNames(seen)
    && (forall k :: k in yValuesMap <==> k in names)
    && (forall k | k in names :: yValuesMap[k] == LastTuple(seen, k))
  }

  /** The assignments of one row. */
  method CollectTuples(ghost seen: seq<seq<Val>>, tuples: seq<seq<Val>>, names0: seq<string>,
                       map0: map<string, seq<Val>>)
    returns (names: seq<string>, yValuesMap: map<string, seq<Val>>)
    requires Collected(seen, names0, map0)
    ensures Collected(seen + tuples, names, yValuesMap)
  {
    names, yValuesMap := names0, map0;
    assert seen + tuples[..0] == seen;
    for t := 0 to |tuples|
      invariant Collected(seen + tuples[..t], names, yValuesMap)
    {
      ghost var upTo := seen + tuples[..t + 1];
      assert DropLast(upTo) == seen + tuples[..t] && Last(upTo) == tuples[t];
      var name := ColumnKey(tuples[t]);
      if name != PROTO {
        if name !in yValuesMap {
          names := names + [name];
        }
        yValuesMap := yValuesMap[name := tuples[t]];
      } else {
        ColumnNamesElements(seen + tuples[..t]);
      }
    }
    assert tuples[..|tuples|] == tuples;
  }

  lemma TuplesOfNext(cfg: Config, seen: seq<seq<Val>>, entries: seq<Entry>, r: nat)
    requires r < |entries|
    ensures seen + TuplesOf(cfg, entries[..r + 1])
         == (seen + TuplesOf(cfg, entries[..r]))
            + if |entries[r].row| > 0 then AxisValues(cfg, cfg.y, entries[r].row) else []
  {
    assert DropLast(entries[..r + 1]) == entries[..r] && Last(entries[..r + 1]) == entries[r];
  }

  /** The rows of one group. */
  method CollectGroup(cfg: Config, ghost seen: seq<seq<Val>>, entries: seq<Entry>, names0: seq<string>,
                      map0: map<string, seq<Val>>)
    returns (names: seq<string>, yValuesMap: map<string, seq<Val>>)
    requires Collected(seen, names0, map0)
    ensures Collected(seen + TuplesOf(cfg, entries), names, yValuesMap)
  {
    names, yValuesMap := names0, map0;
    ghost var upTo := seen;
    assert upTo == seen + TuplesOf(cfg, entries[..0]);
    for r := 0 to |entries|
      invariant upTo == seen + TuplesOf(cfg, entries[..r])
      invariant Collected(upTo, names, yValuesMap)
    {
      TuplesOfNext(cfg, seen, entries, r);
      var row := entries[r].row;
      if |row| > 0 {
        var tuples := AxisValues(cfg, cfg.y, row);
        names, yValuesMap := CollectTuples(upTo, tuples, names, yValuesMap);
        upTo := upTo + tuples;
      }
    }
    assert entries[..|entries|] == entries;
  }

  method CollectColumns(cfg: Config, groups: seq<Group>) returns (columns: seq<seq<Val>>)
    ensures columns == Columns(Tuples(cfg, groups))
  {
    var names: seq<string>, yValuesMap: map<string, seq<Val>> := [], map[];
    for g := 0 to |groups|
      invariant Collected(Tuples(cfg, groups[..g]), names, yValuesMap)
    {
      assert DropLast(groups[..g + 1]) == groups[..g] && Last(groups[..g + 1]) == groups[g];
      names, yValuesMap := CollectGroup(cfg, Tuples(cfg, groups[..g]), groups[g].entries, names, yValuesMap);
    }
    assert groups[..|groups|] == groups;
    OwnKeysElements(names);
    var keys := OwnKeys(names);
    forall i | 0 <= i < |keys| ensures keys[i] in yValuesMap {
      assert keys[i] in keys;
    }
    columns := seq(|keys|, i requires 0 <= i < |keys| && keys[i] in yValuesMap => yValuesMap[keys[i]]);
  }

  // ---- cells ----

  /** Whether a row has a y tuple of that string. */
  predicate HasKey(cfg: Config, row: Row, key: string) {
    exists i :: 0 <= i < |AxisValues(cfg, cfg.y, row)| && AxisString(AxisValues(cfg, cfg.y, row)[i]) == key
  }

  /** `yGrouped[key]`: the last row of the group with a y tuple of that string. */
  function LastRow(cfg: Config, entries: seq<Entry>, key: string): Option<Row> {
    if entries == [] then None
    else if HasKey(cfg, Last(entries).row, key) then Some(Last(entries).row)
    else LastRow(cfg, DropLast(entries), key)
  }

  /** The name of the measure of a cell: the last value of the x tuple or of the column. */
  function Measure(cfg: Config, xValues: seq<Val>, column: seq<Val>): string {
    var from := if MEASURES in cfg.x then xValues else column;
    if from == [] then "undefined" else if Last(from).Null? then "null" else Last(from).text
  }

  /** `row[measure] ?? fill`. */
  function MeasureValue(cfg: Config, row: Row, measure: string): Val {
    if Field(row, measure).Null? then cfg.fill else Field(row, measure)
  }

  /** No row of the group owns the name, but every object inherits it. */
  predicate Inherits(cfg: Config, g: Group, column: seq<Val>) {
    LastRow(cfg, g.entries, AxisString(column)).None? && AxisString(column) in PROTOTYPE_NAMES
  }

  function CellValue(cfg: Config, g: Group, column: seq<Val>): Val
    requires g.entries != []
  {
    match LastRow(cfg, g.entries, AxisString(column))
    case Some(row) => MeasureValue(cfg, row, Measure(cfg, g.entries[0].xValues, column))
    case None => cfg.fill
  }

  function RowOf(cfg: Config, g: Group, columns: seq<seq<Val>>): PivotRow
    requires g.entries != []
  {
    PivotRow(g.entries[0].xValues,
             seq(|columns|, i requires 0 <= i < |columns| => Cell(columns[i], CellValue(cfg, g, columns[i]))))
  }

  predicate GroupInherits(cfg: Config, g: Group, columns: seq<seq<Val>>) {
    exists j :: 0 <= j < |columns| && Inherits(cfg, g, columns[j])
  }

  predicate SomeInherits(cfg: Config, groups: seq<Group>, columns: seq<seq<Val>>) {
    exists i :: 0 <= i < |groups| && GroupInherits(cfg, groups[i], columns)
  }

  function RowsOf(cfg: Config, groups: seq<Group>, columns: seq<seq<Val>>): (r: seq<PivotRow>)
    requires forall i | 0 <= i < |groups| :: groups[i].entries != []
    ensures |r| == |groups|
  {
    seq(|groups|, i requires 0 <= i < |groups| => RowOf(cfg, groups[i], columns))
  }

  /** The table of a list of groups. */
  function TableOf(cfg: Config, groups: seq<Group>): Table
    requires forall i | 0 <= i < |groups| :: groups[i].entries != []
  {
    var columns := Columns(Tuples(cfg, groups));
    if SomeInherits(cfg, groups, columns) then Throws
    else Rows(RowsOf(cfg, groups, columns))
  }

  /** `yGrouped` after the rows of a group. */
  ghost predicate LooksUp(cfg: Config, entries: seq<Entry>, yGrouped: map<string, Row>) {
    && (forall k :: k in yGrouped <==> LastRow(cfg, entries, k).Some?)
    && (forall k | k in yGrouped :: LastRow(cfg, entries, k) == Some(yGrouped[k]))
  }

  method GroupByY(cfg: Config, entries: seq<Entry>) returns (yGrouped: map<string, Row>)
    ensures LooksUp(cfg, entries, yGrouped)
  {
    yGrouped := map[];
    for r := 0 to |entries|
      invariant LooksUp(cfg, entries[..r], yGrouped)
    {
      assert DropLast(entries[..r + 1]) == entries[..r] && Last(entries[..r + 1]) == entries[r];
      var row := entries[r].row;
      var tuples := AxisValues(cfg, cfg.y, row);
      ghost var before := yGrouped;
      for t := 0 to |tuples|
        invariant forall k :: k in yGrouped <==> k in before || exists i :: 0 <= i < t && AxisString(tuples[i]) == k
        invariant forall k | k in yGrouped ::
                    yGrouped[k] == if exists i :: 0 <= i < t && AxisString(tuples[i]) == k then row else before[k]
      {
        yGrouped := yGrouped[AxisString(tuples[t]) := row];
      }
      forall k ensures HasKey(cfg, row, k) <==> exists i :: 0 <= i < |tuples| && AxisString(tuples[i]) == k {
      }
    }
    assert entries[..|entries|] == entries;
  }

  method FillRow(cfg: Config, g: Group, columns: seq<seq<Val>>) returns (cells: seq<Cell>, threw: bool)
    requires g.entries != []
    ensures threw <==> GroupInherits(cfg, g, columns)
    ensures !threw ==> PivotRow(g.entries[0].xValues, cells) == RowOf(cfg, g, columns)
  {
    var yGrouped := GroupByY(cfg, g.entries);
    var xValues := g.entries[0].xValues;
    cells, threw := [], false;
    for j := 0 to |columns|
      invariant |cells| == j
      invariant forall i | 0 <= i < j :: !Inherits(cfg, g, columns[i])
      invariant forall i | 0 <= i < j :: cells[i] == Cell(columns[i], CellValue(cfg, g, columns[i]))
    {
      var key := AxisString(columns[j]);
      var value := cfg.fill;
      if key in yGrouped {
        value := MeasureValue(cfg, yGrouped[key], Measure(cfg, xValues, columns[j]));
      } else if key in PROTOTYPE_NAMES {
        assert Inherits(cfg, g, columns[j]);
        return cells, true;
      }
      cells := cells + [Cell(columns[j], value)];
    }
  }

  lemma NextGroup(cfg: Config, groups: seq<Group>, columns: seq<seq<Val>>, i: nat)
    requires i < |groups| && forall k | 0 <= k < |groups| :: groups[k].entries != []
    ensures SomeInherits(cfg, groups[..i + 1], columns) <==>
            SomeInherits(cfg, groups[..i], columns) || GroupInherits(cfg, groups[i], columns)
    ensures RowsOf(cfg, groups[..i + 1], columns) ==
            RowsOf(cfg, groups[..i], columns) + [RowOf(cfg, groups[i], columns)]
  {
    if SomeInherits(cfg, groups[..i], columns) {
      var k :| 0 <= k < i && GroupInherits(cfg, groups[..i][k], columns);
      assert GroupInherits(cfg, groups[..i + 1][k], columns);
    }
    if GroupInherits(cfg, groups[i], columns) {
      assert GroupInherits(cfg, groups[..i + 1][i], columns);
    }
  }

  lemma InheritsSoFar(cfg: Config, groups: seq<Group>, columns: seq<seq<Val>>, i: nat)
    requires i <= |groups| && SomeInherits(cfg, groups[..i], columns)
    ensures SomeInherits(cfg, groups, columns)
  {
    var k :| 0 <= k < i && GroupInherits(cfg, groups[..i][k], columns);
    assert GroupInherits(cfg, groups[k], columns);
  }

  /** The second half of `pivotImpl`: columns, then the rows of the table. */
  method BuildTable(cfg: Config, groups: seq<Group>) returns (table: Table)
    requires forall i | 0 <= i < |groups| :: groups[i].entries != []
    ensures table == TableOf(cfg, groups)
  {
    var columns := CollectColumns(cfg, groups);
    var rows: seq<PivotRow> := [];
    var i, threw := 0, false;
    while i < |groups| && !threw
      invariant 0 <= i <= |groups|
      invariant threw <==> SomeInherits(cfg, groups[..i], columns)
      invariant !threw ==> rows == RowsOf(cfg, groups[..i], columns)
      decreases |groups| - i
    {
      NextGroup(cfg, groups, columns, i);
      var cells;
      cells, threw := FillRow(cfg, groups[i], columns);
      rows := rows + [PivotRow(groups[i].entries[0].xValues, cells)];
      i := i + 1;
    }
    if threw {
      InheritsSoFar(cfg, groups, columns, i);
      return Throws;
    }
    assert groups[..i] == groups;
    return Rows(rows);
  }

  lemma GroupedNonEmpty(entries: seq<Entry>)
    ensures forall i | 0 <= i < |Grouped(entries)| :: Grouped(entries)[i].entries != []
  {
    KeysElements(entries);
    forall i | 0 <= i < |Grouped(entries)| ensures Grouped(entries)[i].entries != [] {
      assert Keys(entries)[i] in Keys(entries);
    }
  }

  function PlainGroups(cfg: Config, data: seq<Row>): (g: seq<Group>)
    ensures forall i | 0 <= i < |g| :: g[i].entries != []
  {
    GroupedNonEmpty(Entries(cfg, data));
    Grouped(Entries(cfg, data))
  }

  /** The pivot without gap filling. */
  function PlainPivot(cfg: Config, data: seq<Row>): Table {
    TableOf(cfg, PlainGroups(cfg, data))
  }

  /** The pivot over a time series. */
  function FilledPivot(cfg: Config, data: seq<Row>, series: seq<string>): Table {
    TableOf(cfg, Filled(series, Entries(cfg, data)))
  }

  /** Gap filling applies when the only x value is the only time dimension with a granularity. */
  predicate FillsGaps(cfg: Config, fillMissingDates: bool, timeMembers: seq<string>) {
    fillMissingDates && |cfg.x| == 1 && cfg.x == timeMembers
  }

  /** `pivot` of a single result; the series is absent when no date range is known. */
  method PivotData(cfg: Config, data: seq<Row>, fillMissingDates: bool, timeMembers: seq<string>,
                   series: Option<seq<string>>)
    returns (table: Table)
    ensures table ==
            if FillsGaps(cfg, fillMissingDates, timeMembers) && series.Some? then FilledPivot(cfg, data, series.value)
            else PlainPivot(cfg, data)
  {
    var entries: seq<Entry> := [];
    for i := 0 to |data|
      invariant entries == Entries(cfg, data[..i])
    {
      assert DropLast(data[..i + 1]) == data[..i] && Last(data[..i + 1]) == data[i];
      entries := entries + EntriesOf(data[i], AxisValues(cfg, cfg.x, data[i]));
    }
    assert data[..|data|] == data;
    var groups;
    if FillsGaps(cfg, fillMissingDates, timeMembers) && series.Some? {
      groups := Filled(series.value, entries);
    } else {
      GroupedNonEmpty(entries);
      groups := GroupByToPairs(entries);
    }
    table := BuildTable(cfg, groups);
  }
}
