/**
 What the pivot table of clean data shows, said of the data rows and the table alone: every value stands
 under the values of its own row, in the order of the axes, and rows and columns come in their order.
 */
module PivotTable {
  import opened Wrappers
  import opened Strings
  import opened JsObject
  import opened Pivot
  import opened PivotLossless

  // ---- tuples by position ----

  /** How many of the first i names of an axis are dimensions. */
  function Rank(axis: seq<string>, i: nat): nat
    requires i <= |axis|
  {
    if i == 0 then 0 else Rank(axis, i - 1) + if axis[i - 1] == MEASURES then 0 else 1
  }

  /** The values of a row under the dimensions of an axis, in order, and the measure last if the axis has measures. */
  ghost predicate IsTuple(axis: seq<string>, row: Row, m: string, t: seq<Val>) {
    && |t| == Rank(axis, |axis|) + (if MEASURES in axis then 1 else 0)
    && (forall i | 0 <= i < |axis| && axis[i] != MEASURES :: ValueAt(axis, row, t, i))
    && (MEASURES in axis ==> t[|t| - 1] == Text(m))
  }

  ghost predicate ValueAt(axis: seq<string>, row: Row, t: seq<Val>, i: nat)
    requires i < |axis|
  {
    Rank(axis, i) < |t| && t[Rank(axis, i)] == if axis[i] in row then row[axis[i]] else Null
  }

  lemma {:induction false} RankTail(axis: seq<string>, i: nat)
    requires 0 < i <= |axis|
    ensures Rank(axis, i) == (if axis[0] == MEASURES then 0 else 1) + Rank(axis[1..], i - 1)
  {
    if i > 1 {
      RankTail(axis, i - 1);
    }
  }

  lemma {:induction false} DimensionsLengthIs(axis: seq<string>, row: Row)
    ensures |Dimensions(axis, row)| == Rank(axis, |axis|)
  {
    if axis != [] {
      DimensionsLengthIs(axis[1..], row);
      RankTail(axis, |axis|);
    }
  }

  lemma {:induction false} DimensionAt(axis: seq<string>, row: Row, i: nat)
    requires i < |axis| && axis[i] != MEASURES
    ensures ValueAt(axis, row, Dimensions(axis, row), i)
  {
    if i > 0 {
      DimensionAt(axis[1..], row, i - 1);
      RankTail(axis, i);
      assert ValueAt(axis[1..], row, Dimensions(axis[1..], row), i - 1);
    }
  }

  /** The tuple of the k-th measure is the k-th one; an axis without the measures has one tuple. */
  lemma TupleOfMeasure(cfg: Config, axis: seq<string>, row: Row, k: nat)
    requires k < |cfg.measures| && cfg.measures[k] != ""
    ensures var tuples, n := AxisValues(cfg, axis, row), if MEASURES in axis then k else 0;
            && |tuples| == (if MEASURES in axis then |cfg.measures| else 1)
            && IsTuple(axis, row, cfg.measures[k], tuples[n])
  {
    var n := if MEASURES in axis then k else 0;
    var d, t := Dimensions(axis, row), AxisValues(cfg, axis, row)[n];
    DimensionsLengthIs(axis, row);
    assert t == d + if MEASURES in axis then [Text(cfg.measures[k])] else [];
    forall i | 0 <= i < |axis| && axis[i] != MEASURES ensures ValueAt(axis, row, t, i) {
      DimensionAt(axis, row, i);
    }
  }

  lemma {:induction false} RankOnto(axis: seq<string>, n: nat, r: nat) returns (i: nat)
    requires n <= |axis| && r < Rank(axis, n)
    ensures i < n && axis[i] != MEASURES && Rank(axis, i) == r
  {
    if axis[n - 1] != MEASURES && Rank(axis, n - 1) == r {
      i := n - 1;
    } else {
      i := RankOnto(axis, n - 1, r);
    }
  }

  /** A row and a measure have one tuple. */
  lemma OneTuple(axis: seq<string>, row: Row, m: string, t: seq<Val>, u: seq<Val>)
    requires IsTuple(axis, row, m, t) && IsTuple(axis, row, m, u)
    ensures t == u
  {
    forall r | 0 <= r < |t| ensures t[r] == u[r] {
      if r < Rank(axis, |axis|) {
        var i := RankOnto(axis, |axis|, r);
        assert ValueAt(axis, row, t, i) && ValueAt(axis, row, u, i);
      }
    }
  }

  /** Tuples by position are the tuples the engine walks over. */
  lemma TuplesAre(cfg: Config, axis: seq<string>, row: Row, t: seq<Val>)
    requires WellNamed(cfg)
    ensures t in AxisValues(cfg, axis, row) <==> exists m :: m in cfg.measures && IsTuple(axis, row, m, t)
  {
    if t in AxisValues(cfg, axis, row) {
      var n :| 0 <= n < |AxisValues(cfg, axis, row)| && AxisValues(cfg, axis, row)[n] == t;
      var k := if MEASURES in axis then n else 0;
      assert cfg.measures[k] in cfg.measures;
      TupleOfMeasure(cfg, axis, row, k);
    }
    if m :| m in cfg.measures && IsTuple(axis, row, m, t) {
      var k :| 0 <= k < |cfg.measures| && cfg.measures[k] == m;
      TupleOfMeasure(cfg, axis, row, k);
      var n := if MEASURES in axis then k else 0;
      OneTuple(axis, row, m, t, AxisValues(cfg, axis, row)[n]);
    }
  }

  // ---- the table ----

  /** The value of a measure in a row, or the fill value. */
  function Shown(cfg: Config, row: Row, m: string): Val {
    if m in row && row[m] != Null then row[m] else cfg.fill
  }

  /** The table has the value of a measure of a row, in the table row and the column of that row's values. */
  ghost predicate ShowsValue(cfg: Config, rows: seq<PivotRow>, row: Row, m: string) {
    exists i, j :: 0 <= i < |rows| && 0 <= j < |rows[i].cells| && ShowsAt(cfg, rows, row, m, i, j)
  }

  ghost predicate ShowsAt(cfg: Config, rows: seq<PivotRow>, row: Row, m: string, i: nat, j: nat)
    requires i < |rows| && j < |rows[i].cells|
  {
    && IsTuple(cfg.x, row, m, rows[i].xValues)
    && IsTuple(cfg.y, row, m, rows[i].cells[j].yValues)
    && rows[i].cells[j].value == Shown(cfg, row, m)
  }

  ghost predicate IsClean(cfg: Config, data: seq<Row>) {
    && WellNamed(cfg) && HasFields(data) && DistinctRows(cfg, data)
    && CleanAxis(cfg, cfg.x, data) && CleanAxis(cfg, cfg.y, data)
  }

  /** The measures are on one axis. */
  predicate OneAxis(cfg: Config) {
    MEASURES in cfg.x <==> MEASURES !in cfg.y
  }

  /** The point of a row and a measure, and the value it shows. */
  lemma PointOf(cfg: Config, data: seq<Row>, row: Row, m: string) returns (p: Point)
    requires WellNamed(cfg) && OneAxis(cfg) && row in data && m in cfg.measures
    ensures IsPoint(cfg, data, p) && p.row == row
    ensures IsTuple(cfg.x, row, m, p.x) && IsTuple(cfg.y, row, m, p.y)
    ensures ValueOf(cfg, p) == Shown(cfg, row, m)
  {
    var k :| 0 <= k < |cfg.measures| && cfg.measures[k] == m;
    TupleOfMeasure(cfg, cfg.x, row, k);
    TupleOfMeasure(cfg, cfg.y, row, k);
    p := Point(row, AxisValues(cfg, cfg.x, row)[if MEASURES in cfg.x then k else 0],
               AxisValues(cfg, cfg.y, row)[if MEASURES in cfg.y then k else 0]);
  }

  /** For clean data every value of every row is shown under the values of that row. */
  lemma EveryValueIsShown(cfg: Config, data: seq<Row>, row: Row, m: string)
    requires IsClean(cfg, data) && OneAxis(cfg) && row in data && m in cfg.measures
    ensures PlainPivot(cfg, data).Rows? && ShowsValue(cfg, PlainPivot(cfg, data).rows, row, m)
  {
    CleanPivotIsLossless(cfg, data);
    var rows := PlainPivot(cfg, data).rows;
    var p := PointOf(cfg, data, row, m);
    assert Shows(rows, p.x, p.y, ValueOf(cfg, p));
    var i, j :| 0 <= i < |rows| && 0 <= j < |rows[i].cells| && rows[i].xValues == p.x
                && rows[i].cells[j] == Cell(p.y, ValueOf(cfg, p));
    assert ShowsAt(cfg, rows, row, m, i, j);
  }

  /** A cell stands under the values of a row for a measure. */
  ghost predicate StandsFor(cfg: Config, x: seq<Val>, y: seq<Val>, row: Row, m: string) {
    m in cfg.measures && IsTuple(cfg.x, row, m, x) && IsTuple(cfg.y, row, m, y)
  }

  lemma PointStandsFor(cfg: Config, data: seq<Row>, row: Row, x: seq<Val>, y: seq<Val>)
    requires WellNamed(cfg) && OneAxis(cfg) && row in data
    ensures IsPoint(cfg, data, Point(row, x, y)) <==> exists m :: StandsFor(cfg, x, y, row, m)
    ensures forall m | StandsFor(cfg, x, y, row, m) :: ValueOf(cfg, Point(row, x, y)) == Shown(cfg, row, m)
  {
    TuplesAre(cfg, cfg.x, row, x);
    TuplesAre(cfg, cfg.y, row, y);
    if IsPoint(cfg, data, Point(row, x, y)) {
      var a :| a in cfg.measures && IsTuple(cfg.x, row, a, x);
      var b :| b in cfg.measures && IsTuple(cfg.y, row, b, y);
      var m := if MEASURES in cfg.x then a else b;
      assert StandsFor(cfg, x, y, row, m);
    }
    forall m | StandsFor(cfg, x, y, row, m)
      ensures IsPoint(cfg, data, Point(row, x, y)) && ValueOf(cfg, Point(row, x, y)) == Shown(cfg, row, m)
    {
      var p := PointOf(cfg, data, row, m);
      OneTuple(cfg.x, row, m, p.x, x);
      OneTuple(cfg.y, row, m, p.y, y);
    }
  }

  /** Nothing else is shown: a cell has the value of a row and a measure it stands for, or else the fill value. */
  lemma EveryCellIsData(cfg: Config, data: seq<Row>, i: nat, j: nat)
    requires IsClean(cfg, data) && OneAxis(cfg) && PlainPivot(cfg, data).Rows?
    requires var rows := PlainPivot(cfg, data).rows; i < |rows| && j < |rows[i].cells|
    ensures var x, c := PlainPivot(cfg, data).rows[i].xValues, PlainPivot(cfg, data).rows[i].cells[j];
            || (exists row, m :: row in data && StandsFor(cfg, x, c.yValues, row, m) && c.value == Shown(cfg, row, m))
            || (c.value == cfg.fill && forall row, m | row in data :: !StandsFor(cfg, x, c.yValues, row, m))
  {
    CleanPivotIsLossless(cfg, data);
    var x, c := PlainPivot(cfg, data).rows[i].xValues, PlainPivot(cfg, data).rows[i].cells[j];
    assert CellIsData(cfg, data, x, c);
    forall row | row in data
      ensures IsPoint(cfg, data, Point(row, x, c.yValues)) <==> exists m :: StandsFor(cfg, x, c.yValues, row, m)
      ensures forall m | StandsFor(cfg, x, c.yValues, row, m) ::
                ValueOf(cfg, Point(row, x, c.yValues)) == Shown(cfg, row, m)
    {
      PointStandsFor(cfg, data, row, x, c.yValues);
    }
  }

  // ---- order ----

  /** Where a key appears first. */
  ghost predicate FirstAt(entries: seq<Entry>, k: string, n: nat) {
    && n < |entries| && AxisString(entries[n].xValues) == k
    && forall i | 0 <= i < n :: AxisString(entries[i].xValues) != k
  }

  /** The table rows are in the order in which their x values appear in the data. */
  lemma {:induction false} KeysInOrder(entries: seq<Entry>, a: nat, b: nat, m: nat, n: nat)
    requires a < b < |Keys(entries)|
    requires FirstAt(entries, Keys(entries)[a], m) && FirstAt(entries, Keys(entries)[b], n)
    ensures m < n
  {
    var init := DropLast(entries);
    KeysElements(init);
    KeysElements(entries);
    var ka, kb := Keys(entries)[a], Keys(entries)[b];
    assert ka in Keys(init);
    FirstOfKey(init, ka, m, entries);
    if b < |Keys(init)| {
      assert kb in Keys(init);
      FirstOfKey(init, kb, n, entries);
      KeysInOrder(init, a, b, m, n);
    } else {
      assert forall i | 0 <= i < |init| :: init[i] in init;
    }
  }

  lemma FirstOfKey(init: seq<Entry>, k: string, n: nat, entries: seq<Entry>)
    requires entries != [] && init == DropLast(entries) && k in Keys(init) && FirstAt(entries, k, n)
    ensures FirstAt(init, k, n)
  {
    KeysElements(init);
    var e := Members(init, k)[0];
    assert e in Members(init, k);
    var i :| 0 <= i < |init| && init[i] == e;
  }

  /** A cell takes the last row of its group that has the column. */
  lemma {:induction false} LastRowIs(cfg: Config, entries: seq<Entry>, key: string, n: nat)
    requires n < |entries| && HasKey(cfg, entries[n].row, key)
    requires forall i | n < i < |entries| :: !HasKey(cfg, entries[i].row, key)
    ensures LastRow(cfg, entries, key) == Some(entries[n].row)
  {
    if n < |entries| - 1 {
      LastRowIs(cfg, DropLast(entries), key, n);
    }
  }

  /** A column's tuple is the last one of its key. */
  lemma {:induction false} LastTupleIs(tuples: seq<seq<Val>>, k: string, n: nat)
    requires n < |tuples| && ColumnKey(tuples[n]) == k
    requires forall i | n < i < |tuples| :: ColumnKey(tuples[i]) != k
    ensures LastTuple(tuples, k) == tuples[n]
  {
    if n < |tuples| - 1 {
      LastTupleIs(DropLast(tuples), k, n);
    }
  }

  /** The names of the columns are collected in the order of their first tuples. */
  lemma {:induction false} ColumnNamesInOrder(tuples: seq<seq<Val>>, a: nat, b: nat, n: nat)
    requires a < b < |ColumnNames(tuples)| && n < |tuples| && ColumnKey(tuples[n]) == ColumnNames(tuples)[b]
    ensures exists m :: 0 <= m < n && ColumnKey(tuples[m]) == ColumnNames(tuples)[a]
  {
    var init := DropLast(tuples);
    ColumnNamesElements(init);
    ColumnNamesElements(tuples);
    if n < |init| {
      assert init[n] in init;
      assert ColumnNames(tuples)[b] in ColumnNames(init);
      assert b < |ColumnNames(init)|;
      ColumnNamesInOrder(init, a, b, n);
    } else {
      var k := ColumnNames(tuples)[a];
      assert a < |ColumnNames(init)| && k == ColumnNames(init)[a];
      assert LastTuple(init, k) in init;
      var m :| 0 <= m < |init| && init[m] == LastTuple(init, k);
      assert ColumnKey(tuples[m]) == k;
    }
  }

  // ---- strings of tuples, and when gaps are filled ----

  /** Null and the sign for it share a row, and so do the empty text and its sign; null and the empty text do not. */
  lemma SignsMeet()
    ensures AxisString([Null]) == AxisString([Text("∅")]) == "∅"
    ensures AxisString([Text("")]) == AxisString([Text("[Empty string]")]) == "[Empty string]"
    ensures ColumnKey([Null]) == ColumnKey([Text("")]) == ""
  {
  }

  /** Gaps are filled when they may be and x is the one time member of the query, alone. */
  lemma FillsGapsIff(cfg: Config, fillMissingDates: bool, timeMembers: seq<string>)
    ensures FillsGaps(cfg, fillMissingDates, timeMembers) <==>
            fillMissingDates && exists t :: cfg.x == [t] && timeMembers == [t]
  {
    if FillsGaps(cfg, fillMissingDates, timeMembers) {
      assert cfg.x == [cfg.x[0]] && timeMembers == [cfg.x[0]];
    }
  }
}
