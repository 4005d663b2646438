/** When the pivot keeps every value of the data, and what gap filling adds. */
module PivotLossless {
  import opened Wrappers
  import opened Strings
  import opened JsObject
  import opened Pivot

  /** A data row seen at one of its x tuples and one of its y tuples: the place of one value in the table. */
  datatype Point = Point(row: Row, x: seq<Val>, y: seq<Val>)

  ghost predicate IsPoint(cfg: Config, data: seq<Row>, p: Point) {
    p.row in data && p.x in AxisValues(cfg, cfg.x, p.row) && p.y in AxisValues(cfg, cfg.y, p.row)
  }

  /** The value a point is to show: its measure, or the fill value for null. */
  function ValueOf(cfg: Config, p: Point): Val {
    MeasureValue(cfg, p.row, Measure(cfg, p.x, p.y))
  }

  ghost predicate Shows(rows: seq<PivotRow>, x: seq<Val>, y: seq<Val>, v: Val) {
    exists i, j ::
      0 <= i < |rows| && 0 <= j < |rows[i].cells| && rows[i].xValues == x && rows[i].cells[j] == Cell(y, v)
  }

  /** Every value of the data is in the table, at its own x and y. */
  ghost predicate Lossless(cfg: Config, data: seq<Row>, rows: seq<PivotRow>) {
    forall p | IsPoint(cfg, data, p) :: Shows(rows, p.x, p.y, ValueOf(cfg, p))
  }

  /** What queries guarantee: the measures are on an axis, and their names are not empty and hold no comma. */
  ghost predicate WellNamed(cfg: Config) {
    && |cfg.measures| > 0
    && (MEASURES in cfg.x || MEASURES in cfg.y)
    && (forall m | m in cfg.measures :: m != "" && ',' !in m)
  }

  ghost predicate HasFields(data: seq<Row>) {
    forall row | row in data :: |row| > 0
  }

  // ---- the conditions on the axis values ----

  ghost predicate RowsApart(cfg: Config, data: seq<Row>) {
    forall p, q | IsPoint(cfg, data, p) && IsPoint(cfg, data, q) :: AxisString(p.x) == AxisString(q.x) ==> p.x == q.x
  }

  ghost predicate ColumnsApart(cfg: Config, data: seq<Row>) {
    forall p, q | IsPoint(cfg, data, p) && IsPoint(cfg, data, q) :: ColumnKey(p.y) == ColumnKey(q.y) ==> p.y == q.y
  }

  /** Rows that meet in one cell show the same value there. */
  ghost predicate CellsAgree(cfg: Config, data: seq<Row>) {
    forall p, q | IsPoint(cfg, data, p) && IsPoint(cfg, data, q) ::
      p.x == q.x && AxisString(p.y) == AxisString(q.y) ==>
        MeasureValue(cfg, q.row, Measure(cfg, p.x, p.y)) == ValueOf(cfg, p)
  }

  ghost predicate NoProtoColumn(cfg: Config, data: seq<Row>) {
    forall p | IsPoint(cfg, data, p) :: ColumnKey(p.y) != PROTO
  }

  // ---- from the table back to the data ----

  lemma {:induction false} EntriesElements(cfg: Config, data: seq<Row>)
    ensures forall e :: e in Entries(cfg, data) <==> e.row in data && e.xValues in AxisValues(cfg, cfg.x, e.row)
  {
    if data != [] {
      var last := Last(data);
      EntriesElements(cfg, DropLast(data));
      assert data == DropLast(data) + [last];
      var tuples := AxisValues(cfg, cfg.x, last);
      forall e ensures e in EntriesOf(last, tuples) <==> e.row == last && e.xValues in tuples {
        if e.row == last && e.xValues in tuples {
          var i :| 0 <= i < |tuples| && tuples[i] == e.xValues;
          assert EntriesOf(last, tuples)[i] == e;
        }
      }
    }
  }

  /** The x tuple of an entry belongs to some point. */
  lemma PointOfEntry(cfg: Config, data: seq<Row>, e: Entry) returns (p: Point)
    requires e in Entries(cfg, data)
    ensures IsPoint(cfg, data, p) && p.row == e.row && p.x == e.xValues
  {
    EntriesElements(cfg, data);
    p := Point(e.row, e.xValues, AxisValues(cfg, cfg.y, e.row)[0]);
  }

  lemma {:induction false} TuplesOfElements(cfg: Config, entries: seq<Entry>, t: seq<Val>)
    ensures t in TuplesOf(cfg, entries) <==>
            exists e :: e in entries && |e.row| > 0 && t in AxisValues(cfg, cfg.y, e.row)
  {
    if entries != [] {
      TuplesOfElements(cfg, DropLast(entries), t);
      assert entries == DropLast(entries) + [Last(entries)];
    }
  }

  lemma {:induction false} TuplesElements(cfg: Config, groups: seq<Group>, t: seq<Val>)
    ensures t in Tuples(cfg, groups) <==>
            exists g, e :: g in groups && e in g.entries && |e.row| > 0 && t in AxisValues(cfg, cfg.y, e.row)
  {
    if groups != [] {
      TuplesElements(cfg, DropLast(groups), t);
      TuplesOfElements(cfg, Last(groups).entries, t);
      assert groups == DropLast(groups) + [Last(groups)];
    }
  }

  lemma {:induction false} LastRowElements(cfg: Config, entries: seq<Entry>, key: string)
    ensures match LastRow(cfg, entries, key)
            case Some(row) => exists e :: e in entries && e.row == row && HasKey(cfg, row, key)
            case None => forall e | e in entries :: !HasKey(cfg, e.row, key)
  {
    if entries != [] {
      LastRowElements(cfg, DropLast(entries), key);
      assert entries == DropLast(entries) + [Last(entries)];
    }
  }

  /** The group of a point: all its entries share the string of the x tuple. */
  lemma GroupOf(cfg: Config, data: seq<Row>, p: Point) returns (i: nat)
    requires IsPoint(cfg, data, p)
    ensures i < |PlainGroups(cfg, data)|
    ensures var g := PlainGroups(cfg, data)[i];
            && Entry(p.x, p.row) in g.entries
            && forall e | e in g.entries :: e in Entries(cfg, data) && AxisString(e.xValues) == AxisString(p.x)
  {
    var entries := Entries(cfg, data);
    EntriesElements(cfg, data);
    KeysElements(entries);
    var e := Entry(p.x, p.row);
    assert e in Members(entries, AxisString(p.x));
    i :| 0 <= i < |Keys(entries)| && Keys(entries)[i] == AxisString(p.x);
  }

  lemma GroupEntry(cfg: Config, data: seq<Row>, i: nat, e: Entry)
    requires i < |PlainGroups(cfg, data)| && e in PlainGroups(cfg, data)[i].entries
    ensures e in Entries(cfg, data) && AxisString(e.xValues) == Keys(Entries(cfg, data))[i]
  {
    KeysElements(Entries(cfg, data));
  }

  lemma GroupsApart(cfg: Config, data: seq<Row>, i: nat, j: nat)
    requires i < |PlainGroups(cfg, data)| && j < |PlainGroups(cfg, data)|
    requires AxisString(PlainGroups(cfg, data)[i].entries[0].xValues) ==
        AxisString(PlainGroups(cfg, data)[j].entries[0].xValues)
    ensures i == j
  {
    GroupEntry(cfg, data, i, PlainGroups(cfg, data)[i].entries[0]);
    GroupEntry(cfg, data, j, PlainGroups(cfg, data)[j].entries[0]);
    KeysElements(Entries(cfg, data));
  }

  function ColumnsOf(cfg: Config, data: seq<Row>): seq<seq<Val>> {
    Columns(Tuples(cfg, PlainGroups(cfg, data)))
  }

  lemma TupleOfPoint(cfg: Config, data: seq<Row>, p: Point)
    requires IsPoint(cfg, data, p) && HasFields(data)
    ensures p.y in Tuples(cfg, PlainGroups(cfg, data))
  {
    var i := GroupOf(cfg, data, p);
    TuplesElements(cfg, PlainGroups(cfg, data), p.y);
    assert PlainGroups(cfg, data)[i] in PlainGroups(cfg, data);
  }

  lemma PointOfTuple(cfg: Config, data: seq<Row>, t: seq<Val>) returns (p: Point)
    requires t in Tuples(cfg, PlainGroups(cfg, data))
    ensures IsPoint(cfg, data, p) && p.y == t
  {
    var groups := PlainGroups(cfg, data);
    TuplesElements(cfg, groups, t);
    var g, e :| g in groups && e in g.entries && |e.row| > 0 && t in AxisValues(cfg, cfg.y, e.row);
    var i :| 0 <= i < |groups| && groups[i] == g;
    GroupEntry(cfg, data, i, e);
    EntriesElements(cfg, data);
    p := Point(e.row, e.xValues, t);
  }

  /** The columns are y tuples of points, and their keys are pairwise different. */
  lemma ColumnFacts(cfg: Config, data: seq<Row>)
    ensures forall i, j | 0 <= i < |ColumnsOf(cfg, data)| && 0 <= j < |ColumnsOf(cfg, data)| ::
              ColumnKey(ColumnsOf(cfg, data)[i]) == ColumnKey(ColumnsOf(cfg, data)[j]) ==> i == j
    ensures forall c | c in ColumnsOf(cfg, data) :: ColumnKey(c) != PROTO && c in Tuples(cfg, PlainGroups(cfg, data))
  {
    ColumnsElements(Tuples(cfg, PlainGroups(cfg, data)));
    var cols := ColumnsOf(cfg, data);
    forall i, j | 0 <= i < |cols| && 0 <= j < |cols| ensures ColumnKey(cols[i]) == ColumnKey(cols[j]) ==> i == j {
      if i < j {
        assert ColumnKey(cols[i]) != ColumnKey(cols[j]);
      } else if j < i {
        assert ColumnKey(cols[j]) != ColumnKey(cols[i]);
      }
    }
  }

  lemma ColumnOf(cfg: Config, data: seq<Row>, p: Point) returns (j: nat)
    requires IsPoint(cfg, data, p) && HasFields(data) && ColumnKey(p.y) != PROTO
    ensures j < |ColumnsOf(cfg, data)| && ColumnKey(ColumnsOf(cfg, data)[j]) == ColumnKey(p.y)
  {
    TupleOfPoint(cfg, data, p);
    ColumnsElements(Tuples(cfg, PlainGroups(cfg, data)));
    j :| 0 <= j < |ColumnsOf(cfg, data)| && ColumnKey(ColumnsOf(cfg, data)[j]) == ColumnKey(p.y);
  }

  lemma HasOwnKey(cfg: Config, row: Row, y: seq<Val>)
    requires y in AxisValues(cfg, cfg.y, row)
    ensures HasKey(cfg, row, AxisString(y))
  {
    var i :| 0 <= i < |AxisValues(cfg, cfg.y, row)| && AxisValues(cfg, cfg.y, row)[i] == y;
  }

  /** The row a cell is taken from, as a point of the same group. */
  lemma WinnerOf(cfg: Config, data: seq<Row>, i: nat, key: string, row: Row) returns (q: Point)
    requires i < |PlainGroups(cfg, data)|
    requires LastRow(cfg, PlainGroups(cfg, data)[i].entries, key) == Some(row)
    ensures IsPoint(cfg, data, q) && q.row == row && AxisString(q.y) == key
    ensures AxisString(q.x) == Keys(Entries(cfg, data))[i]
  {
    var entries := PlainGroups(cfg, data)[i].entries;
    LastRowElements(cfg, entries, key);
    var e :| e in entries && e.row == row && HasKey(cfg, row, key);
    var t :| 0 <= t < |AxisValues(cfg, cfg.y, row)| && AxisString(AxisValues(cfg, cfg.y, row)[t]) == key;
    GroupEntry(cfg, data, i, e);
    EntriesElements(cfg, data);
    q := Point(row, e.xValues, AxisValues(cfg, cfg.y, row)[t]);
  }

  /** The winner of the cell a point looks at exists. */
  lemma SomeWinner(cfg: Config, data: seq<Row>, i: nat, p: Point)
    requires i < |PlainGroups(cfg, data)| && IsPoint(cfg, data, p)
    requires Entry(p.x, p.row) in PlainGroups(cfg, data)[i].entries
    ensures LastRow(cfg, PlainGroups(cfg, data)[i].entries, AxisString(p.y)).Some?
  {
    HasOwnKey(cfg, p.row, p.y);
    LastRowElements(cfg, PlainGroups(cfg, data)[i].entries, AxisString(p.y));
  }

  /** Under the conditions, a point is shown where its group and its column meet. */
  lemma PointIsShown(cfg: Config, data: seq<Row>, p: Point)
    requires HasFields(data) && PlainPivot(cfg, data).Rows?
    requires RowsApart(cfg, data) && ColumnsApart(cfg, data) && CellsAgree(cfg, data) && NoProtoColumn(cfg, data)
    requires IsPoint(cfg, data, p)
    ensures Shows(PlainPivot(cfg, data).rows, p.x, p.y, ValueOf(cfg, p))
  {
    var rows := PlainPivot(cfg, data).rows;
    var i := GroupOf(cfg, data, p);
    var j := ColumnOf(cfg, data, p);
    var g, column := PlainGroups(cfg, data)[i], ColumnsOf(cfg, data)[j];

    var first := PointOfEntry(cfg, data, g.entries[0]);
    assert g.entries[0].xValues == p.x;
    ColumnFacts(cfg, data);
    var same := PointOfTuple(cfg, data, column);
    assert column == p.y;

    SomeWinner(cfg, data, i, p);
    var winner := LastRow(cfg, g.entries, AxisString(p.y)).value;
    var q := WinnerOf(cfg, data, i, AxisString(p.y), winner);
    GroupEntry(cfg, data, i, Entry(p.x, p.row));
    assert q.x == p.x;
    assert CellValue(cfg, g, column) == ValueOf(cfg, p);
    assert rows[i].cells[j] == Cell(p.y, ValueOf(cfg, p));
  }

  // ---- the conditions are necessary ----

  /** Where a point is shown: at its group, in a column of its key. */
  lemma ShownAt(cfg: Config, data: seq<Row>, x: seq<Val>, y: seq<Val>, v: Val) returns (i: nat, j: nat)
    requires PlainPivot(cfg, data).Rows? && Shows(PlainPivot(cfg, data).rows, x, y, v)
    ensures i < |PlainGroups(cfg, data)| && j < |ColumnsOf(cfg, data)|
    ensures PlainGroups(cfg, data)[i].entries[0].xValues == x && ColumnsOf(cfg, data)[j] == y
    ensures CellValue(cfg, PlainGroups(cfg, data)[i], y) == v
  {
    var rows := PlainPivot(cfg, data).rows;
    i, j :| 0 <= i < |rows| && 0 <= j < |rows[i].cells| && rows[i].xValues == x && rows[i].cells[j] == Cell(y, v);
  }

  lemma {:induction false} DimensionsLength(axis: seq<string>, a: Row, b: Row)
    ensures |Dimensions(axis, a)| == |Dimensions(axis, b)|
  {
    if axis != [] {
      DimensionsLength(axis[1..], a, b);
    }
  }

  lemma {:induction false} JoinSnoc(a: seq<string>, m: string, d: string)
    requires a != []
    ensures Join(a + [m], d) == Join(a, d) + d + m
  {
    assert (a + [m])[0] == a[0] && (a + [m])[1..] == a[1..] + [m];
    if |a| > 1 {
      JoinSnoc(a[1..], m, d);
      assert a[0] + d + (Join(a[1..], d) + d + m) == (a[0] + d + Join(a[1..], d)) + d + m;
    }
  }

  /** What follows the last ", " is the same text. */
  lemma SuffixEqual(a: string, b: string, m: string, n: string)
    requires ',' !in m && ',' !in n && a + ", " + m == b + ", " + n
    ensures m == n
  {
    var s, k, l := a + ", " + m, |a|, |b|;
    assert s[k] == ',' && s[l] == ',';
    assert s[k + 1] == ' ' && s[l + 1] == ' ';
    assert m == s[k + 2..] && n == s[l + 2..];
    forall t | k + 2 <= t < |s| ensures s[t] != ',' {
      assert s[t] == m[t - k - 2] && m[t - k - 2] in m;
    }
    forall t | l + 2 <= t < |s| ensures s[t] != ',' {
      assert s[t] == n[t - l - 2] && n[t - l - 2] in n;
    }
  }

  lemma JoinLastEqual(a: seq<string>, b: seq<string>, m: string, n: string)
    requires |a| == |b| && ',' !in m && ',' !in n
    requires Join(a + [m], ", ") == Join(b + [n], ", ")
    ensures m == n
  {
    if a == [] {
      assert a + [m] == [m] && b + [n] == [n];
    } else {
      JoinSnoc(a, m, ", ");
      JoinSnoc(b, n, ", ");
      SuffixEqual(Join(a, ", "), Join(b, ", "), m, n);
    }
  }

  lemma MeasureOfTuple(cfg: Config, axis: seq<string>, row: Row, t: seq<Val>) returns (m: string)
    requires WellNamed(cfg) && MEASURES in axis && t in AxisValues(cfg, axis, row)
    ensures m in cfg.measures && t == Dimensions(axis, row) + [Text(m)]
  {
    var i :| 0 <= i < |AxisValues(cfg, axis, row)| && AxisValues(cfg, axis, row)[i] == t;
    m := cfg.measures[i];
  }

  /** Points that meet in one cell ask for the same measure. */
  lemma MeasureSame(cfg: Config, data: seq<Row>, p: Point, q: Point)
    requires WellNamed(cfg) && IsPoint(cfg, data, p) && IsPoint(cfg, data, q)
    requires p.x == q.x && AxisString(p.y) == AxisString(q.y)
    ensures Measure(cfg, p.x, p.y) == Measure(cfg, q.x, q.y)
  {
    if MEASURES !in cfg.x {
      var m := MeasureOfTuple(cfg, cfg.y, p.row, p.y);
      var n := MeasureOfTuple(cfg, cfg.y, q.row, q.y);
      DimensionsLength(cfg.y, p.row, q.row);
      var a, b := Formats(Dimensions(cfg.y, p.row)), Formats(Dimensions(cfg.y, q.row));
      assert Formats(p.y) == a + [m] && Formats(q.y) == b + [n];
      JoinLastEqual(a, b, m, n);
    }
  }

  lemma NecessaryConditions(cfg: Config, data: seq<Row>)
    requires WellNamed(cfg) && PlainPivot(cfg, data).Rows? && Lossless(cfg, data, PlainPivot(cfg, data).rows)
    ensures RowsApart(cfg, data) && ColumnsApart(cfg, data) && CellsAgree(cfg, data) && NoProtoColumn(cfg, data)
  {
    ColumnFacts(cfg, data);
    forall p | IsPoint(cfg, data, p) ensures ColumnKey(p.y) != PROTO {
      var i, j := ShownAt(cfg, data, p.x, p.y, ValueOf(cfg, p));
      assert ColumnsOf(cfg, data)[j] in ColumnsOf(cfg, data);
    }
    forall p, q | IsPoint(cfg, data, p) && IsPoint(cfg, data, q)
      ensures AxisString(p.x) == AxisString(q.x) ==> p.x == q.x
      ensures ColumnKey(p.y) == ColumnKey(q.y) ==> p.y == q.y
      ensures p.x == q.x && AxisString(p.y) == AxisString(q.y) ==>
                MeasureValue(cfg, q.row, Measure(cfg, p.x, p.y)) == ValueOf(cfg, p)
    {
      var i, j := ShownAt(cfg, data, p.x, p.y, ValueOf(cfg, p));
      var k, l := ShownAt(cfg, data, q.x, q.y, ValueOf(cfg, q));
      if AxisString(p.x) == AxisString(q.x) {
        GroupsApart(cfg, data, i, k);
        if p.x == q.x && AxisString(p.y) == AxisString(q.y) {
          MeasureSame(cfg, data, p, q);
        }
      }
    }
  }

  /**
   The pivot loses nothing if and only if different x tuples have different strings, different y tuples
   have different keys, rows that meet in a cell agree, and no y tuple is called __proto__.
   */
  lemma LosslessIff(cfg: Config, data: seq<Row>)
    requires WellNamed(cfg) && HasFields(data) && PlainPivot(cfg, data).Rows?
    ensures Lossless(cfg, data, PlainPivot(cfg, data).rows) <==>
            RowsApart(cfg, data) && ColumnsApart(cfg, data) && CellsAgree(cfg, data) && NoProtoColumn(cfg, data)
  {
    if RowsApart(cfg, data) && ColumnsApart(cfg, data) && CellsAgree(cfg, data) && NoProtoColumn(cfg, data) {
      forall p | IsPoint(cfg, data, p) ensures Shows(PlainPivot(cfg, data).rows, p.x, p.y, ValueOf(cfg, p)) {
        PointIsShown(cfg, data, p);
      }
    }
    if Lossless(cfg, data, PlainPivot(cfg, data).rows) {
      NecessaryConditions(cfg, data);
    }
  }

  // ---- when the pivot throws ----

  ghost predicate MeetsKey(cfg: Config, data: seq<Row>, x: string, key: string) {
    exists r :: IsPoint(cfg, data, r) && AxisString(r.x) == x && AxisString(r.y) == key
  }

  lemma MeetsKeyIff(cfg: Config, data: seq<Row>, i: nat, key: string)
    requires i < |PlainGroups(cfg, data)|
    ensures LastRow(cfg, PlainGroups(cfg, data)[i].entries, key).Some? <==>
            MeetsKey(cfg, data, Keys(Entries(cfg, data))[i], key)
  {
    var g, x := PlainGroups(cfg, data)[i], Keys(Entries(cfg, data))[i];
    match LastRow(cfg, g.entries, key) {
      case Some(row) =>
        var q := WinnerOf(cfg, data, i, key, row);
      case None =>
        if MeetsKey(cfg, data, x, key) {
          var r :| IsPoint(cfg, data, r) && AxisString(r.x) == x && AxisString(r.y) == key;
          var k := GroupOf(cfg, data, r);
          GroupEntry(cfg, data, k, Entry(r.x, r.row));
          KeysElements(Entries(cfg, data));
          assert k == i;
          SomeWinner(cfg, data, i, r);
        }
    }
  }

  lemma InheritedNamesHaveNoComma(n: string)
    requires n in PROTOTYPE_NAMES
    ensures ',' !in n && n != "" && n != "∅" && n != "[Empty string]"
  {
  }

  lemma LongTupleHasComma(t: seq<Val>)
    requires |t| > 1
    ensures ',' in AxisString(t) && ',' in ColumnKey(t)
  {
    assert AxisString(t)[|Formats(t)[0]|] == ',';
    assert ColumnKey(t)[|Plains(t)[0]|] == ',';
  }

  /** A y tuple called like an inherited name, by either of its strings, is a single text. */
  lemma InheritedTuple(t: seq<Val>)
    requires AxisString(t) in PROTOTYPE_NAMES || ColumnKey(t) in PROTOTYPE_NAMES
    ensures |t| == 1 && t[0].Text? && AxisString(t) == ColumnKey(t) == t[0].text
  {
    if |t| > 1 {
      LongTupleHasComma(t);
    }
    if AxisString(t) in PROTOTYPE_NAMES {
      InheritedNamesHaveNoComma(AxisString(t));
    } else {
      InheritedNamesHaveNoComma(ColumnKey(t));
    }
  }

  /**
   Some column is called like a name every object inherits, and some x value has no row for it. There
   is no column called __proto__.
   */
  ghost predicate MeetsInherited(cfg: Config, data: seq<Row>) {
    exists p, q ::
      && IsPoint(cfg, data, p) && IsPoint(cfg, data, q)
      && AxisString(p.y) in PROTOTYPE_NAMES && AxisString(p.y) != PROTO
      && !MeetsKey(cfg, data, AxisString(q.x), AxisString(p.y))
  }

  lemma ThrowingCell(cfg: Config, data: seq<Row>)
    requires SomeInherits(cfg, PlainGroups(cfg, data), ColumnsOf(cfg, data))
    ensures MeetsInherited(cfg, data)
  {
    var groups, cols := PlainGroups(cfg, data), ColumnsOf(cfg, data);
    var i :| 0 <= i < |groups| && GroupInherits(cfg, groups[i], cols);
    var j :| 0 <= j < |cols| && Inherits(cfg, groups[i], cols[j]);
    InheritedTuple(cols[j]);
    ColumnFacts(cfg, data);
    var p := PointOfTuple(cfg, data, cols[j]);
    GroupEntry(cfg, data, i, groups[i].entries[0]);
    var q := PointOfEntry(cfg, data, groups[i].entries[0]);
    MeetsKeyIff(cfg, data, i, AxisString(p.y));
  }

  lemma InheritedIsRead(cfg: Config, data: seq<Row>, p: Point, q: Point)
    requires HasFields(data)
    requires IsPoint(cfg, data, p) && IsPoint(cfg, data, q)
    requires AxisString(p.y) in PROTOTYPE_NAMES && AxisString(p.y) != PROTO
    requires !MeetsKey(cfg, data, AxisString(q.x), AxisString(p.y))
    ensures SomeInherits(cfg, PlainGroups(cfg, data), ColumnsOf(cfg, data))
  {
    var groups, cols := PlainGroups(cfg, data), ColumnsOf(cfg, data);
    var i := GroupOf(cfg, data, q);
    GroupEntry(cfg, data, i, Entry(q.x, q.row));
    InheritedTuple(p.y);
    var j := ColumnOf(cfg, data, p);
    InheritedTuple(cols[j]);
    MeetsKeyIff(cfg, data, i, AxisString(p.y));
    assert Inherits(cfg, groups[i], cols[j]);
    assert GroupInherits(cfg, groups[i], cols);
  }

  /**
   The pivot throws exactly when some column is called like a name every object inherits and some x
   value has no row for that column.
   */
  lemma ThrowsIff(cfg: Config, data: seq<Row>)
    requires HasFields(data)
    ensures PlainPivot(cfg, data).Throws? <==> MeetsInherited(cfg, data)
  {
    if SomeInherits(cfg, PlainGroups(cfg, data), ColumnsOf(cfg, data)) {
      ThrowingCell(cfg, data);
    }
    if p, q :| IsPoint(cfg, data, p) && IsPoint(cfg, data, q)
               && AxisString(p.y) in PROTOTYPE_NAMES && AxisString(p.y) != PROTO
               && !MeetsKey(cfg, data, AxisString(q.x), AxisString(p.y)) {
      InheritedIsRead(cfg, data, p, q);
    }
  }

  // ---- ordinary data ----

  predicate CleanValue(v: Val) {
    v.Text? && v.text != "" && ',' !in v.text && v.text !in PROTOTYPE_NAMES
  }

  ghost predicate CleanTuple(t: seq<Val>) {
    forall i | 0 <= i < |t| :: CleanValue(t[i])
  }

  ghost predicate CleanAxis(cfg: Config, axis: seq<string>, data: seq<Row>) {
    && (forall row, d | row in data && d in axis && d != MEASURES :: CleanValue(Field(row, d)))
    && (forall m | m in cfg.measures :: m !in PROTOTYPE_NAMES)
  }

  /** Different rows differ in their x or in their y values. */
  ghost predicate DistinctRows(cfg: Config, data: seq<Row>) {
    forall p, q | IsPoint(cfg, data, p) && IsPoint(cfg, data, q) :: p.x == q.x && p.y == q.y ==> p.row == q.row
  }

  lemma {:induction false} CleanDimensions(axis: seq<string>, row: Row)
    requires forall d | d in axis && d != MEASURES :: CleanValue(Field(row, d))
    ensures CleanTuple(Dimensions(axis, row))
  {
    if axis != [] {
      CleanDimensions(axis[1..], row);
    }
  }

  lemma AxisTuple(cfg: Config, axis: seq<string>, data: seq<Row>, row: Row, t: seq<Val>)
    requires WellNamed(cfg) && CleanAxis(cfg, axis, data) && row in data && t in AxisValues(cfg, axis, row)
    ensures CleanTuple(t) && |t| == |Dimensions(axis, row)| + if MEASURES in axis then 1 else 0
  {
    CleanDimensions(axis, row);
    if MEASURES in axis {
      var m := MeasureOfTuple(cfg, axis, row, t);
    }
  }

  lemma CleanStringsApart(a: seq<Val>, b: seq<Val>)
    requires CleanTuple(a) && CleanTuple(b) && |a| == |b|
    ensures AxisString(a) == AxisString(b) ==> a == b
    ensures ColumnKey(a) == ColumnKey(b) ==> a == b
  {
    forall i | 0 <= i < |a| ensures Formats(a)[i] == a[i].text && Plains(a)[i] == a[i].text {
      assert CleanValue(a[i]);
    }
    forall i | 0 <= i < |b| ensures Formats(b)[i] == b[i].text && Plains(b)[i] == b[i].text {
      assert CleanValue(b[i]);
    }
    if AxisString(a) == AxisString(b) {
      JoinInjective(Formats(a), Formats(b), ", ");
      assert forall i | 0 <= i < |a| :: Formats(a)[i] == Formats(b)[i];
    }
    if ColumnKey(a) == ColumnKey(b) {
      JoinInjective(Plains(a), Plains(b), ",");
      assert forall i | 0 <= i < |a| :: Plains(a)[i] == Plains(b)[i];
    }
  }

  lemma CleanStringNotInherited(t: seq<Val>)
    requires CleanTuple(t)
    ensures AxisString(t) !in PROTOTYPE_NAMES && ColumnKey(t) != PROTO
  {
    if |t| == 1 {
      assert CleanValue(t[0]);
    } else if |t| > 1 {
      LongTupleHasComma(t);
      if AxisString(t) in PROTOTYPE_NAMES {
        InheritedNamesHaveNoComma(AxisString(t));
      }
      InheritedNamesHaveNoComma(PROTO);
    }
  }

  lemma CleanYs(cfg: Config, data: seq<Row>, p: Point, q: Point)
    requires WellNamed(cfg) && CleanAxis(cfg, cfg.y, data) && IsPoint(cfg, data, p) && IsPoint(cfg, data, q)
    ensures AxisString(p.y) == AxisString(q.y) ==> p.y == q.y
    ensures ColumnKey(p.y) == ColumnKey(q.y) ==> p.y == q.y
    ensures AxisString(p.y) !in PROTOTYPE_NAMES && ColumnKey(p.y) != PROTO
  {
    AxisTuple(cfg, cfg.y, data, p.row, p.y);
    AxisTuple(cfg, cfg.y, data, q.row, q.y);
    DimensionsLength(cfg.y, p.row, q.row);
    CleanStringsApart(p.y, q.y);
    CleanStringNotInherited(p.y);
  }

  lemma CleanXs(cfg: Config, data: seq<Row>, p: Point, q: Point)
    requires WellNamed(cfg) && CleanAxis(cfg, cfg.x, data) && IsPoint(cfg, data, p) && IsPoint(cfg, data, q)
    ensures AxisString(p.x) == AxisString(q.x) ==> p.x == q.x
  {
    AxisTuple(cfg, cfg.x, data, p.row, p.x);
    AxisTuple(cfg, cfg.x, data, q.row, q.x);
    DimensionsLength(cfg.x, p.row, q.row);
    CleanStringsApart(p.x, q.x);
  }

  /** Each x tuple labels one row and each y tuple one column. */
  ghost predicate LabelledOnce(rows: seq<PivotRow>) {
    && (forall i, j | 0 <= i < |rows| && 0 <= j < |rows| :: rows[i].xValues == rows[j].xValues ==> i == j)
    && (forall r, i, j | 0 <= r < |rows| && 0 <= i < |rows[r].cells| && 0 <= j < |rows[r].cells| ::
          rows[r].cells[i].yValues == rows[r].cells[j].yValues ==> i == j)
  }

  /** A cell shows the data at its place, or the fill value where there is none. */
  ghost predicate NothingInvented(cfg: Config, data: seq<Row>, rows: seq<PivotRow>) {
    forall i, j | 0 <= i < |rows| && 0 <= j < |rows[i].cells| ::
      CellIsData(cfg, data, rows[i].xValues, rows[i].cells[j])
  }

  ghost predicate CellIsData(cfg: Config, data: seq<Row>, x: seq<Val>, c: Cell) {
    || (exists row :: IsPoint(cfg, data, Point(row, x, c.yValues)) && c.value == ValueOf(cfg, Point(row, x, c.yValues)))
    || (c.value == cfg.fill && forall row :: !IsPoint(cfg, data, Point(row, x, c.yValues)))
  }

  lemma CleanConditions(cfg: Config, data: seq<Row>)
    requires WellNamed(cfg) && HasFields(data) && DistinctRows(cfg, data)
    requires CleanAxis(cfg, cfg.x, data) && CleanAxis(cfg, cfg.y, data)
    ensures PlainPivot(cfg, data).Rows?
    ensures RowsApart(cfg, data) && ColumnsApart(cfg, data) && CellsAgree(cfg, data) && NoProtoColumn(cfg, data)
  {
    forall p, q | IsPoint(cfg, data, p) && IsPoint(cfg, data, q)
      ensures AxisString(p.x) == AxisString(q.x) ==> p.x == q.x
      ensures ColumnKey(p.y) == ColumnKey(q.y) ==> p.y == q.y
      ensures AxisString(p.y) == AxisString(q.y) ==> p.y == q.y
      ensures AxisString(p.y) !in PROTOTYPE_NAMES && ColumnKey(p.y) != PROTO
    {
      CleanXs(cfg, data, p, q);
      CleanYs(cfg, data, p, q);
    }
    ThrowsIff(cfg, data);
  }

  lemma CleanCell(cfg: Config, data: seq<Row>, i: nat, j: nat)
    requires WellNamed(cfg) && HasFields(data) && DistinctRows(cfg, data)
    requires CleanAxis(cfg, cfg.x, data) && CleanAxis(cfg, cfg.y, data)
    requires i < |PlainGroups(cfg, data)| && j < |ColumnsOf(cfg, data)|
    ensures var g, c := PlainGroups(cfg, data)[i], ColumnsOf(cfg, data)[j];
            CellIsData(cfg, data, g.entries[0].xValues, Cell(c, CellValue(cfg, g, c)))
  {
    CleanConditions(cfg, data);
    var g, c := PlainGroups(cfg, data)[i], ColumnsOf(cfg, data)[j];
    var x := g.entries[0].xValues;
    GroupEntry(cfg, data, i, g.entries[0]);
    var first := PointOfEntry(cfg, data, g.entries[0]);
    ColumnFacts(cfg, data);
    var same := PointOfTuple(cfg, data, c);
    match LastRow(cfg, g.entries, AxisString(c)) {
      case Some(row) =>
        var q := WinnerOf(cfg, data, i, AxisString(c), row);
        assert q.x == x;
        CleanYs(cfg, data, q, same);
        assert q == Point(row, x, c);
      case None =>
        assert forall row | IsPoint(cfg, data, Point(row, x, c)) :: MeetsKey(cfg, data, AxisString(x), AxisString(c));
        MeetsKeyIff(cfg, data, i, AxisString(c));
    }
  }

  /**
   For ordinary data, pivoting neither loses nor moves anything: every value of every row is in the
   table exactly once, at its own x and y, and every other cell holds the fill value.
   */
  lemma CleanPivotIsLossless(cfg: Config, data: seq<Row>)
    requires WellNamed(cfg) && HasFields(data) && DistinctRows(cfg, data)
    requires CleanAxis(cfg, cfg.x, data) && CleanAxis(cfg, cfg.y, data)
    ensures PlainPivot(cfg, data).Rows?
    ensures Lossless(cfg, data, PlainPivot(cfg, data).rows)
    ensures LabelledOnce(PlainPivot(cfg, data).rows)
    ensures NothingInvented(cfg, data, PlainPivot(cfg, data).rows)
  {
    CleanConditions(cfg, data);
    LosslessIff(cfg, data);
    var rows := PlainPivot(cfg, data).rows;
    ColumnFacts(cfg, data);
    forall i, j | 0 <= i < |rows| && 0 <= j < |rows| ensures rows[i].xValues == rows[j].xValues ==> i == j {
      if rows[i].xValues == rows[j].xValues {
        GroupsApart(cfg, data, i, j);
      }
    }
    forall i, j | 0 <= i < |rows| && 0 <= j < |rows[i].cells|
      ensures CellIsData(cfg, data, rows[i].xValues, rows[i].cells[j])
    {
      CleanCell(cfg, data, i, j);
    }
  }

  // ---- gap filling ----

  /** The only x value is a time member, so the measures sit on y. */
  ghost predicate TimeOnX(cfg: Config) {
    |cfg.x| == 1 && cfg.x[0] != MEASURES
  }

  lemma TimeTuple(cfg: Config, row: Row)
    requires TimeOnX(cfg)
    ensures AxisValues(cfg, cfg.x, row) == [[Field(row, cfg.x[0])]]
  {
    assert cfg.x == [cfg.x[0]] && cfg.x[1..] == [];
    assert MEASURES !in cfg.x;
    assert Dimensions(cfg.x, row) == [Field(row, cfg.x[0])] + Dimensions(cfg.x[1..], row);
    assert Dimensions(cfg.x, row) == [Field(row, cfg.x[0])];
  }

  lemma TimeOfPoint(cfg: Config, data: seq<Row>, e: Entry)
    requires TimeOnX(cfg) && CleanAxis(cfg, cfg.x, data) && e in Entries(cfg, data)
    ensures e.xValues == [Text(FirstKey(e))]
  {
    EntriesElements(cfg, data);
    TimeTuple(cfg, e.row);
    assert CleanValue(Field(e.row, cfg.x[0]));
  }

  lemma PointOfFilledTuple(cfg: Config, data: seq<Row>, series: seq<string>, t: seq<Val>) returns (p: Point)
    requires t in Tuples(cfg, Filled(series, Entries(cfg, data)))
    ensures IsPoint(cfg, data, p) && p.y == t
  {
    var entries := Entries(cfg, data);
    var groups := Filled(series, entries);
    TuplesElements(cfg, groups, t);
    var g, e :| g in groups && e in g.entries && |e.row| > 0 && t in AxisValues(cfg, cfg.y, e.row);
    var i :| 0 <= i < |groups| && groups[i] == g;
    MembersAtElements(entries, series[i]);
    assert e in entries;
    EntriesElements(cfg, data);
    p := Point(e.row, e.xValues, t);
  }

  lemma FilledColumns(cfg: Config, data: seq<Row>, series: seq<string>)
    requires WellNamed(cfg) && CleanAxis(cfg, cfg.y, data)
    ensures FilledPivot(cfg, data, series).Rows?
  {
    var groups := Filled(series, Entries(cfg, data));
    var tuples := Tuples(cfg, groups);
    ColumnsElements(tuples);
    forall i, j | 0 <= i < |groups| && 0 <= j < |Columns(tuples)|
      ensures !Inherits(cfg, groups[i], Columns(tuples)[j])
    {
      var p := PointOfFilledTuple(cfg, data, series, Columns(tuples)[j]);
      CleanYs(cfg, data, p, p);
    }
  }

  lemma FilledColumnOf(cfg: Config, data: seq<Row>, series: seq<string>, i: nat, p: Point) returns (j: nat)
    requires WellNamed(cfg) && HasFields(data) && CleanAxis(cfg, cfg.y, data)
    requires i < |series| && IsPoint(cfg, data, p) && Entry(p.x, p.row) in Filled(series, Entries(cfg, data))[i].entries
    ensures var columns := Columns(Tuples(cfg, Filled(series, Entries(cfg, data))));
            j < |columns| && columns[j] == p.y
  {
    var groups := Filled(series, Entries(cfg, data));
    var tuples := Tuples(cfg, groups);
    assert groups[i] in groups;
    TuplesElements(cfg, groups, p.y);
    ColumnsElements(tuples);
    CleanYs(cfg, data, p, p);
    j :| 0 <= j < |Columns(tuples)| && ColumnKey(Columns(tuples)[j]) == ColumnKey(p.y);
    var other := PointOfFilledTuple(cfg, data, series, Columns(tuples)[j]);
    CleanYs(cfg, data, other, p);
  }

  /** The row a cell of a clean group is taken from is the row of the point. */
  lemma FilledWinner(cfg: Config, data: seq<Row>, entries: seq<Entry>, p: Point)
    requires WellNamed(cfg) && DistinctRows(cfg, data) && CleanAxis(cfg, cfg.y, data)
    requires IsPoint(cfg, data, p) && Entry(p.x, p.row) in entries
    requires forall e | e in entries :: e in Entries(cfg, data) && e.xValues == p.x
    ensures LastRow(cfg, entries, AxisString(p.y)) == Some(p.row)
  {
    EntriesElements(cfg, data);
    HasOwnKey(cfg, p.row, p.y);
    LastRowElements(cfg, entries, AxisString(p.y));
    var winner := LastRow(cfg, entries, AxisString(p.y)).value;
    var e :| e in entries && e.row == winner && HasKey(cfg, winner, AxisString(p.y));
    var t :| 0 <= t < |AxisValues(cfg, cfg.y, winner)|
             && AxisString(AxisValues(cfg, cfg.y, winner)[t]) == AxisString(p.y);
    CleanYs(cfg, data, Point(winner, p.x, AxisValues(cfg, cfg.y, winner)[t]), p);
  }

  /** A data row whose time is in the series keeps its values, in the row of its time. */
  lemma InRangeIsKept(cfg: Config, data: seq<Row>, series: seq<string>, i: nat, p: Point)
    requires WellNamed(cfg) && TimeOnX(cfg) && HasFields(data) && DistinctRows(cfg, data)
    requires CleanAxis(cfg, cfg.x, data) && CleanAxis(cfg, cfg.y, data)
    requires i < |series| && IsPoint(cfg, data, p) && p.x == [Text(series[i])]
    requires FilledPivot(cfg, data, series).Rows?
    ensures Cell(p.y, ValueOf(cfg, p)) in FilledPivot(cfg, data, series).rows[i].cells
  {
    var entries := Entries(cfg, data);
    EntriesElements(cfg, data);
    MembersAtElements(entries, series[i]);
    var own := Entry(p.x, p.row);
    assert own in entries && FirstKey(own) == series[i];
    var members := MembersAt(entries, series[i]);
    assert own in members;
    forall e | e in members ensures e.xValues == p.x {
      TimeOfPoint(cfg, data, e);
    }
    assert Filled(series, entries)[i].entries == members;
    var j := FilledColumnOf(cfg, data, series, i, p);
    FilledWinner(cfg, data, members, p);
    assert members[0] in members;
    assert FilledPivot(cfg, data, series).rows[i].cells[j] == Cell(p.y, ValueOf(cfg, p));
  }

  /**
   Gap filling adds rows and drops nothing in range: the table has one row for each point of the series,
   in order; a point without data is filled in every cell; and every data row whose time is in the
   series keeps all its values.
   */
  lemma GapFilling(cfg: Config, data: seq<Row>, series: seq<string>)
    requires WellNamed(cfg) && TimeOnX(cfg) && HasFields(data) && DistinctRows(cfg, data)
    requires CleanAxis(cfg, cfg.x, data) && CleanAxis(cfg, cfg.y, data)
    ensures FilledPivot(cfg, data, series).Rows?
    ensures var rows := FilledPivot(cfg, data, series).rows;
            && |rows| == |series|
            && (forall i | 0 <= i < |series| :: rows[i].xValues == [Text(series[i])])
            && (forall i | 0 <= i < |series| && (forall row | row in data :: Field(row, cfg.x[0]) != Text(series[i])) ::
                  forall c | c in rows[i].cells :: c.value == cfg.fill)
            && (forall i, p | 0 <= i < |series| && IsPoint(cfg, data, p) && p.x == [Text(series[i])] ::
                  Cell(p.y, ValueOf(cfg, p)) in rows[i].cells)
  {
    FilledColumns(cfg, data, series);
    var entries := Entries(cfg, data);
    var rows := FilledPivot(cfg, data, series).rows;
    forall i | 0 <= i < |series| ensures rows[i].xValues == [Text(series[i])] {
      MembersAtElements(entries, series[i]);
      if MembersAt(entries, series[i]) != [] {
        TimeOfPoint(cfg, data, MembersAt(entries, series[i])[0]);
      }
    }
    forall i | 0 <= i < |series| && (forall row | row in data :: Field(row, cfg.x[0]) != Text(series[i]))
      ensures forall c | c in rows[i].cells :: c.value == cfg.fill
    {
      NoDataAt(cfg, data, series[i]);
      forall c | c in rows[i].cells ensures c.value == cfg.fill {
        EmptyGroupIsFilled(cfg, Filled(series, entries)[i], c.yValues);
      }
    }
    forall i, p | 0 <= i < |series| && IsPoint(cfg, data, p) && p.x == [Text(series[i])]
      ensures Cell(p.y, ValueOf(cfg, p)) in rows[i].cells
    {
      InRangeIsKept(cfg, data, series, i, p);
    }
  }

  lemma NoDataAt(cfg: Config, data: seq<Row>, d: string)
    requires TimeOnX(cfg) && CleanAxis(cfg, cfg.x, data)
    requires forall row | row in data :: Field(row, cfg.x[0]) != Text(d)
    ensures MembersAt(Entries(cfg, data), d) == []
  {
    var found := MembersAt(Entries(cfg, data), d);
    MembersAtElements(Entries(cfg, data), d);
    EntriesElements(cfg, data);
    if found != [] {
      var e := found[0];
      TimeOfPoint(cfg, data, e);
      TimeTuple(cfg, e.row);
    }
  }

  lemma EmptyGroupIsFilled(cfg: Config, g: Group, column: seq<Val>)
    requires |g.entries| == 1 && g.entries[0].row == map[]
    ensures CellValue(cfg, g, column) == cfg.fill
  {
    LastRowElements(cfg, g.entries, AxisString(column));
  }

  // ---- what goes wrong without the conditions ----

  /** A dimension that is null in one row and empty in another gives one column for both: a value is lost. */
  lemma NullAndEmptyCollide()
    ensures var cfg := Config([MEASURES], ["d"], ["m"], Text("0"));
            var data := [map["d" := Null, "m" := Text("1")], map["d" := Text(""), "m" := Text("2")]];
            PlainPivot(cfg, data).Rows? && !Lossless(cfg, data, PlainPivot(cfg, data).rows)
  {
    var cfg := Config([MEASURES], ["d"], ["m"], Text("0"));
    var a: Row, b: Row := map["d" := Null, "m" := Text("1")], map["d" := Text(""), "m" := Text("2")];
    var data := [a, b];
    assert Dimensions(cfg.y, a) == [Null] && Dimensions(cfg.y, b) == [Text("")] by {
      assert cfg.y[1..] == [];
    }
    var x := AxisValues(cfg, cfg.x, a)[0];
    assert Dimensions(cfg.x, a) == [] && Dimensions(cfg.x, b) == [] by {
      assert cfg.x[1..] == [];
    }
    assert AxisValues(cfg, cfg.x, b)[0] == x;
    assert AxisValues(cfg, cfg.y, a) == [[Null]] && AxisValues(cfg, cfg.y, b) == [[Text("")]];
    var p, q := Point(a, x, [Null]), Point(b, x, [Text("")]);
    assert IsPoint(cfg, data, p) && IsPoint(cfg, data, q);
    assert ColumnKey(p.y) == ColumnKey(q.y) == "";
    assert !ColumnsApart(cfg, data);
    assert WellNamed(cfg) && HasFields(data) by {
      assert "d" in a && "d" in b;
    }
    NoInheritedName(cfg, data);
    LosslessIff(cfg, data);
  }

  lemma NoInheritedName(cfg: Config, data: seq<Row>)
    requires HasFields(data)
    requires forall p | IsPoint(cfg, data, p) :: p.y == [Null] || p.y == [Text("")]
    ensures PlainPivot(cfg, data).Rows?
  {
    ThrowsIff(cfg, data);
    if MeetsInherited(cfg, data) {
      var p, q :| IsPoint(cfg, data, p) && IsPoint(cfg, data, q) && AxisString(p.y) in PROTOTYPE_NAMES;
      InheritedTuple(p.y);
      InheritedNamesHaveNoComma(AxisString(p.y));
    }
  }

  /** A y value called like an inherited property, and an x value without it: the pivot throws. */
  lemma ConstructorThrows()
    ensures var cfg := Config(["c", MEASURES], ["d"], ["m"], Text("0"));
            var data := [map["c" := Text("1"), "d" := Text("constructor"), "m" := Text("1")],
                         map["c" := Text("2"), "d" := Text("x"), "m" := Text("2")]];
            PlainPivot(cfg, data).Throws?
  {
    var cfg := Config(["c", MEASURES], ["d"], ["m"], Text("0"));
    var a: Row := map["c" := Text("1"), "d" := Text("constructor"), "m" := Text("1")];
    var b: Row := map["c" := Text("2"), "d" := Text("x"), "m" := Text("2")];
    var data := [a, b];
    TuplesOfExample(cfg, a);
    TuplesOfExample(cfg, b);
    var p := Point(a, [Text("1"), Text("m")], [Text("constructor")]);
    var q := Point(b, [Text("2"), Text("m")], [Text("x")]);
    assert IsPoint(cfg, data, p) && IsPoint(cfg, data, q);
    assert AxisString(p.y) == "constructor" && AxisString([Text("x")]) == "x";
    TwoTextsApart("1", "2", "m");
    assert !MeetsKey(cfg, data, AxisString(q.x), "constructor");
    assert HasFields(data) by {
      assert "c" in a && "c" in b;
    }
    assert MeetsInherited(cfg, data);
    ThrowsIff(cfg, data);
  }

  lemma TuplesOfExample(cfg: Config, row: Row)
    requires cfg.x == ["c", MEASURES] && cfg.y == ["d"] && cfg.measures == ["m"]
    ensures AxisValues(cfg, cfg.x, row) == [[Field(row, "c"), Text("m")]]
    ensures AxisValues(cfg, cfg.y, row) == [[Field(row, "d")]]
  {
    assert cfg.x[1..] == [MEASURES] && [MEASURES][1..] == [] && cfg.y[1..] == [];
    assert Dimensions([MEASURES], row) == [];
    assert Dimensions(cfg.x, row) == [Field(row, "c")] && Dimensions(cfg.y, row) == [Field(row, "d")];
    assert cfg.x[1] == MEASURES && MEASURES in cfg.x;
    var tuples := AxisValues(cfg, cfg.x, row);
    assert |tuples| == 1 && cfg.measures[0] == "m" && "m" != "";
    assert tuples[0] == [Field(row, "c"), Text("m")];
  }

  lemma TwoTextsApart(a: string, b: string, m: string)
    requires a != "" && b != "" && ',' !in a && ',' !in b && m != "" && ',' !in m
    ensures AxisString([Text(a), Text(m)]) == AxisString([Text(b), Text(m)]) ==> a == b
  {
    var p, q := Formats([Text(a), Text(m)]), Formats([Text(b), Text(m)]);
    assert p == [a, m] && q == [b, m];
    if AxisString([Text(a), Text(m)]) == AxisString([Text(b), Text(m)]) {
      JoinInjective(p, q, ", ");
    }
  }
}
