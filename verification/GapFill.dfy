/** Gap filling from end to end: the pivot over the series of a date range and a predefined granularity. */
module GapFill {
  import opened Strings
  import opened Pivot
  import opened PivotLossless
  import Buckets
  import MonthGrids
  import CalendarBuckets

  ghost predicate Injective(format: int -> string) {
    forall a, b :: format(a) == format(b) ==> a == b
  }

  /** What gap filling asks of the axes and the data. */
  ghost predicate Fillable(cfg: Config, data: seq<Row>) {
    && WellNamed(cfg) && TimeOnX(cfg) && HasFields(data) && DistinctRows(cfg, data)
    && CleanAxis(cfg, cfg.x, data) && CleanAxis(cfg, cfg.y, data)
  }

  /** A predefined granularity: a unit up to a week, or one of months. */
  datatype Granularity = Linear(unit: Buckets.Unit) | OfMonths(per: CalendarBuckets.MonthUnit)

  function Series(g: Granularity, from: int, to: int): seq<int> {
    match g
    case Linear(u) => Buckets.PredefinedSeries(from, to, u)
    case OfMonths(per) => MonthGrids.MonthSeries(from, to, per)
  }

  /** The start of a bucket. */
  ghost predicate IsBucket(g: Granularity, b: int) {
    match g
    case Linear(u) => Buckets.Aligned(b, u)
    case OfMonths(per) => MonthGrids.UnitStart(b, per) == b
  }

  /** The bucket is one of the range. */
  ghost predicate Listed(g: Granularity, from: int, to: int, b: int) {
    match g
    case Linear(u) => Buckets.Listed(from, to, u, b)
    case OfMonths(per) => MonthGrids.Listed(from, to, per, b)
  }

  lemma SeriesIs(g: Granularity, from: int, to: int)
    ensures forall b :: b in Series(g, from, to) <==> Listed(g, from, to, b)
    ensures forall i, j | 0 <= i < j < |Series(g, from, to)| :: Series(g, from, to)[i] < Series(g, from, to)[j]
  {
    match g {
      case Linear(u) => Buckets.PredefinedSeriesIs(from, to, u);
      case OfMonths(per) => MonthGrids.MonthSeriesIs(from, to, per);
    }
  }

  function SeriesTexts(format: int -> string, g: Granularity, from: int, to: int): seq<string> {
    Map(format, Series(g, from, to))
  }

  function Filled(cfg: Config, data: seq<Row>, format: int -> string, g: Granularity, from: int, to: int): Table {
    FilledPivot(cfg, data, SeriesTexts(format, g, from, to))
  }

  /** The filled table has one row for each bucket of the range, in order of time. */
  lemma OneRowABucket(cfg: Config, data: seq<Row>, format: int -> string, g: Granularity, from: int, to: int)
    requires Fillable(cfg, data)
    ensures Filled(cfg, data, format, g, from, to).Rows?
    ensures var rows, starts := Filled(cfg, data, format, g, from, to).rows, Series(g, from, to);
            && |rows| == |starts|
            && (forall i | 0 <= i < |rows| :: rows[i].xValues == [Text(format(starts[i]))])
            && (forall i, j | 0 <= i < j < |rows| :: starts[i] < starts[j])
            && (forall b :: b in starts <==> Listed(g, from, to, b))
  {
    GapFilling(cfg, data, SeriesTexts(format, g, from, to));
    SeriesIs(g, from, to);
  }

  /**
   A data row is in the filled table, with its values in the row of its bucket, if and only if its
   bucket is one of the range.
   */
  lemma ShownIffInRange(cfg: Config, data: seq<Row>, format: int -> string, g: Granularity, from: int, to: int,
                        p: Point, b: int)
    requires Fillable(cfg, data) && Injective(format)
    requires IsPoint(cfg, data, p) && p.x == [Text(format(b))]
    ensures Filled(cfg, data, format, g, from, to).Rows?
    ensures Shows(Filled(cfg, data, format, g, from, to).rows, p.x, p.y, ValueOf(cfg, p))
       <==> Listed(g, from, to, b)
  {
    var series, starts := SeriesTexts(format, g, from, to), Series(g, from, to);
    OneRowABucket(cfg, data, format, g, from, to);
    var rows := Filled(cfg, data, format, g, from, to).rows;
    if b in starts {
      var i :| 0 <= i < |starts| && starts[i] == b;
      InRangeIsKept(cfg, data, series, i, p);
      var j :| 0 <= j < |rows[i].cells| && rows[i].cells[j] == Cell(p.y, ValueOf(cfg, p));
      assert rows[i].xValues == p.x;
    }
    if Shows(rows, p.x, p.y, ValueOf(cfg, p)) {
      var i, j :| 0 <= i < |rows| && 0 <= j < |rows[i].cells| && rows[i].xValues == p.x
                  && rows[i].cells[j] == Cell(p.y, ValueOf(cfg, p));
      assert rows[i].xValues[0] == Text(format(starts[i])) && p.x[0] == Text(format(b));
      assert starts[i] == b && b in starts;
    }
  }

  // ---- ranges padded to days ----

  /** A date range given in days is padded to whole days, and every bucket of these days is in range. */
  lemma ShownIffInDays(cfg: Config, data: seq<Row>, format: int -> string, u: Buckets.Unit, from: int, to: int,
                       p: Point, b: int)
    requires Fillable(cfg, data) && Injective(format) && !u.Week?
    requires IsPoint(cfg, data, p) && p.x == [Text(format(b))]
    ensures var table := Filled(cfg, data, format, Linear(u), Buckets.StartOf(from, Buckets.Day),
                                Buckets.EndOf(to, Buckets.Day));
            && table.Rows?
            && (Shows(table.rows, p.x, p.y, ValueOf(cfg, p)) <==>
                  Buckets.Aligned(b, u) && Buckets.StartOf(from, Buckets.Day) <= b <= Buckets.EndOf(to, Buckets.Day))
  {
    var start, end := Buckets.StartOf(from, Buckets.Day), Buckets.EndOf(to, Buckets.Day);
    ShownIffInRange(cfg, data, format, Linear(u), start, end, p, b);
    SeriesIs(Linear(u), start, end);
    Buckets.PaddedSeriesIs(from, to, u, b);
  }

  // ---- without a date range ----

  /** Without a date range the series runs over the times of the data, in whole days for days and longer. */
  function RangeOfData(g: Granularity, least: int, greatest: int): (int, int) {
    if g.Linear? && (g.unit.Second? || g.unit.Minute? || g.unit.Hour?) then (least, greatest)
    else (Buckets.StartOf(least, Buckets.Day), Buckets.EndOf(greatest, Buckets.Day))
  }

  lemma DataIsInRange(g: Granularity, least: int, greatest: int, b: int)
    requires IsBucket(g, least) && IsBucket(g, b) && least <= b <= greatest
    ensures var (from, to) := RangeOfData(g, least, greatest); Listed(g, from, to, b)
  {
    var (from, to) := RangeOfData(g, least, greatest);
    Buckets.FloorBounds(least, Buckets.UnitOrigin(Buckets.Day), Buckets.UnitLength(Buckets.Day));
    Buckets.FloorBounds(greatest, Buckets.UnitOrigin(Buckets.Day), Buckets.UnitLength(Buckets.Day));
    match g {
      case Linear(u) =>
        Buckets.FloorBounds(from, Buckets.UnitOrigin(u), Buckets.UnitLength(u));
        if !u.Week? {
          Buckets.DayIsAligned(least, u);
        }
      case OfMonths(per) => MonthGrids.UnitHolds(from, per);
    }
  }

  /** Every data row is at a bucket, and least and greatest are the bounds of these, the first one attained. */
  ghost predicate Spans(cfg: Config, data: seq<Row>, format: int -> string, g: Granularity,
                        time: Row -> int, least: int, greatest: int)
  {
    && IsBucket(g, least)
    && forall p | IsPoint(cfg, data, p) ::
         p.x == [Text(format(time(p.row)))] && IsBucket(g, time(p.row)) && least <= time(p.row) <= greatest
  }

  /** Without a date range, gap filling drops no data at all. */
  lemma NothingDropped(cfg: Config, data: seq<Row>, format: int -> string, g: Granularity,
                       time: Row -> int, least: int, greatest: int)
    requires Fillable(cfg, data) && Injective(format)
    requires Spans(cfg, data, format, g, time, least, greatest)
    ensures var (from, to) := RangeOfData(g, least, greatest);
            var table := Filled(cfg, data, format, g, from, to);
            table.Rows? && Lossless(cfg, data, table.rows)
  {
    var (from, to) := RangeOfData(g, least, greatest);
    OneRowABucket(cfg, data, format, g, from, to);
    forall p | IsPoint(cfg, data, p)
      ensures Shows(Filled(cfg, data, format, g, from, to).rows, p.x, p.y, ValueOf(cfg, p))
    {
      DataIsInRange(g, least, greatest, time(p.row));
      ShownIffInRange(cfg, data, format, g, from, to, p, time(p.row));
    }
  }
}
