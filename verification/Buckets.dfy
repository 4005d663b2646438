/**
 Bucket arithmetic of custom and predefined granularities. Instants are milliseconds on the
 linear UTC time line, and every interval unit has a fixed length (weeks and below).
 */
module Buckets {
  import opened Wrappers

  datatype Unit = Millisecond | Second | Minute | Hour | Day | Week

  function UnitLength(u: Unit): (ms: int)
    ensures ms > 0
  {
    match u
    case Millisecond => 1
    case Second => 1000
    case Minute => 60_000
    case Hour => 3_600_000
    case Day => 86_400_000
    case Week => 604_800_000
  }

  /** A parsed interval: signed amounts of units. */
  datatype Component = Component(unit: Unit, amount: int)

  function Length(interval: seq<Component>): int {
    if interval == [] then 0
    else
      var last := interval[|interval| - 1];
      Length(interval[..|interval| - 1]) + last.amount * UnitLength(last.unit)
  }

  lemma LengthTake(interval: seq<Component>, i: nat)
    requires i < |interval|
    ensures Length(interval[..i + 1]) == Length(interval[..i]) + interval[i].amount * UnitLength(interval[i].unit)
  {
    assert interval[..i + 1][..i] == interval[..i];
  }

  method AddInterval(date: int, interval: seq<Component>) returns (res: int)
    ensures res == date + Length(interval)
  {
    res := date;
    for i := 0 to |interval|
      invariant res == date + Length(interval[..i])
    {
      LengthTake(interval, i);
      res := res + interval[i].amount * UnitLength(interval[i].unit);
    }
    assert interval[..|interval|] == interval;
  }

  method SubtractInterval(date: int, interval: seq<Component>) returns (res: int)
    ensures res == date - Length(interval)
  {
    res := date;
    for i := 0 to |interval|
      invariant res == date - Length(interval[..i])
    {
      LengthTake(interval, i);
      res := res - interval[i].amount * UnitLength(interval[i].unit);
    }
    assert interval[..|interval|] == interval;
  }

  // ---- the grid ----

  /** The largest grid point origin + k * d that is not after x: floor division on both sides of the origin. */
  function FloorTo(x: int, origin: int, d: int): int
    requires d > 0
  {
    origin + (x - origin) / d * d
  }

  lemma Multiple(n: int, d: int)
    requires n >= 1 && d > 0
    ensures n * d >= d
  {
    assert (n - 1) * d >= 0;
  }

  lemma Difference(a: int, b: int, d: int)
    ensures b * d - a * d == (b - a) * d
  {
  }

  /** Different multiples of d are at least d apart. */
  lemma Apart(a: int, b: int, d: int)
    requires d > 0
    ensures a < b ==> a * d + d <= b * d
    ensures b < a ==> b * d + d <= a * d
  {
    Difference(a, b, d);
    if a < b {
      Multiple(b - a, d);
    } else if b < a {
      Difference(b, a, d);
      Multiple(a - b, d);
    }
  }

  lemma DivideMultiple(a: int, d: int)
    requires d > 0
    ensures a * d / d == a
  {
    FloorUnique(a * d, 0, d, a);
  }

  lemma FloorUnique(x: int, origin: int, d: int, k: int)
    requires d > 0 && GridPoint(origin, d, k) <= x < GridPoint(origin, d, k) + d
    ensures FloorTo(x, origin, d) == GridPoint(origin, d, k) && (x - origin) / d == k
  {
    Apart((x - origin) / d, k, d);
  }

  /** The floor is on the grid and x lies in the bucket that starts there. */
  lemma FloorBounds(x: int, origin: int, d: int)
    requires d > 0
    ensures FloorTo(x, origin, d) <= x < FloorTo(x, origin, d) + d
    ensures exists k :: FloorTo(x, origin, d) == GridPoint(origin, d, k)
  {
    assert FloorTo(x, origin, d) == GridPoint(origin, d, (x - origin) / d);
  }

  function GridPoint(origin: int, d: int, k: int): int {
    origin + k * d
  }

  lemma GridNext(origin: int, d: int, k: int)
    ensures GridPoint(origin, d, k + 1) == GridPoint(origin, d, k) + d
  {
  }

  ghost predicate OnGrid(x: int, origin: int, d: int) {
    exists k :: x == GridPoint(origin, d, k)
  }

  // ---- alignment ----

  /** The server's loop. With a length that is not positive it ends only if there is nothing to do. */
  method ServerAlignToOrigin(startDate: int, interval: seq<Component>, origin: int) returns (alignedDate: int)
    requires Length(interval) > 0 || startDate == origin
    ensures Length(interval) > 0 ==> alignedDate == FloorTo(startDate, origin, Length(interval))
    ensures startDate == origin ==> alignedDate == origin
  {
    ghost var d, k := Length(interval), 0;
    alignedDate := startDate;
    var offsetDate := origin;
    if startDate < origin {
      while offsetDate > startDate
        invariant offsetDate == GridPoint(origin, d, k) && offsetDate > startDate - d
        decreases offsetDate - startDate
      {
        offsetDate := SubtractInterval(offsetDate, interval);
        k := k - 1;
        GridNext(origin, d, k);
      }
      alignedDate := offsetDate;
    } else {
      while offsetDate < startDate
        invariant offsetDate == GridPoint(origin, d, k)
        invariant offsetDate <= startDate || (alignedDate == offsetDate - d && alignedDate < startDate)
        decreases startDate - offsetDate
      {
        GridNext(origin, d, k);
        alignedDate := offsetDate;
        offsetDate := AddInterval(offsetDate, interval);
        k := k + 1;
      }
      if offsetDate == startDate {
        alignedDate := offsetDate;
      } else {
        k := k - 1;
        GridNext(origin, d, k);
      }
    }
    if d > 0 {
      assert alignedDate == GridPoint(origin, d, k);
      FloorUnique(startDate, origin, d, k);
    }
  }

  /** The offset after n rounds of the server's loop. */
  function OffsetAfter(startDate: int, d: int, origin: int, n: nat): int {
    if n == 0 then origin
    else OffsetAfter(startDate, d, origin, n - 1) + if startDate < origin then -d else d
  }

  predicate LoopsOn(startDate: int, origin: int, offset: int) {
    if startDate < origin then offset > startDate else offset < startDate
  }

  /** The precondition is exact: without it the guard of the loop holds for ever. */
  lemma {:induction false} ServerAlignDiverges(startDate: int, d: int, origin: int, n: nat)
    requires d <= 0 && startDate != origin
    ensures LoopsOn(startDate, origin, OffsetAfter(startDate, d, origin, n))
    ensures if startDate < origin then OffsetAfter(startDate, d, origin, n) >= origin
            else OffsetAfter(startDate, d, origin, n) <= origin
  {
    if n > 0 {
      ServerAlignDiverges(startDate, d, origin, n - 1);
    }
  }

  function Abs(x: int): int {
    if x < 0 then -x else x
  }

  /** The client's loop finds the sign first, and so aligns d and -d alike. */
  method ClientAlignToOrigin(startDate: int, interval: seq<Component>, origin: int) returns (alignedDate: int)
    requires Length(interval) != 0 || startDate == origin
    ensures Length(interval) != 0 ==> alignedDate == FloorTo(startDate, origin, Abs(Length(interval)))
    ensures startDate == origin ==> alignedDate == origin
  {
    ghost var d, k := Abs(Length(interval)), 0;
    alignedDate := startDate;
    var offsetDate := AddInterval(origin, interval);
    var isIntervalNegative := offsetDate < origin;
    offsetDate := origin;
    if startDate < origin {
      while offsetDate > startDate
        invariant offsetDate == GridPoint(origin, d, k) && offsetDate > startDate - d
        decreases offsetDate - startDate
      {
        if isIntervalNegative {
          offsetDate := AddInterval(offsetDate, interval);
        } else {
          offsetDate := SubtractInterval(offsetDate, interval);
        }
        k := k - 1;
        GridNext(origin, d, k);
      }
      alignedDate := offsetDate;
    } else {
      while offsetDate < startDate
        invariant offsetDate == GridPoint(origin, d, k)
        invariant offsetDate <= startDate || (alignedDate == offsetDate - d && alignedDate < startDate)
        decreases startDate - offsetDate
      {
        GridNext(origin, d, k);
        alignedDate := offsetDate;
        if isIntervalNegative {
          offsetDate := SubtractInterval(offsetDate, interval);
        } else {
          offsetDate := AddInterval(offsetDate, interval);
        }
        k := k + 1;
      }
      if offsetDate == startDate {
        alignedDate := offsetDate;
      } else {
        k := k - 1;
        GridNext(origin, d, k);
      }
    }
    if d > 0 {
      assert alignedDate == GridPoint(origin, d, k);
      FloorUnique(startDate, origin, d, k);
    }
  }

  // ---- custom series ----

  /** How many of the points first, first + d, first + 2 * d, ... lie before end. */
  function CountBefore(first: int, d: int, end: int): (n: nat)
    requires d > 0
  {
    if end <= first then 0
    else
      assert (end - first - 1) / d >= 0;
      (end - first - 1) / d + 1
  }

  lemma CountBeforeIs(first: int, d: int, end: int, n: nat)
    requires d > 0 && first + n * d >= end && (n > 0 ==> first + (n - 1) * d < end)
    ensures CountBefore(first, d, end) == n
  {
    Apart(n - 1, n, d);
    if n > 0 {
      Apart(0, n, d);
      FloorUnique(end - first - 1, 0, d, n - 1);
    }
  }

  /** The same, for a loop that has stepped past end. */
  lemma CountedTo(first: int, d: int, end: int, n: nat)
    requires d > 0 && GridPoint(first, d, n) >= end && (n > 0 ==> GridPoint(first, d, n) - d < end)
    ensures CountBefore(first, d, end) == n
  {
    if n > 0 {
      GridNext(first, d, n - 1);
    }
    CountBeforeIs(first, d, end, n);
  }

  lemma CountBeforeBounds(first: int, d: int, end: int)
    requires d > 0
    ensures var n := CountBefore(first, d, end);
            first + n * d >= end && (n > 0 ==> first + (n - 1) * d < end)
  {
    if end > first {
      var x := end - first - 1;
      var q := x / d;
      assert x == q * d + x % d;
      assert (q + 1) * d == q * d + d;
    }
  }

  /** The server's list of bucket starts: the grid points from the bucket of start up to, and without, end. */
  function Starts(first: int, d: int, end: int): (s: seq<int>)
    requires d > 0
    ensures |s| == CountBefore(first, d, end)
  {
    seq(CountBefore(first, d, end), i requires 0 <= i => GridPoint(first, d, i))
  }

  /** The client's list runs up to and with end. */
  function StartsWithEnd(first: int, d: int, end: int): seq<int>
    requires d > 0
  {
    Starts(first, d, end + 1)
  }

  function Pow10(p: nat): (t: int)
    ensures t >= 1
  {
    if p == 0 then 1 else 10 * Pow10(p - 1)
  }

  /** The two labels of a bucket, in ticks of 10^-precision seconds: whole seconds followed by zeros or by nines. */
  datatype Bucket = Bucket(first: int, last: int)

  function ZerosLabel(x: int, precision: nat): int {
    x / 1000 * Pow10(precision)
  }

  function NinesLabel(x: int, precision: nat): int {
    x / 1000 * Pow10(precision) + (Pow10(precision) - 1)
  }

  function BucketAt(start: int, d: int, precision: nat): Bucket {
    Bucket(ZerosLabel(start, precision), NinesLabel(start + d - 1000, precision))
  }

  function BucketsOf(starts: seq<int>, d: int, precision: nat): (b: seq<Bucket>)
    ensures |b| == |starts|
  {
    seq(|starts|, i requires 0 <= i < |starts| => BucketAt(starts[i], d, precision))
  }

  const LIMIT := 50000

  /** Whole seconds between two instants, towards zero. */
  function DiffSeconds(start: int, end: int): int {
    if end >= start then (end - start) / 1000 else -((start - end) / 1000)
  }

  /** The quotient of the range and the interval is over the limit, for each sign of the interval. */
  predicate OverLimit(start: int, end: int, d: int) {
    var range := DiffSeconds(start, end) * 1000;
    if d > 0 then range > LIMIT * d
    else if d < 0 then range < LIMIT * d
    else range > 0
  }

  datatype Series<T> = Dates(dates: seq<T>) | TooMany

  /** When the server's series is finished: the interval is positive, or a check answers before any loop goes wrong. */
  predicate ServerSeriesEnds(start: int, end: int, origin: int, d: int) {
    d > 0 || OverLimit(start, end, d) || (start == origin && end <= start)
  }

  method ServerTimeSeries(interval: seq<Component>, start: int, end: int, origin: int, precision: nat)
    returns (series: Series<Bucket>)
    requires ServerSeriesEnds(start, end, origin, Length(interval))
    ensures series ==
            var d := Length(interval);
            if OverLimit(start, end, d) then TooMany
            else if d <= 0 then Dates([])
            else Dates(BucketsOf(Starts(FloorTo(start, origin, d), d, end), d, precision))
  {
    ghost var d := Length(interval);
    if OverLimit(start, end, Length(interval)) {
      return TooMany;
    }
    var alignedStart := ServerAlignToOrigin(start, interval, origin);
    ghost var first, n := alignedStart, 0;
    var dates: seq<Bucket> := [];
    while alignedStart < end
      invariant d > 0 || (n == 0 && end <= alignedStart)
      invariant alignedStart == GridPoint(first, d, n) && n == |dates|
      invariant n > 0 ==> alignedStart - d < end
      invariant forall i | 0 <= i < n :: dates[i] == BucketAt(GridPoint(first, d, i), d, precision)
      decreases end - alignedStart
    {
      GridNext(first, d, n);
      var s := alignedStart;
      alignedStart := AddInterval(alignedStart, interval);
      dates := dates + [Bucket(ZerosLabel(s, precision), NinesLabel(alignedStart - 1000, precision))];
      n := n + 1;
    }
    if d > 0 {
      CountedTo(first, d, end, n);
      assert dates == BucketsOf(Starts(first, d, end), d, precision);
    }
    return Dates(dates);
  }

  /** When the client's series is finished: there is no limit, but nothing is listed for a range that lies behind. */
  predicate ClientSeriesEnds(start: int, end: int, origin: int, d: int) {
    d > 0 || (d < 0 && FloorTo(start, origin, -d) > end) || (d == 0 && start == origin && start > end)
  }

  method ClientTimeSeries(interval: seq<Component>, start: int, end: int, origin: int) returns (dates: seq<int>)
    requires ClientSeriesEnds(start, end, origin, Length(interval))
    ensures var d := Length(interval);
            if d <= 0 then dates == []
            else
              var starts := StartsWithEnd(FloorTo(start, origin, d), d, end);
              dates == seq(|starts|, i requires 0 <= i < |starts| => ZerosLabel(starts[i], 3))
  {
    ghost var d := Length(interval);
    var alignedStart := ClientAlignToOrigin(start, interval, origin);
    ghost var first, n := alignedStart, 0;
    dates := [];
    while alignedStart < end || alignedStart == end
      invariant d > 0 || (n == 0 && end < alignedStart)
      invariant alignedStart == GridPoint(first, d, n) && n == |dates|
      invariant n > 0 ==> alignedStart - d < end + 1
      invariant forall i | 0 <= i < n :: dates[i] == ZerosLabel(GridPoint(first, d, i), 3)
      decreases end + 1 - alignedStart
    {
      GridNext(first, d, n);
      dates := dates + [ZerosLabel(alignedStart, 3)];
      alignedStart := AddInterval(alignedStart, interval);
      n := n + 1;
    }
    if d > 0 {
      CountedTo(first, d, end + 1, n);
    }
  }

  lemma StepsBack(first: int, d: int, n: nat)
    requires d <= 0
    ensures first + n * d <= first
  {
  }

  /**
   The preconditions of the two series are exact: outside them the guard of a loop holds at every round, that of the
   alignment or that of the series itself.
   */
  lemma SeriesDiverge(start: int, end: int, origin: int, d: int, n: nat)
    ensures !ServerSeriesEnds(start, end, origin, d) ==>
              if start != origin then LoopsOn(start, origin, OffsetAfter(start, d, origin, n)) else start + n * d < end
    ensures !ClientSeriesEnds(start, end, origin, d) ==>
              if d == 0 && start != origin then LoopsOn(start, origin, OffsetAfter(start, d, origin, n))
              else (if d == 0 then start else FloorTo(start, origin, -d)) + n * d <= end
  {
    if d <= 0 {
      StepsBack(start, d, n);
      if d < 0 {
        StepsBack(FloorTo(start, origin, -d), d, n);
      }
      if start != origin {
        ServerAlignDiverges(start, d, origin, n);
      }
    }
  }

  /**
   The two ends list the same bucket starts in the same order, except that the client adds end itself
   when end is a grid point of the range.
   */
  lemma ServerAndClientAgree(start: int, end: int, origin: int, d: int)
    requires d > 0
    ensures var first := FloorTo(start, origin, d);
            StartsWithEnd(first, d, end) ==
            Starts(first, d, end) + if first <= end && OnGrid(end, origin, d) then [end] else []
  {
    var first := FloorTo(start, origin, d);
    var n := CountBefore(first, d, end);
    CountBeforeBounds(first, d, end);
    EndOnGrid(start, end, origin, d);
    if first + n * d == end {
      Apart(n, n + 1, d);
      CountBeforeIs(first, d, end + 1, n + 1);
    } else {
      CountBeforeIs(first, d, end + 1, n);
    }
  }

  /** End is a grid point of the range exactly when the last bucket ends there. */
  lemma EndOnGrid(start: int, end: int, origin: int, d: int)
    requires d > 0
    ensures var first := FloorTo(start, origin, d);
            first <= end && OnGrid(end, origin, d) <==> first + CountBefore(first, d, end) * d == end
  {
    var first, k0 := FloorTo(start, origin, d), (start - origin) / d;
    var n := CountBefore(first, d, end);
    CountBeforeBounds(first, d, end);
    Shifted(k0, n, d);
    if first + n * d == end {
      Apart(0, n, d);
      assert end == GridPoint(origin, d, k0 + n);
    }
    if first <= end && OnGrid(end, origin, d) {
      var k :| end == GridPoint(origin, d, k);
      Shifted(k0, k - k0, d);
      Apart(k - k0, n, d);
      Apart(k - k0, n - 1, d);
      Apart(k - k0, 0, d);
    }
  }

  lemma Shifted(a: int, b: int, d: int)
    ensures a * d + b * d == (a + b) * d
  {
  }

  lemma TicksMonotone(a: int, b: int, precision: nat)
    requires a <= b
    ensures a * Pow10(precision) <= b * Pow10(precision)
    ensures a < b ==> a * Pow10(precision) + Pow10(precision) <= b * Pow10(precision)
  {
    assert (b - a) * Pow10(precision) >= 0;
    assert a < b ==> (b - a - 1) * Pow10(precision) >= 0;
  }

  lemma NinesBeforeZeros(x: int, precision: nat)
    ensures NinesLabel(x - 1000, precision) + 1 == ZerosLabel(x, precision)
  {
    assert (x - 1000) / 1000 == x / 1000 - 1;
    assert (x / 1000 - 1) * Pow10(precision) == x / 1000 * Pow10(precision) - Pow10(precision);
  }

  /**
   The buckets tile: each starts one tick after the one before it ends, for any instants at all, and
   together they reach the second of end.
   */
  lemma BucketsTile(first: int, d: int, end: int, precision: nat)
    requires d > 0
    ensures var b := BucketsOf(Starts(first, d, end), d, precision);
            && (forall i | 0 <= i < |b| - 1 :: b[i].last + 1 == b[i + 1].first)
            && (|b| > 0 ==> b[0].first == ZerosLabel(first, precision))
            && (|b| > 0 ==> b[|b| - 1].last + 1 >= ZerosLabel(end, precision))
  {
    var starts := Starts(first, d, end);
    var b, n := BucketsOf(starts, d, precision), |starts|;
    forall i | 0 <= i < n ensures b[i].last + 1 == ZerosLabel(first + (i + 1) * d, precision) {
      NinesBeforeZeros(starts[i] + d, precision);
      assert starts[i] + d == first + (i + 1) * d;
    }
    CountBeforeBounds(first, d, end);
    if n > 0 {
      TicksMonotone(end / 1000, (first + n * d) / 1000, precision);
    }
  }

  /**
   For a start, an origin and an interval in whole seconds and any later end, the first bucket contains
   start, and the last one contains end unless end is itself a bucket start.
   */
  lemma BucketsCover(start: int, end: int, origin: int, d: int, precision: nat)
    requires d > 0 && start < end
    requires start % 1000 == 0 && origin % 1000 == 0 && d % 1000 == 0
    ensures var b := BucketsOf(Starts(FloorTo(start, origin, d), d, end), d, precision);
            && |b| > 0
            && b[0].first <= ZerosLabel(start, precision) <= b[0].last
            && (ZerosLabel(end, precision) <= b[|b| - 1].last <==> !OnGrid(end, origin, d))
  {
    var first := FloorTo(start, origin, d);
    FloorBounds(start, origin, d);
    var starts := Starts(first, d, end);
    var b, n := BucketsOf(starts, d, precision), |starts|;
    CountBeforeBounds(first, d, end);
    TicksMonotone(first / 1000, start / 1000, precision);
    GridIsWhole(start, origin, d, 1);
    NinesBeforeZeros(first + d, precision);
    assert starts[0] == first;
    TicksMonotone(start / 1000, (first + d) / 1000, precision);

    var over := first + n * d;
    GridIsWhole(start, origin, d, n);
    Apart(n - 1, n, d);
    Shifted(n - 1, 1, d);
    assert starts[n - 1] + d == over;
    NinesBeforeZeros(over, precision);
    if end < over {
      assert end / 1000 < over / 1000;
    }
    TicksMonotone(end / 1000, over / 1000, precision);
    EndOnGrid(start, end, origin, d);
  }

  lemma GridIsWhole(start: int, origin: int, d: int, n: int)
    requires d > 0 && origin % 1000 == 0 && d % 1000 == 0
    ensures (FloorTo(start, origin, d) + n * d) % 1000 == 0 && FloorTo(start, origin, d) % 1000 == 0
  {
    var m, o, k := d / 1000, origin / 1000, (start - origin) / d;
    assert d == m * 1000 && origin == o * 1000;
    assert k * d == (k * m) * 1000 && n * d == (n * m) * 1000;
    assert FloorTo(start, origin, d) == (o + k * m) * 1000;
    assert FloorTo(start, origin, d) + n * d == (o + k * m + n * m) * 1000;
  }

  lemma RangeInSeconds(start: int, end: int)
    requires start % 1000 == 0 && end >= start
    ensures DiffSeconds(start, end) * 1000 == end / 1000 * 1000 - start
  {
  }

  lemma CountWithin(first: int, end: int, d: int)
    requires d > 0 && end - first <= (LIMIT + 1) * d
    ensures CountBefore(first, d, end) <= LIMIT + 1
  {
    CountBeforeBounds(first, d, end);
    var n: int := CountBefore(first, d, end);
    if n > LIMIT + 1 {
      Apart(LIMIT, n - 1, d);
    }
  }

  /**
   A series that passes the check has at most one bucket more than the limit: for any end when the
   origin and the interval are in whole seconds, and for any origin and interval when the end is.
   */
  lemma LimitBoundsBuckets(start: int, end: int, origin: int, d: int)
    requires d > 0 && start % 1000 == 0
    requires end % 1000 == 0 || (origin % 1000 == 0 && d % 1000 == 0)
    requires !OverLimit(start, end, d)
    ensures |Starts(FloorTo(start, origin, d), d, end)| <= LIMIT + 1
  {
    var first := FloorTo(start, origin, d);
    FloorBounds(start, origin, d);
    if end >= start {
      RangeInSeconds(start, end);
    }
    if end % 1000 != 0 {
      GridIsWhole(start, origin, d, 1);
      assert start + 1000 <= first + d;
    }
    CountWithin(first, end, d);
  }

  /** The one bucket more does happen: two-second buckets over 100000 seconds that start off the grid. */
  lemma LimitIsTight()
    ensures !OverLimit(1000, 100_001_000, 2000)
    ensures |Starts(FloorTo(1000, 0, 2000), 2000, 100_001_000)| == LIMIT + 1
  {
    CountBeforeIs(0, 2000, 100_001_000, LIMIT + 1);
  }

  // ---- snapping a value to its custom bucket ----

  datatype Range = Range(start: int, end: int)

  /** Where the range of a value starts: at its bucket if there is an origin, else at the value itself. */
  function SnapStart(from: int, d: int, origin: Option<int>): int {
    if origin.None? || d == 0 then from else FloorTo(from, origin.value, Abs(d))
  }

  /**
   The range of the bucket of a value, as drill-down uses it; the origin is absent if neither it nor an
   offset is given.
   */
  method SnapToCustom(from: int, interval: seq<Component>, origin: Option<int>) returns (range: Range)
    requires Length(interval) != 0 || origin.None? || origin.value == from
    ensures var start := SnapStart(from, Length(interval), origin);
            range == Range(start, start + Length(interval) - 1)
  {
    var intervalStart := from;
    if origin.Some? {
      intervalStart := ClientAlignToOrigin(from, interval, origin.value);
    }
    var intervalEnd := AddInterval(intervalStart, interval);
    range := Range(intervalStart, intervalEnd - 1);
  }

  /** The range contains the value if and only if the interval is positive; any other range is upside down. */
  lemma SnapContains(from: int, origin: Option<int>, d: int)
    ensures var start := SnapStart(from, d, origin);
            (start <= from <= start + d - 1 <==> d > 0) && (d <= 0 ==> start + d - 1 < start)
  {
    if origin.Some? && d != 0 {
      FloorBounds(from, origin.value, Abs(d));
    }
  }

  // ---- predefined granularities up to a week ----

  /** Weeks start on Monday: the epoch is a Thursday. */
  function UnitOrigin(u: Unit): int {
    if u.Week? then -259_200_000 else 0
  }

  function StartOf(x: int, u: Unit): int {
    FloorTo(x, UnitOrigin(u), UnitLength(u))
  }

  function EndOf(x: int, u: Unit): int {
    StartOf(x, u) + UnitLength(u) - 1
  }

  ghost predicate Aligned(x: int, u: Unit) {
    StartOf(x, u) == x
  }

  lemma StartOfShift(x: int, u: Unit, n: int)
    ensures StartOf(x + n * UnitLength(u), u) == StartOf(x, u) + n * UnitLength(u)
  {
    var d, o := UnitLength(u), UnitOrigin(u);
    var k := (x - o) / d;
    FloorBounds(x, o, d);
    assert o + (k + n) * d == StartOf(x, u) + n * d;
    FloorUnique(x + n * d, o, d, k + n);
  }

  /** How many points `by` lists. */
  function SeriesCount(from: int, to: int, u: Unit): nat {
    var n := CountBefore(StartOf(from, u), UnitLength(u), to);
    if from + n * UnitLength(u) == to then n + 1 else n
  }

  /** `dayRange(from, to).by(unit)`, then each point cut down to its unit, as the predefined series does. */
  function UnitSeries(from: int, to: int, u: Unit): (s: seq<int>)
    ensures |s| == SeriesCount(from, to, u)
  {
    seq(SeriesCount(from, to, u), i requires 0 <= i => StartOf(from, u) + i * UnitLength(u))
  }

  /** The loop of `by` has listed n points and stops. */
  lemma CountedBy(from: int, to: int, u: Unit, n: nat)
    requires var first, d := StartOf(from, u), UnitLength(u);
             && GridPoint(first, d, n) >= to && GridPoint(from, d, n) != to
             && (n > 0 ==> GridPoint(first, d, n) - d < to || GridPoint(from, d, n) - d == to)
    ensures SeriesCount(from, to, u) == n
  {
    var first, d := StartOf(from, u), UnitLength(u);
    FloorBounds(from, UnitOrigin(u), d);
    if n > 0 && GridPoint(first, d, n) - d >= to {
      // the last point is to itself, the one before it is earlier than to
      GridNext(first, d, n - 1);
      GridNext(from, d, n - 1);
      assert first == from;
      CountedTo(first, d, to, n - 1);
    } else {
      CountedTo(first, d, to, n);
    }
  }

  method By(from: int, to: int, u: Unit) returns (results: seq<int>)
    ensures |results| == SeriesCount(from, to, u)
    ensures forall i | 0 <= i < |results| :: results[i] == GridPoint(from, UnitLength(u), i)
  {
    results := [];
    var start := from;
    ghost var n, d, first := 0, UnitLength(u), StartOf(from, u);
    FloorBounds(from, UnitOrigin(u), d);
    while StartOf(start, u) < to || start == to
      invariant start == GridPoint(from, d, n) && n == |results|
      invariant StartOf(start, u) == GridPoint(first, d, n) && StartOf(start, u) <= start < StartOf(start, u) + d
      invariant forall i | 0 <= i < n :: results[i] == GridPoint(from, d, i)
      invariant n > 0 ==> StartOf(start, u) - d < to || start - d == to
      decreases d + to - start
    {
      GridNext(from, d, n);
      GridNext(first, d, n);
      results := results + [start];
      start := start + UnitLength(u);
      n := n + 1;
      StartOfShift(from, u, n);
    }
    CountedBy(from, to, u, n);
  }

  /** The series of a predefined granularity: only the week snaps the range to whole units first. */
  function PredefinedSeries(from: int, to: int, u: Unit): seq<int> {
    if u.Week? then UnitSeries(StartOf(from, u), EndOf(to, u), u) else UnitSeries(from, to, u)
  }

  method TimeSeries(from: int, to: int, u: Unit) returns (series: seq<int>)
    ensures series == PredefinedSeries(from, to, u)
  {
    var start, end := from, to;
    if u.Week? {
      start, end := StartOf(from, u), EndOf(to, u);
    }
    var points := By(start, end, u);
    series := [];
    for i := 0 to |points|
      invariant |series| == i
      invariant forall j | 0 <= j < i :: series[j] == StartOf(start, u) + j * UnitLength(u)
    {
      StartOfShift(start, u, i);
      series := series + [StartOf(points[i], u)];
    }
  }

  ghost predicate InSeries(from: int, to: int, u: Unit, x: int) {
    && Aligned(x, u)
    && StartOf(from, u) <= x
    && (x < to || (x == to && Aligned(from, u)))
  }

  lemma SeriesPoint(from: int, to: int, u: Unit, i: nat)
    requires i < SeriesCount(from, to, u)
    ensures InSeries(from, to, u, StartOf(from, u) + i * UnitLength(u))
  {
    var d, first := UnitLength(u), StartOf(from, u);
    var n: int := CountBefore(first, d, to);
    CountBeforeBounds(first, d, to);
    FloorBounds(from, UnitOrigin(u), d);
    StartIsAligned(from, u);
    StartOfShift(first, u, i);
    Apart(i, 0, d);
    Apart(i, n - 1, d);
  }

  lemma UnitsAfter(from: int, u: Unit, x: int) returns (i: int)
    requires Aligned(x, u) && StartOf(from, u) <= x
    ensures i >= 0 && x == StartOf(from, u) + i * UnitLength(u)
  {
    var d, o := UnitLength(u), UnitOrigin(u);
    var k, k0 := (x - o) / d, (from - o) / d;
    i := k - k0;
    Difference(k0, k, d);
    assert x == GridPoint(o, d, k) && StartOf(from, u) == GridPoint(o, d, k0);
    Apart(k, k0, d);
  }

  lemma SeriesIndex(from: int, to: int, u: Unit, x: int) returns (i: int)
    requires InSeries(from, to, u, x)
    ensures 0 <= i < SeriesCount(from, to, u) && x == StartOf(from, u) + i * UnitLength(u)
  {
    i := UnitsAfter(from, u, x);
    var d, first := UnitLength(u), StartOf(from, u);
    var n: int := CountBefore(first, d, to);
    CountBeforeBounds(first, d, to);
    Apart(i, n, d);
  }

  lemma SeriesIncreases(from: int, to: int, u: Unit)
    ensures forall i, j | 0 <= i < j < |UnitSeries(from, to, u)| ::
        UnitSeries(from, to, u)[i] < UnitSeries(from, to, u)[j]
  {
    var s := UnitSeries(from, to, u);
    forall i, j | 0 <= i < j < |s| ensures s[i] < s[j] {
      Apart(i, j, UnitLength(u));
    }
  }

  /**
   The series is, in order, exactly the unit starts from the one of from up to, and without, to, and
   to itself when both ends are unit starts.
   */
  lemma UnitSeriesIs(from: int, to: int, u: Unit, x: int)
    ensures x in UnitSeries(from, to, u) <==>
            && Aligned(x, u)
            && StartOf(from, u) <= x
            && (x < to || (x == to && Aligned(from, u)))
    ensures forall i, j | 0 <= i < j < |UnitSeries(from, to, u)| ::
        UnitSeries(from, to, u)[i] < UnitSeries(from, to, u)[j]
  {
    SeriesIncreases(from, to, u);
    var s := UnitSeries(from, to, u);
    if x in s {
      var i :| 0 <= i < |s| && s[i] == x;
      SeriesPoint(from, to, u, i);
    }
    if InSeries(from, to, u, x) {
      var i := SeriesIndex(from, to, u, x);
      assert s[i] == x;
    }
  }

  lemma StartIsAligned(x: int, u: Unit)
    ensures Aligned(StartOf(x, u), u)
  {
    var d, o := UnitLength(u), UnitOrigin(u);
    FloorUnique(StartOf(x, u), o, d, (x - o) / d);
  }

  /** The series of weeks has every week from the one of from to the one of to. */
  lemma WeekSeriesIs(from: int, to: int, x: int)
    ensures x in PredefinedSeries(from, to, Week) <==> Aligned(x, Week) && StartOf(from, Week) <= x <= to
  {
    var a, b := StartOf(from, Week), EndOf(to, Week);
    UnitSeriesIs(a, b, Week, x);
    StartIsAligned(from, Week);
    FloorBounds(to, UnitOrigin(Week), UnitLength(Week));
    if Aligned(x, Week) && to < x <= b {
      var d, o := UnitLength(Week), UnitOrigin(Week);
      Apart((x - o) / d, (to - o) / d, d);
    }
  }

  /** The unit starts a predefined series lists, for every unit. */
  ghost predicate Listed(from: int, to: int, u: Unit, x: int) {
    && Aligned(x, u)
    && StartOf(from, u) <= x
    && (if u.Week? then x <= to else x < to || (x == to && Aligned(from, u)))
  }

  lemma PredefinedSeriesIs(from: int, to: int, u: Unit)
    ensures forall x :: x in PredefinedSeries(from, to, u) <==> Listed(from, to, u, x)
    ensures forall i, j | 0 <= i < j < |PredefinedSeries(from, to, u)| ::
              PredefinedSeries(from, to, u)[i] < PredefinedSeries(from, to, u)[j]
  {
    if u.Week? {
      SeriesIncreases(StartOf(from, u), EndOf(to, u), u);
    } else {
      SeriesIncreases(from, to, u);
    }
    forall x ensures x in PredefinedSeries(from, to, u) <==> Listed(from, to, u, x) {
      if u.Week? {
        WeekSeriesIs(from, to, x);
      } else {
        UnitSeriesIs(from, to, u, x);
      }
    }
  }

  /** Padded to whole days, the series has every unit of every day from the day of from to the day of to. */
  lemma PaddedSeriesIs(from: int, to: int, u: Unit, x: int)
    requires !u.Week?
    ensures x in PredefinedSeries(StartOf(from, Day), EndOf(to, Day), u) <==>
            Aligned(x, u) && StartOf(from, Day) <= x <= EndOf(to, Day)
  {
    var a, b := StartOf(from, Day), EndOf(to, Day);
    UnitSeriesIs(a, b, u, x);
    FloorBounds(from, 0, UnitLength(Day));
    DayIsAligned(from, u);
  }

  lemma DayIsAligned(x: int, u: Unit)
    requires !u.Week?
    ensures Aligned(StartOf(x, Day), u)
  {
    var k, d := x / UnitLength(Day), UnitLength(u);
    var m := UnitLength(Day) / d;
    assert UnitLength(Day) == m * d by {
      match u { case Millisecond => case Second => case Minute => case Hour => case Day => case Week => }
    }
    assert StartOf(x, Day) == (k * m) * d;
    FloorUnique(StartOf(x, Day), 0, d, k * m);
  }

  // ---- what the units and the starts are ----

  lemma UnitsAre()
    ensures UnitLength(Second) == 1000 * UnitLength(Millisecond) && UnitLength(Minute) == 60 * UnitLength(Second)
    ensures UnitLength(Hour) == 60 * UnitLength(Minute) && UnitLength(Day) == 24 * UnitLength(Hour)
    ensures UnitLength(Week) == 7 * UnitLength(Day)
  {
  }

  /** The days since Monday of a day number; day 0 is Thursday, 1 January 1970. */
  function Weekday(day: int): int {
    (day + 3) % 7
  }

  /** The week of an instant starts at midnight of the last Monday, and no other unit has an offset. */
  lemma WeeksStartOnMonday(x: int)
    ensures var day := UnitLength(Day);
            StartOf(x, Week) == (x / day - Weekday(x / day)) * day
    ensures Weekday(StartOf(x, Week) / UnitLength(Day)) == 0
    ensures forall u: Unit | !u.Week? :: StartOf(x, u) % UnitLength(u) == 0 && x - StartOf(x, u) == x % UnitLength(u)
  {
    var day := UnitLength(Day);
    var n := x / day;
    var k := (n + 3) / 7;
    assert n - Weekday(n) == 7 * k - 3;
    FloorUnique(x, UnitOrigin(Week), UnitLength(Week), k);
    assert StartOf(x, Week) == (n - Weekday(n)) * day;
    FloorUnique((n - Weekday(n)) * day, 0, day, n - Weekday(n));
    assert StartOf(x, Week) / day == 7 * k - 3;
    forall u: Unit | !u.Week? ensures StartOf(x, u) % UnitLength(u) == 0 && x - StartOf(x, u) == x % UnitLength(u) {
      FloorIsMultiple(x, UnitLength(u));
    }
  }

  lemma FloorIsMultiple(x: int, d: int)
    requires d > 0
    ensures FloorTo(x, 0, d) % d == 0 && x - FloorTo(x, 0, d) == x % d
  {
    var y := FloorTo(x, 0, d);
    assert x == x / d * d + x % d;
    FloorUnique(y, 0, d, x / d);
    assert y == y / d * d + y % d;
  }

  /** The server lists the points of the grid whose buckets end after start, as far as they are before end. */
  lemma StartIsListed(start: int, end: int, origin: int, d: int, x: int)
    requires d > 0
    ensures x in Starts(FloorTo(start, origin, d), d, end) <==> OnGrid(x, origin, d) && start < x + d && x < end
  {
    var first, k0 := FloorTo(start, origin, d), (start - origin) / d;
    FloorBounds(start, origin, d);
    var n := CountBefore(first, d, end);
    CountBeforeBounds(first, d, end);
    if x in Starts(first, d, end) {
      var i :| 0 <= i < n && x == GridPoint(first, d, i);
      Shifted(k0, i, d);
      assert x == GridPoint(origin, d, k0 + i);
      Apart(i, n - 1, d);
      Apart(0, i, d);
    }
    if OnGrid(x, origin, d) && start < x + d && x < end {
      var k :| x == GridPoint(origin, d, k);
      Apart(k, k0, d);
      Difference(k0, k, d);
      var i := k - k0;
      assert x == GridPoint(first, d, i);
      Apart(i, n, d);
      assert Starts(first, d, end)[i] == x;
    }
  }

  /** A range the check refuses would have more buckets than the limit. */
  lemma RefusedHasMore(start: int, end: int, origin: int, d: int)
    requires d > 0 && start % 1000 == 0 && OverLimit(start, end, d)
    ensures |Starts(FloorTo(start, origin, d), d, end)| > LIMIT
  {
    var first := FloorTo(start, origin, d);
    FloorBounds(start, origin, d);
    var n := CountBefore(first, d, end);
    CountBeforeBounds(first, d, end);
    assert LIMIT * d > 0;
    if end >= start {
      RangeInSeconds(start, end);
    }
    assert end - first > LIMIT * d;
    Apart(n, LIMIT, d);
  }

  /** In milliseconds the labels of a bucket of whole seconds are its first and its last one. */
  lemma LabelsAre(start: int, d: int)
    requires start % 1000 == 0 && d % 1000 == 0
    ensures BucketAt(start, d, 3) == Bucket(start, start + d - 1)
    ensures BucketAt(start, d, 0) == Bucket(start / 1000, (start + d) / 1000 - 1)
  {
    assert Pow10(1) == 10 && Pow10(2) == 100 && Pow10(3) == 1000;
    assert (start + d - 1000) / 1000 == (start + d) / 1000 - 1;
  }
}
