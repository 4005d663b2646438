/**
 Bucket arithmetic on the calendar: intervals of any units, months and years among them, from any origin.
 The points an interval leads to from its origin need not lie on a grid, as months differ in length and
 have no 31st at times; so alignment and series are about the orbit of the origin.
 */
module CalendarBuckets {
  import opened Calendar
  import Buckets

  datatype MonthUnit = OneMonth | Quarter | Year

  function UnitMonths(u: MonthUnit): (n: int)
    ensures n > 0
  {
    match u
    case OneMonth => 1
    case Quarter => 3
    case Year => 12
  }

  /** A part of a parsed interval. */
  datatype Component =
    | Fixed(unit: Buckets.Unit, amount: int)
    | Monthly(per: MonthUnit, amount: int)

  type Interval = seq<Component>

  function AddPart(t: int, c: Component): int {
    match c
    case Fixed(unit, amount) => t + amount * Buckets.UnitLength(unit)
    case Monthly(per, amount) => AddMonths(t, amount * UnitMonths(per))
  }

  /** The parts are added one after the other. */
  function AddAll(t: int, interval: Interval): int {
    if interval == [] then t
    else AddPart(AddAll(t, interval[..|interval| - 1]), interval[|interval| - 1])
  }

  function Negated(interval: Interval): (n: Interval)
    ensures |n| == |interval|
  {
    seq(|interval|, i requires 0 <= i < |interval| => interval[i].(amount := -interval[i].amount))
  }

  function SubtractAll(t: int, interval: Interval): int {
    AddAll(t, Negated(interval))
  }

  lemma AddAllTake(t: int, interval: Interval, i: nat)
    requires i < |interval|
    ensures AddAll(t, interval[..i + 1]) == AddPart(AddAll(t, interval[..i]), interval[i])
  {
    assert interval[..i + 1][..i] == interval[..i];
  }

  method AddInterval(date: int, interval: Interval) returns (res: int)
    ensures res == AddAll(date, interval)
  {
    res := date;
    for i := 0 to |interval|
      invariant res == AddAll(date, interval[..i])
    {
      AddAllTake(date, interval, i);
      res := AddPart(res, interval[i]);
    }
    assert interval[..|interval|] == interval;
  }

  method SubtractInterval(date: int, interval: Interval) returns (res: int)
    ensures res == SubtractAll(date, interval)
  {
    res := date;
    ghost var negated := Negated(interval);
    for i := 0 to |interval|
      invariant res == AddAll(date, negated[..i])
    {
      AddAllTake(date, negated, i);
      res := AddPart(res, interval[i].(amount := -interval[i].amount));
    }
    assert negated[..|interval|] == negated;
  }

  // ---- the direction of an interval ----

  predicate NoneBack(interval: Interval) {
    forall i | 0 <= i < |interval| :: interval[i].amount >= 0
  }

  /** No part goes back and some part goes forward. */
  predicate Forwards(interval: Interval) {
    NoneBack(interval) && exists i :: 0 <= i < |interval| && interval[i].amount > 0
  }

  lemma PartMoves(t: int, c: Component)
    ensures c.amount > 0 ==> AddPart(t, c) > t
    ensures c.amount < 0 ==> AddPart(t, c) < t
    ensures c.amount == 0 ==> AddPart(t, c) == t
  {
    match c {
      case Fixed(unit, amount) => Signs(amount, Buckets.UnitLength(unit));
      case Monthly(per, amount) =>
        Signs(amount, UnitMonths(per));
        AddMonthsMoves(t, amount * UnitMonths(per));
    }
  }

  lemma Signs(amount: int, length: int)
    requires length > 0
    ensures amount > 0 ==> amount * length > 0
    ensures amount < 0 ==> amount * length < 0
    ensures amount == 0 ==> amount * length == 0
  {
  }

  lemma {:induction false} AddingMoves(t: int, interval: Interval)
    requires NoneBack(interval)
    ensures AddAll(t, interval) >= t && (Forwards(interval) ==> AddAll(t, interval) > t)
  {
    if interval != [] {
      var init, last := interval[..|interval| - 1], interval[|interval| - 1];
      AddingMoves(t, init);
      PartMoves(AddAll(t, init), last);
      assert last.amount >= 0;
      if i :| 0 <= i < |interval| && interval[i].amount > 0 {
        assert i < |init| ==> init[i].amount > 0;
      }
    }
  }

  lemma {:induction false} SubtractingMoves(t: int, interval: Interval)
    requires NoneBack(interval)
    ensures SubtractAll(t, interval) <= t && (Forwards(interval) ==> SubtractAll(t, interval) < t)
  {
    if interval != [] {
      var init, last := interval[..|interval| - 1], interval[|interval| - 1];
      SubtractingMoves(t, init);
      assert Negated(interval)[..|init|] == Negated(init);
      PartMoves(SubtractAll(t, init), last.(amount := -last.amount));
      assert last.amount >= 0;
      if i :| 0 <= i < |interval| && interval[i].amount > 0 {
        assert i < |init| ==> init[i].amount > 0;
      }
    }
  }

  lemma NegatedTwice(interval: Interval)
    ensures Negated(Negated(interval)) == interval
  {
  }

  // ---- the orbit of the origin ----

  /** The k-th point from the origin: forwards by adding the interval, backwards by subtracting it. */
  function Orbit(origin: int, interval: Interval, k: int): int
    decreases if k < 0 then -k else k
  {
    if k == 0 then origin
    else if k > 0 then AddAll(Orbit(origin, interval, k - 1), interval)
    else SubtractAll(Orbit(origin, interval, k + 1), interval)
  }

  lemma OrbitStep(origin: int, interval: Interval, k: int)
    requires Forwards(interval)
    ensures Orbit(origin, interval, k) < Orbit(origin, interval, k + 1)
  {
    if k >= 0 {
      AddingMoves(Orbit(origin, interval, k), interval);
    } else {
      SubtractingMoves(Orbit(origin, interval, k + 1), interval);
    }
  }

  lemma {:induction false} OrbitIncreases(origin: int, interval: Interval, a: int, b: int)
    requires Forwards(interval) && a < b
    ensures Orbit(origin, interval, a) < Orbit(origin, interval, b)
    decreases b - a
  {
    OrbitStep(origin, interval, b - 1);
    if a < b - 1 {
      OrbitIncreases(origin, interval, a, b - 1);
    }
  }

  /** The k-th point is the last one that is not after the date. */
  predicate AlignedAt(date: int, origin: int, interval: Interval, k: int) {
    Orbit(origin, interval, k) <= date < Orbit(origin, interval, k + 1)
  }

  /** Alignment has one answer: the points of the orbit cut the time line into buckets. */
  lemma AlignedOnce(date: int, origin: int, interval: Interval, a: int, b: int)
    requires Forwards(interval) && AlignedAt(date, origin, interval, a) && AlignedAt(date, origin, interval, b)
    ensures a == b
  {
    if a + 1 < b {
      OrbitIncreases(origin, interval, a + 1, b);
    } else if b + 1 < a {
      OrbitIncreases(origin, interval, b + 1, a);
    }
  }

  method ServerAlignToOrigin(startDate: int, interval: Interval, origin: int) returns (alignedDate: int, ghost k: int)
    requires Forwards(interval) || startDate == origin
    ensures alignedDate == Orbit(origin, interval, k)
    ensures Forwards(interval) ==> AlignedAt(startDate, origin, interval, k)
    ensures startDate == origin ==> k == 0
  {
    k := 0;
    alignedDate := startDate;
    var offsetDate := origin;
    if startDate < origin {
      OrbitStep(origin, interval, 0);
      while offsetDate > startDate
        invariant k <= 0 && offsetDate == Orbit(origin, interval, k) && startDate < Orbit(origin, interval, k + 1)
        decreases offsetDate - startDate
      {
        SubtractingMoves(offsetDate, interval);
        offsetDate := SubtractInterval(offsetDate, interval);
        k := k - 1;
      }
      alignedDate := offsetDate;
    } else {
      while offsetDate < startDate
        invariant k >= 0 && offsetDate == Orbit(origin, interval, k) && (startDate == origin ==> k == 0)
        invariant k > 0 ==> alignedDate == Orbit(origin, interval, k - 1) && alignedDate < startDate
        decreases startDate - offsetDate
      {
        AddingMoves(offsetDate, interval);
        alignedDate := offsetDate;
        offsetDate := AddInterval(offsetDate, interval);
        k := k + 1;
      }
      if offsetDate == startDate {
        alignedDate := offsetDate;
        if Forwards(interval) {
          OrbitStep(origin, interval, k);
        }
      } else {
        k := k - 1;
      }
    }
  }

  /** The interval in its forward direction: the client turns a negative one round. */
  function Ahead(interval: Interval): Interval {
    if Forwards(Negated(interval)) then Negated(interval) else interval
  }

  lemma SignOf(origin: int, interval: Interval)
    requires Forwards(Ahead(interval))
    ensures AddAll(origin, interval) < origin <==> Forwards(Negated(interval))
  {
    NegatedTwice(interval);
    if Forwards(Negated(interval)) {
      SubtractingMoves(origin, Negated(interval));
    } else {
      AddingMoves(origin, interval);
    }
  }

  /** `intervalOp`, which is one of the two operations. */
  method IntervalOp(date: int, interval: Interval, subtract: bool) returns (res: int)
    ensures res == if subtract then SubtractAll(date, interval) else AddAll(date, interval)
  {
    if subtract {
      res := SubtractInterval(date, interval);
    } else {
      res := AddInterval(date, interval);
    }
  }

  method ClientAlignToOrigin(startDate: int, interval: Interval, origin: int) returns (alignedDate: int, ghost k: int)
    requires Forwards(Ahead(interval)) || startDate == origin
    ensures alignedDate == Orbit(origin, Ahead(interval), k)
    ensures Forwards(Ahead(interval)) ==> AlignedAt(startDate, origin, Ahead(interval), k)
    ensures startDate == origin ==> k == 0
  {
    ghost var ahead := Ahead(interval);
    k := 0;
    alignedDate := startDate;
    var offsetDate := AddInterval(origin, interval);
    var isIntervalNegative := offsetDate < origin;
    offsetDate := origin;
    NegatedTwice(interval);
    if Forwards(ahead) {
      SignOf(origin, interval);
    }
    if startDate < origin {
      OrbitStep(origin, ahead, 0);
      while offsetDate > startDate
        invariant k <= 0 && offsetDate == Orbit(origin, ahead, k) && startDate < Orbit(origin, ahead, k + 1)
        decreases offsetDate - startDate
      {
        SubtractingMoves(offsetDate, ahead);
        offsetDate := IntervalOp(offsetDate, interval, !isIntervalNegative);
        k := k - 1;
      }
      alignedDate := offsetDate;
    } else {
      while offsetDate < startDate
        invariant k >= 0 && offsetDate == Orbit(origin, ahead, k) && (startDate == origin ==> k == 0)
        invariant k > 0 ==> alignedDate == Orbit(origin, ahead, k - 1) && alignedDate < startDate
        decreases startDate - offsetDate
      {
        AddingMoves(offsetDate, ahead);
        alignedDate := offsetDate;
        offsetDate := IntervalOp(offsetDate, interval, isIntervalNegative);
        k := k + 1;
      }
      if offsetDate == startDate {
        alignedDate := offsetDate;
        if Forwards(ahead) {
          OrbitStep(origin, ahead, k);
        }
      } else {
        k := k - 1;
      }
    }
  }

  // ---- custom series ----

  /** The points from first on, each led to from the one before by the interval, up to and without end. */
  function Chain(first: int, interval: Interval, end: int): seq<int>
    requires Forwards(interval)
    decreases end - first
  {
    if end <= first then []
    else
      AddingMoves(first, interval);
      [first] + Chain(AddAll(first, interval), interval, end)
  }

  lemma {:induction false} ChainLinks(first: int, interval: Interval, end: int)
    requires Forwards(interval)
    ensures var c := Chain(first, interval, end);
            && (c == [] <==> end <= first)
            && (c != [] ==> c[0] == first && AddAll(c[|c| - 1], interval) >= end)
            && (forall i | 0 <= i < |c| :: c[i] < end)
            && (forall i | 0 <= i < |c| - 1 :: c[i + 1] == AddAll(c[i], interval))
    decreases end - first
  {
    if first < end {
      AddingMoves(first, interval);
      ChainLinks(AddAll(first, interval), interval, end);
    }
  }

  function BucketFrom(start: int, interval: Interval, precision: nat): Buckets.Bucket {
    Buckets.Bucket(Buckets.ZerosLabel(start, precision),
                   Buckets.NinesLabel(AddAll(start, interval) - 1000, precision))
  }

  function Labels(starts: seq<int>, interval: Interval, precision: nat): (b: seq<Buckets.Bucket>)
    ensures |b| == |starts|
  {
    seq(|starts|, i requires 0 <= i < |starts| => BucketFrom(starts[i], interval, precision))
  }

  /** The server's series; `overLimit` is what the check against the average length of the interval says. */
  method ServerTimeSeries(interval: Interval, start: int, end: int, origin: int, precision: nat, overLimit: bool)
    returns (series: Buckets.Series<Buckets.Bucket>, ghost k: int)
    requires Forwards(interval)
    ensures overLimit ==> series == Buckets.TooMany
    ensures !overLimit ==>
              && AlignedAt(start, origin, interval, k)
              && series == Buckets.Dates(Labels(Chain(Orbit(origin, interval, k), interval, end), interval, precision))
  {
    k := 0;
    if overLimit {
      return Buckets.TooMany, 0;
    }
    var alignedStart;
    alignedStart, k := ServerAlignToOrigin(start, interval, origin);
    ghost var first, seen := alignedStart, [];
    var dates: seq<Buckets.Bucket> := [];
    while alignedStart < end
      invariant seen + Chain(alignedStart, interval, end) == Chain(first, interval, end)
      invariant dates == Labels(seen, interval, precision)
      decreases end - alignedStart
    {
      AddingMoves(alignedStart, interval);
      var s := alignedStart;
      alignedStart := AddInterval(alignedStart, interval);
      dates := dates + [Buckets.Bucket(Buckets.ZerosLabel(s, precision),
                                       Buckets.NinesLabel(alignedStart - 1000, precision))];
      assert seen + ([s] + Chain(alignedStart, interval, end)) == seen + [s] + Chain(alignedStart, interval, end);
      seen := seen + [s];
    }
    assert seen + [] == seen;
    series := Buckets.Dates(dates);
  }

  /** The client's series lists end too, and has no limit. */
  method ClientTimeSeries(interval: Interval, start: int, end: int, origin: int)
    returns (dates: seq<int>, ghost k: int)
    requires Forwards(interval)
    ensures AlignedAt(start, origin, interval, k)
    ensures var starts := Chain(Orbit(origin, interval, k), interval, end + 1);
            dates == seq(|starts|, i requires 0 <= i < |starts| => Buckets.ZerosLabel(starts[i], 3))
  {
    AheadOfForwards(interval);
    var alignedStart;
    alignedStart, k := ClientAlignToOrigin(start, interval, origin);
    ghost var first, seen := alignedStart, [];
    dates := [];
    while alignedStart < end || alignedStart == end
      invariant seen + Chain(alignedStart, interval, end + 1) == Chain(first, interval, end + 1)
      invariant dates == seq(|seen|, i requires 0 <= i < |seen| => Buckets.ZerosLabel(seen[i], 3))
      decreases end - alignedStart
    {
      AddingMoves(alignedStart, interval);
      ghost var s := alignedStart;
      dates := dates + [Buckets.ZerosLabel(alignedStart, 3)];
      alignedStart := AddInterval(alignedStart, interval);
      assert seen + ([s] + Chain(alignedStart, interval, end + 1))
          == seen + [s] + Chain(alignedStart, interval, end + 1);
      seen := seen + [s];
    }
    assert seen + [] == seen;
  }

  lemma AheadOfForwards(interval: Interval)
    requires Forwards(interval)
    ensures Ahead(interval) == interval
  {
    var i :| 0 <= i < |interval| && interval[i].amount > 0;
    assert Negated(interval)[i].amount < 0;
  }

  /**
   The buckets tile, months and years too: each starts one tick after the one before it ends, and
   together they reach the second of end.
   */
  lemma BucketsTile(first: int, interval: Interval, end: int, precision: nat)
    requires Forwards(interval)
    ensures var b := Labels(Chain(first, interval, end), interval, precision);
            && (forall i | 0 <= i < |b| - 1 :: b[i].last + 1 == b[i + 1].first)
            && (|b| > 0 ==> b[0].first == Buckets.ZerosLabel(first, precision))
            && (|b| > 0 ==> b[|b| - 1].last + 1 >= Buckets.ZerosLabel(end, precision))
  {
    var c := Chain(first, interval, end);
    var b, n := Labels(c, interval, precision), |c|;
    ChainLinks(first, interval, end);
    forall i | 0 <= i < n ensures b[i].last + 1 == Buckets.ZerosLabel(AddAll(c[i], interval), precision) {
      Buckets.NinesBeforeZeros(AddAll(c[i], interval), precision);
    }
    if n > 0 {
      Buckets.TicksMonotone(end / 1000, AddAll(c[n - 1], interval) / 1000, precision);
    }
  }

  // ---- whole seconds ----

  predicate WholePart(c: Component) {
    c.Fixed? && c.unit.Millisecond? ==> c.amount % 1000 == 0
  }

  predicate InSeconds(interval: Interval) {
    forall i | 0 <= i < |interval| :: WholePart(interval[i])
  }

  lemma Thousands(amount: int, seconds: int)
    ensures amount * (seconds * 1000) % 1000 == 0
  {
    assert amount * (seconds * 1000) == (amount * seconds) * 1000;
  }

  lemma FixedWhole(unit: Buckets.Unit, amount: int)
    requires WholePart(Fixed(unit, amount))
    ensures amount * Buckets.UnitLength(unit) % 1000 == 0
  {
    match unit {
      case Millisecond =>
      case Second => Thousands(amount, 1);
      case Minute => Thousands(amount, 60);
      case Hour => Thousands(amount, 3_600);
      case Day => Thousands(amount, 86_400);
      case Week => Thousands(amount, 604_800);
    }
  }

  lemma AddPartWhole(t: int, c: Component)
    requires t % 1000 == 0 && WholePart(c)
    ensures AddPart(t, c) % 1000 == 0
  {
    match c {
      case Monthly(per, amount) => AddMonthsWhole(t, amount * UnitMonths(per));
      case Fixed(unit, amount) =>
        FixedWhole(unit, amount);
        SumOfWhole(t, amount * Buckets.UnitLength(unit));
    }
  }

  lemma {:induction false} AddAllWhole(t: int, interval: Interval)
    requires t % 1000 == 0 && InSeconds(interval)
    ensures AddAll(t, interval) % 1000 == 0
  {
    if interval != [] {
      AddAllWhole(t, interval[..|interval| - 1]);
      AddPartWhole(AddAll(t, interval[..|interval| - 1]), interval[|interval| - 1]);
    }
  }

  lemma {:induction false} OrbitWhole(origin: int, interval: Interval, k: int)
    requires origin % 1000 == 0 && InSeconds(interval)
    ensures Orbit(origin, interval, k) % 1000 == 0
    decreases if k < 0 then -k else k
  {
    if k > 0 {
      OrbitWhole(origin, interval, k - 1);
      AddAllWhole(Orbit(origin, interval, k - 1), interval);
    } else if k < 0 {
      OrbitWhole(origin, interval, k + 1);
      forall i | 0 <= i < |interval| ensures WholePart(Negated(interval)[i]) {
        assert WholePart(interval[i]);
      }
      AddAllWhole(Orbit(origin, interval, k + 1), Negated(interval));
    }
  }

  lemma {:induction false} ChainWhole(first: int, interval: Interval, end: int)
    requires Forwards(interval) && first % 1000 == 0 && InSeconds(interval)
    ensures forall i | 0 <= i < |Chain(first, interval, end)| :: Chain(first, interval, end)[i] % 1000 == 0
    decreases end - first
  {
    if first < end {
      AddingMoves(first, interval);
      AddAllWhole(first, interval);
      ChainWhole(AddAll(first, interval), interval, end);
    }
  }

  /** How the label of an end compares with that of a bucket that ends at next. */
  lemma LastTick(t: int, next: int, precision: nat)
    requires next % 1000 == 0
    ensures t < next <==> Buckets.ZerosLabel(t, precision) <= Buckets.NinesLabel(next - 1000, precision)
  {
    Buckets.NinesBeforeZeros(next, precision);
    if t < next {
      assert t / 1000 < next / 1000;
      Buckets.TicksMonotone(t / 1000, next / 1000, precision);
    } else {
      Buckets.TicksMonotone(next / 1000, t / 1000, precision);
    }
  }

  lemma FirstLabels(start: int, first: int, next: int, precision: nat)
    requires first <= start && next % 1000 == 0
    ensures Buckets.ZerosLabel(first, precision) <= Buckets.ZerosLabel(start, precision)
    ensures Buckets.ZerosLabel(start, precision) <= Buckets.NinesLabel(next - 1000, precision) <==> start < next
  {
    Buckets.TicksMonotone(first / 1000, start / 1000, precision);
    LastTick(start, next, precision);
  }

  lemma ChainIsWhole(origin: int, interval: Interval, k: int, end: int, i: nat)
    requires Forwards(interval) && origin % 1000 == 0 && InSeconds(interval)
    requires i < |Chain(Orbit(origin, interval, k), interval, end)|
    ensures AddAll(Chain(Orbit(origin, interval, k), interval, end)[i], interval) % 1000 == 0
  {
    OrbitWhole(origin, interval, k);
    ChainWhole(Orbit(origin, interval, k), interval, end);
    AddAllWhole(Chain(Orbit(origin, interval, k), interval, end)[i], interval);
  }

  /**
   For an origin and an interval in whole seconds and any start and later end: the first bucket contains
   start exactly when going on from the aligned point passes it, and the last one contains end exactly
   when end is not itself the next point.
   */
  lemma BucketsCover(start: int, end: int, origin: int, interval: Interval, k: int, precision: nat)
    requires Forwards(interval) && AlignedAt(start, origin, interval, k) && start < end
    requires origin % 1000 == 0 && InSeconds(interval)
    ensures var c := Chain(Orbit(origin, interval, k), interval, end);
            var b := Labels(c, interval, precision);
            && |b| > 0
            && b[0].first <= Buckets.ZerosLabel(start, precision)
            && (Buckets.ZerosLabel(start, precision) <= b[0].last <==> start < AddAll(c[0], interval))
            && (Buckets.ZerosLabel(end, precision) <= b[|b| - 1].last <==> end != AddAll(c[|c| - 1], interval))
  {
    var c := Chain(Orbit(origin, interval, k), interval, end);
    ChainLinks(Orbit(origin, interval, k), interval, end);
    ChainIsWhole(origin, interval, k, end, 0);
    FirstLabels(start, c[0], AddAll(c[0], interval), precision);
    ChainIsWhole(origin, interval, k, end, |c| - 1);
    LastTick(end, AddAll(c[|c| - 1], interval), precision);
  }

  // ---- server and client ----

  lemma {:induction false} OrbitShift(first: int, interval: Interval, n: nat)
    ensures Orbit(first, interval, n + 1) == Orbit(AddAll(first, interval), interval, n)
  {
    if n > 0 {
      OrbitShift(first, interval, n - 1);
    }
  }

  /** Going on from first leads to end itself. */
  ghost predicate Reaches(first: int, interval: Interval, end: int) {
    exists n: nat :: end == Orbit(first, interval, n)
  }

  lemma ReachesNext(first: int, interval: Interval, end: int)
    requires first != end
    ensures Reaches(first, interval, end) <==> Reaches(AddAll(first, interval), interval, end)
  {
    if n: nat :| end == Orbit(first, interval, n) {
      OrbitShift(first, interval, n - 1);
      assert end == Orbit(AddAll(first, interval), interval, n - 1);
    }
    if n: nat :| end == Orbit(AddAll(first, interval), interval, n) {
      OrbitShift(first, interval, n);
      assert end == Orbit(first, interval, n + 1);
    }
  }

  lemma {:induction false} ChainToEnd(first: int, interval: Interval, end: int)
    requires Forwards(interval)
    ensures Chain(first, interval, end + 1) ==
            Chain(first, interval, end) + if Reaches(first, interval, end) then [end] else []
    decreases end - first
  {
    if end < first {
      if n: nat :| end == Orbit(first, interval, n) {
        if n > 0 {
          OrbitIncreases(first, interval, 0, n);
        }
      }
    } else if end == first {
      AddingMoves(first, interval);
      assert end == Orbit(first, interval, 0);
    } else {
      AddingMoves(first, interval);
      ChainToEnd(AddAll(first, interval), interval, end);
      ReachesNext(first, interval, end);
    }
  }

  /**
   For any interval and origin the two ends list the same bucket starts in the same order, except that
   the client adds end itself when going on from the first start leads there.
   */
  lemma ServerAndClientAgree(start: int, end: int, origin: int, interval: Interval, server: int, client: int)
    requires Forwards(interval)
    requires AlignedAt(start, origin, interval, server) && AlignedAt(start, origin, interval, client)
    ensures var first := Orbit(origin, interval, server);
            Chain(Orbit(origin, interval, client), interval, end + 1) ==
            Chain(first, interval, end) + if Reaches(first, interval, end) then [end] else []
  {
    AlignedOnce(start, origin, interval, server, client);
    ChainToEnd(Orbit(origin, interval, server), interval, end);
  }

  /** From the origin on, going on from the aligned point does pass start. */
  lemma AfterOriginStartIsCovered(start: int, origin: int, interval: Interval, k: int)
    requires Forwards(interval) && AlignedAt(start, origin, interval, k) && origin <= start
    ensures start < AddAll(Orbit(origin, interval, k), interval)
  {
    if k < 0 {
      OrbitIncreases(origin, interval, k + 1, 1);
      if k + 1 < 0 {
        OrbitIncreases(origin, interval, k + 1, 0);
      }
    }
  }
}
