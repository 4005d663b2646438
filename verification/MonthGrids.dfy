/**
 Where the orbit of an origin is a grid, so that the calendar is as regular as the linear time line: for
 units up to a week, for months from a day that every month has, and for no other day; and the series of
 the predefined granularities month, quarter and year.
 */
module MonthGrids {
  import opened Calendar
  import opened CalendarBuckets
  import Buckets

  // ---- units up to a week ----

  predicate OnlyFixed(interval: Interval) {
    forall i | 0 <= i < |interval| :: interval[i].Fixed?
  }

  function FixedLength(interval: Interval): int {
    if interval == [] then 0
    else
      var last := interval[|interval| - 1];
      FixedLength(interval[..|interval| - 1]) +
      if last.Fixed? then last.amount * Buckets.UnitLength(last.unit) else 0
  }

  lemma Opposite(a: int, b: int)
    ensures (-a) * b == -(a * b)
  {
  }

  lemma {:induction false} NegatedFixed(interval: Interval)
    requires OnlyFixed(interval)
    ensures OnlyFixed(Negated(interval)) && FixedLength(Negated(interval)) == -FixedLength(interval)
  {
    if interval != [] {
      var init, last := interval[..|interval| - 1], interval[|interval| - 1];
      NegatedFixed(init);
      assert Negated(interval)[..|init|] == Negated(init);
      assert last.Fixed?;
      Opposite(last.amount, Buckets.UnitLength(last.unit));
    }
  }

  lemma {:induction false} AddFixed(t: int, interval: Interval)
    requires OnlyFixed(interval)
    ensures AddAll(t, interval) == t + FixedLength(interval)
  {
    if interval != [] {
      AddFixed(t, interval[..|interval| - 1]);
      assert interval[|interval| - 1].Fixed?;
    }
  }

  lemma {:induction false} FixedOrbit(origin: int, interval: Interval, k: int)
    requires OnlyFixed(interval)
    ensures Orbit(origin, interval, k) == Buckets.GridPoint(origin, FixedLength(interval), k)
    decreases if k < 0 then -k else k
  {
    var d := FixedLength(interval);
    if k > 0 {
      FixedOrbit(origin, interval, k - 1);
      AddFixed(Orbit(origin, interval, k - 1), interval);
      Buckets.GridNext(origin, d, k - 1);
    } else if k < 0 {
      FixedOrbit(origin, interval, k + 1);
      NegatedFixed(interval);
      AddFixed(Orbit(origin, interval, k + 1), Negated(interval));
      Buckets.GridNext(origin, d, k);
    }
  }

  /** With units up to a week only, alignment is the floor division of the linear time line. */
  lemma FixedIsFloor(date: int, origin: int, interval: Interval, k: int)
    requires OnlyFixed(interval) && Forwards(interval) && AlignedAt(date, origin, interval, k)
    ensures FixedLength(interval) > 0
    ensures Orbit(origin, interval, k) == Buckets.FloorTo(date, origin, FixedLength(interval))
  {
    AddingMoves(0, interval);
    AddFixed(0, interval);
    FixedOrbit(origin, interval, k);
    FixedOrbit(origin, interval, k + 1);
    Buckets.GridNext(origin, FixedLength(interval), k);
    Buckets.FloorUnique(date, origin, FixedLength(interval), k);
  }

  // ---- months from a day that every month has ----

  predicate OnlyMonths(interval: Interval) {
    forall i | 0 <= i < |interval| :: interval[i].Monthly?
  }

  function MonthLength(interval: Interval): int {
    if interval == [] then 0
    else
      var last := interval[|interval| - 1];
      MonthLength(interval[..|interval| - 1]) + if last.Monthly? then last.amount * UnitMonths(last.per) else 0
  }

  lemma {:induction false} NegatedMonths(interval: Interval)
    requires OnlyMonths(interval)
    ensures OnlyMonths(Negated(interval)) && MonthLength(Negated(interval)) == -MonthLength(interval)
  {
    if interval != [] {
      var init, last := interval[..|interval| - 1], interval[|interval| - 1];
      NegatedMonths(init);
      assert Negated(interval)[..|init|] == Negated(init);
      assert last.Monthly?;
      Opposite(last.amount, UnitMonths(last.per));
    }
  }

  /** The day and time of the origin in a month, which may not have that day. */
  function DayIn(m: int, origin: int): int {
    MonthStart(m) + Offset(origin)
  }

  predicate HasDay(m: int, origin: int) {
    Exists(m, Offset(origin))
  }

  /** Every month has the day. */
  predicate InEveryMonth(origin: int) {
    Offset(origin) < 28 * DAY
  }

  lemma AddOnDay(m: int, months: int, origin: int)
    requires HasDay(m, origin) && HasDay(m + months, origin)
    ensures AddMonths(DayIn(m, origin), months) == DayIn(m + months, origin)
  {
    InMonth(m, Offset(origin));
  }

  lemma {:induction false} AddOnlyMonths(m: int, origin: int, interval: Interval)
    requires OnlyMonths(interval) && InEveryMonth(origin)
    ensures AddAll(DayIn(m, origin), interval) == DayIn(m + MonthLength(interval), origin)
  {
    if interval != [] {
      var init, last := interval[..|interval| - 1], interval[|interval| - 1];
      AddOnlyMonths(m, origin, init);
      assert last.Monthly?;
      AddOnDay(m + MonthLength(init), last.amount * UnitMonths(last.per), origin);
    }
  }

  /** One interval on from the day of a month. */
  lemma NextOnDay(m: int, origin: int, interval: Interval)
    requires OnlyMonths(interval) && InEveryMonth(origin)
    ensures AddAll(DayIn(m, origin), interval) == DayIn(m + MonthLength(interval), origin)
    ensures SubtractAll(DayIn(m, origin), interval) == DayIn(m - MonthLength(interval), origin)
  {
    AddOnlyMonths(m, origin, interval);
    NegatedMonths(interval);
    AddOnlyMonths(m, origin, Negated(interval));
  }

  lemma MonthlyForth(origin: int, interval: Interval, k: int)
    requires OnlyMonths(interval) && InEveryMonth(origin) && k > 0
    requires Orbit(origin, interval, k - 1) ==
             DayIn(Buckets.GridPoint(Month(origin), MonthLength(interval), k - 1), origin)
    ensures Orbit(origin, interval, k) == DayIn(Buckets.GridPoint(Month(origin), MonthLength(interval), k), origin)
  {
    NextOnDay(Buckets.GridPoint(Month(origin), MonthLength(interval), k - 1), origin, interval);
    Buckets.GridNext(Month(origin), MonthLength(interval), k - 1);
  }

  lemma MonthlyBack(origin: int, interval: Interval, k: int)
    requires OnlyMonths(interval) && InEveryMonth(origin) && k < 0
    requires Orbit(origin, interval, k + 1) ==
             DayIn(Buckets.GridPoint(Month(origin), MonthLength(interval), k + 1), origin)
    ensures Orbit(origin, interval, k) == DayIn(Buckets.GridPoint(Month(origin), MonthLength(interval), k), origin)
  {
    NextOnDay(Buckets.GridPoint(Month(origin), MonthLength(interval), k + 1), origin, interval);
    Buckets.GridNext(Month(origin), MonthLength(interval), k);
  }

  lemma {:induction false} MonthlyOrbit(origin: int, interval: Interval, k: int)
    requires OnlyMonths(interval) && InEveryMonth(origin)
    ensures Orbit(origin, interval, k) == DayIn(Buckets.GridPoint(Month(origin), MonthLength(interval), k), origin)
    decreases if k < 0 then -k else k
  {
    if k > 0 {
      MonthlyOrbit(origin, interval, k - 1);
      MonthlyForth(origin, interval, k);
    } else if k < 0 {
      MonthlyOrbit(origin, interval, k + 1);
      MonthlyBack(origin, interval, k);
    }
  }

  lemma ForwardMonths(origin: int, interval: Interval)
    requires OnlyMonths(interval) && Forwards(interval) && InEveryMonth(origin)
    ensures MonthLength(interval) > 0
  {
    var n, from := MonthLength(interval), Month(origin);
    AddingMoves(origin, interval);
    AddOnlyMonths(from, origin, interval);
    if n < 0 {
      MonthsIncrease(from + n, from);
    }
  }

  /** With months only, and from such a day, alignment is the floor division of the count of months. */
  lemma MonthlyIsFloor(date: int, origin: int, interval: Interval, k: int)
    requires OnlyMonths(interval) && Forwards(interval) && InEveryMonth(origin)
    requires AlignedAt(date, origin, interval, k)
    ensures MonthLength(interval) > 0
    ensures var m := Month(date) - if Offset(date) < Offset(origin) then 1 else 0;
            Orbit(origin, interval, k) == DayIn(Buckets.FloorTo(m, Month(origin), MonthLength(interval)), origin)
  {
    var n, from := MonthLength(interval), Month(origin);
    ForwardMonths(origin, interval);
    MonthlyOrbit(origin, interval, k);
    MonthlyOrbit(origin, interval, k + 1);
    Buckets.GridNext(from, n, k);
    var m := Month(date) - if Offset(date) < Offset(origin) then 1 else 0;
    NotAfter(Buckets.GridPoint(from, n, k), origin, date);
    NotAfter(Buckets.GridPoint(from, n, k + 1), origin, date);
    Buckets.FloorUnique(m, from, n, k);
  }

  /** The day of a month is not after a date: its month is at most the last one whose day has passed. */
  lemma NotAfter(m: int, origin: int, date: int)
    requires InEveryMonth(origin)
    ensures DayIn(m, origin) <= date <==> m <= Month(date) - if Offset(date) < Offset(origin) then 1 else 0
  {
    NextMonth(Month(date));
    if m < Month(date) {
      MonthsIncrease(m, Month(date));
    } else if m > Month(date) {
      NextMonth(Month(date));
      if m > Month(date) + 1 {
        MonthsIncrease(Month(date) + 1, m);
      }
    }
  }

  // ---- any day, one unit ----

  lemma AddOne(t: int, per: MonthUnit, amount: int)
    ensures AddAll(t, [Monthly(per, amount)]) == AddMonths(t, amount * UnitMonths(per))
    ensures SubtractAll(t, [Monthly(per, amount)]) == AddMonths(t, -(amount * UnitMonths(per)))
  {
    var interval := [Monthly(per, amount)];
    assert interval[..0] == [] && Negated(interval) == [Monthly(per, -amount)] && Negated(interval)[..0] == [];
    Opposite(amount, UnitMonths(per));
  }

  /** The orbit of an origin under so many months. */
  function MonthOrbit(origin: int, months: int, k: int): int
    decreases if k < 0 then -k else k
  {
    if k == 0 then origin
    else if k > 0 then AddMonths(MonthOrbit(origin, months, k - 1), months)
    else AddMonths(MonthOrbit(origin, months, k + 1), -months)
  }

  lemma {:induction false} OneUnitOrbit(origin: int, per: MonthUnit, amount: int, k: int)
    ensures Orbit(origin, [Monthly(per, amount)], k) == MonthOrbit(origin, amount * UnitMonths(per), k)
    decreases if k < 0 then -k else k
  {
    if k > 0 {
      OneUnitOrbit(origin, per, amount, k - 1);
      AddOne(Orbit(origin, [Monthly(per, amount)], k - 1), per, amount);
    } else if k < 0 {
      OneUnitOrbit(origin, per, amount, k + 1);
      AddOne(Orbit(origin, [Monthly(per, amount)], k + 1), per, amount);
    }
  }

  lemma MovedMonth(t: int, m: int, months: int)
    requires Month(t) == m
    ensures Month(AddMonths(t, months)) == m + months
  {
    AddMonthsMoves(t, months);
  }

  lemma {:induction false} OrbitMonth(origin: int, months: int, k: int)
    ensures Month(MonthOrbit(origin, months, k)) == Buckets.GridPoint(Month(origin), months, k)
    decreases if k < 0 then -k else k
  {
    var m := Month(origin);
    if k > 0 {
      OrbitMonth(origin, months, k - 1);
      MovedMonth(MonthOrbit(origin, months, k - 1), Buckets.GridPoint(m, months, k - 1), months);
      Buckets.GridNext(m, months, k - 1);
    } else if k < 0 {
      OrbitMonth(origin, months, k + 1);
      MovedMonth(MonthOrbit(origin, months, k + 1), Buckets.GridPoint(m, months, k + 1), -months);
      Buckets.GridNext(m, months, k);
    }
  }

  function MonthAt(origin: int, per: MonthUnit, amount: int, k: int): int {
    Buckets.GridPoint(Month(origin), amount * UnitMonths(per), k)
  }

  /** All points are on the day of the origin. */
  ghost predicate OnTheDay(origin: int, per: MonthUnit, amount: int) {
    forall k :: Orbit(origin, [Monthly(per, amount)], k) == DayIn(MonthAt(origin, per, amount, k), origin)
  }

  /** Every month the interval visits from the origin has the origin's day. */
  ghost predicate DayExists(origin: int, per: MonthUnit, amount: int) {
    forall k :: HasDay(MonthAt(origin, per, amount, k), origin)
  }

  ghost predicate VisitsTheDay(origin: int, months: int) {
    forall k :: HasDay(Buckets.GridPoint(Month(origin), months, k), origin)
  }

  lemma DayForth(origin: int, months: int, k: int)
    requires VisitsTheDay(origin, months)
    requires k > 0
    requires MonthOrbit(origin, months, k - 1) == DayIn(Buckets.GridPoint(Month(origin), months, k - 1), origin)
    ensures MonthOrbit(origin, months, k) == DayIn(Buckets.GridPoint(Month(origin), months, k), origin)
  {
    var before, m := Buckets.GridPoint(Month(origin), months, k - 1), Buckets.GridPoint(Month(origin), months, k);
    assert HasDay(before, origin) && HasDay(m, origin);
    Buckets.GridNext(Month(origin), months, k - 1);
    AddOnDay(before, months, origin);
  }

  lemma DayBack(origin: int, months: int, k: int)
    requires VisitsTheDay(origin, months)
    requires k < 0
    requires MonthOrbit(origin, months, k + 1) == DayIn(Buckets.GridPoint(Month(origin), months, k + 1), origin)
    ensures MonthOrbit(origin, months, k) == DayIn(Buckets.GridPoint(Month(origin), months, k), origin)
  {
    var after, m := Buckets.GridPoint(Month(origin), months, k + 1), Buckets.GridPoint(Month(origin), months, k);
    assert HasDay(after, origin) && HasDay(m, origin);
    Buckets.GridNext(Month(origin), months, k);
    AddOnDay(after, -months, origin);
  }

  lemma {:induction false} KeepsTheDay(origin: int, months: int, k: int)
    requires VisitsTheDay(origin, months)
    ensures MonthOrbit(origin, months, k) == DayIn(Buckets.GridPoint(Month(origin), months, k), origin)
    decreases if k < 0 then -k else k
  {
    if k > 0 {
      KeepsTheDay(origin, months, k - 1);
      DayForth(origin, months, k);
    } else if k < 0 {
      KeepsTheDay(origin, months, k + 1);
      DayBack(origin, months, k);
    }
  }

  /** An interval of months keeps the day of its origin if and only if every month it visits has that day. */
  lemma KeepsTheDayIff(origin: int, per: MonthUnit, amount: int)
    ensures OnTheDay(origin, per, amount) <==> DayExists(origin, per, amount)
  {
    var n := amount * UnitMonths(per);
    if OnTheDay(origin, per, amount) {
      forall k ensures HasDay(MonthAt(origin, per, amount, k), origin) {
        OneUnitOrbit(origin, per, amount, k);
        OrbitMonth(origin, n, k);
        assert Orbit(origin, [Monthly(per, amount)], k) == DayIn(MonthAt(origin, per, amount, k), origin);
        NextMonth(MonthAt(origin, per, amount, k));
      }
    }
    if DayExists(origin, per, amount) {
      forall k ensures HasDay(Buckets.GridPoint(Month(origin), n, k), origin) {
        assert HasDay(MonthAt(origin, per, amount, k), origin);
      }
      forall k
        ensures Orbit(origin, [Monthly(per, amount)], k) == DayIn(MonthAt(origin, per, amount, k), origin)
      {
        OneUnitOrbit(origin, per, amount, k);
        KeepsTheDay(origin, n, k);
      }
    }
  }

  // ---- origins at the end of a month ----

  lemma MonthAfter(m: int, offset: int, next: int)
    requires Exists(m, offset) && next == Clamped(m + 1, offset)
    ensures AddAll(MonthStart(m) + offset, [Monthly(OneMonth, 1)]) == MonthStart(m + 1) + next
  {
    InMonth(m, offset);
    AddOne(MonthStart(m) + offset, OneMonth, 1);
  }

  lemma MonthBefore(m: int, offset: int, before: int)
    requires Exists(m, offset) && before == Clamped(m - 1, offset)
    ensures SubtractAll(MonthStart(m) + offset, [Monthly(OneMonth, 1)]) == MonthStart(m - 1) + before
  {
    InMonth(m, offset);
    AddOne(MonthStart(m) + offset, OneMonth, 1);
  }

  /** The end of January 1971: a month later it is 28 February, and another month later 28 March. */
  lemma LateOriginDrifts()
    ensures var origin, monthly := MonthStart(12) + 30 * DAY, [Monthly(OneMonth, 1)];
            && Orbit(origin, monthly, 1) == MonthStart(13) + 27 * DAY
            && Orbit(origin, monthly, 2) == MonthStart(14) + 27 * DAY
            && !OnTheDay(origin, OneMonth, 1)
  {
    var origin, monthly := MonthStart(12) + 30 * DAY, [Monthly(OneMonth, 1)];
    MonthAfter(12, 30 * DAY, 27 * DAY);
    MonthAfter(13, 27 * DAY, 27 * DAY);
    assert Orbit(origin, monthly, 1) == AddAll(Orbit(origin, monthly, 0), monthly);
    assert Orbit(origin, monthly, 2) == AddAll(Orbit(origin, monthly, 1), monthly);
    InMonth(12, 30 * DAY);
    assert MonthAt(origin, OneMonth, 1, 1) == 13 && !HasDay(13, origin);
    KeepsTheDayIff(origin, OneMonth, 1);
  }

  /**
   A month before the end of March 1971 it is 28 February, and the month from there ends before 29 March:
   alignment gives a bucket that does not contain the date.
   */
  lemma BucketMissesStart()
    ensures var origin, start := MonthStart(14) + 30 * DAY, MonthStart(14) + 28 * DAY;
            var monthly := [Monthly(OneMonth, 1)];
            && AlignedAt(start, origin, monthly, -1)
            && AddAll(Orbit(origin, monthly, -1), monthly) <= start
  {
    var origin, monthly := MonthStart(14) + 30 * DAY, [Monthly(OneMonth, 1)];
    MonthBefore(14, 30 * DAY, 27 * DAY);
    MonthAfter(13, 27 * DAY, 27 * DAY);
    assert Orbit(origin, monthly, -1) == SubtractAll(Orbit(origin, monthly, 0), monthly);
    NextMonth(13);
  }

  // ---- predefined granularities of months ----

  /** The number of the unit a month belongs to. */
  function UnitOf(m: int, per: MonthUnit): int {
    match per
    case OneMonth => m
    case Quarter => m / 3
    case Year => m / 12
  }

  function FirstMonth(unit: int, per: MonthUnit): int {
    match per
    case OneMonth => unit
    case Quarter => 3 * unit
    case Year => 12 * unit
  }

  /** The first millisecond of a unit. */
  function StartOfUnit(unit: int, per: MonthUnit): int {
    MonthStart(FirstMonth(unit, per))
  }

  function UnitAt(t: int, per: MonthUnit): int {
    UnitOf(Month(t), per)
  }

  /** `startOf` and `endOf`. */
  function UnitStart(t: int, per: MonthUnit): int {
    StartOfUnit(UnitAt(t, per), per)
  }

  function UnitEnd(t: int, per: MonthUnit): int {
    StartOfUnit(UnitAt(t, per) + 1, per) - 1
  }

  // ---- units of any kind, by their starts ----

  ghost predicate Increasing(starts: int -> int) {
    forall a, b :: a < b ==> starts(a) < starts(b)
  }

  /** The starts of the units from first to last. */
  function UnitsBetween(starts: int -> int, first: int, last: int): (s: seq<int>) {
    seq(if last < first then 0 else last - first + 1, i => starts(first + i))
  }

  lemma UnitIsListed(starts: int -> int, first: int, last: int, u: int)
    requires first <= u <= last
    ensures starts(u) in UnitsBetween(starts, first, last)
  {
    var i := u - first;
    assert first + i == u;
    assert UnitsBetween(starts, first, last)[i] == starts(u);
  }

  lemma InOrder(starts: int -> int, a: int, b: int)
    requires Increasing(starts)
    ensures a <= b <==> starts(a) <= starts(b)
  {
  }

  lemma BetweenIncreases(starts: int -> int, first: int, last: int)
    requires Increasing(starts)
    ensures forall i, j | 0 <= i < j < |UnitsBetween(starts, first, last)| ::
              UnitsBetween(starts, first, last)[i] < UnitsBetween(starts, first, last)[j]
  {
  }

  lemma BetweenIs(starts: int -> int, first: int, last: int, x: int)
    ensures x in UnitsBetween(starts, first, last) <==> exists u :: first <= u <= last && x == starts(u)
  {
    if u :| first <= u <= last && x == starts(u) {
      UnitIsListed(starts, first, last, u);
    }
    if x in UnitsBetween(starts, first, last) {
      var i :| 0 <= i < |UnitsBetween(starts, first, last)| && UnitsBetween(starts, first, last)[i] == x;
      assert x == starts(first + i);
    }
  }

  /** What `startOf` and `add` of a unit are to its starts. */
  ghost predicate Steps(starts: int -> int, startOf: int -> int, add: int -> int) {
    && Increasing(starts)
    && (forall u {:trigger startOf(starts(u))} :: startOf(starts(u)) == starts(u))
    && (forall u {:trigger add(starts(u))} :: add(starts(u)) == starts(u + 1))
  }

  /** The loop at the start of a unit: it goes on exactly up to the last one. */
  lemma GoesOn(starts: int -> int, unit: int, end: int, last: int)
    requires Increasing(starts) && starts(last) < end < starts(last + 1)
    ensures starts(unit) < end || starts(unit) == end <==> unit <= last
  {
    InOrder(starts, unit, last);
    InOrder(starts, last + 1, unit);
  }

  /** One turn of the loop, at the start of a unit. */
  lemma Turn(starts: int -> int, startOf: int -> int, add: int -> int, unit: int, end: int, last: int)
    requires Steps(starts, startOf, add) && starts(last) < end < starts(last + 1)
    ensures startOf(starts(unit)) < end || starts(unit) == end <==> unit <= last
    ensures add(starts(unit)) == starts(unit + 1)
  {
    GoesOn(starts, unit, end, last);
  }

  lemma BetweenSnoc(starts: int -> int, first: int, last: int)
    requires first <= last
    ensures UnitsBetween(starts, first, last) == UnitsBetween(starts, first, last - 1) + [starts(last)]
  {
  }

  /** The loop of `by`, over a range that was snapped to whole units. */
  method By(start: int, end: int, startOf: int -> int, add: int -> int,
            ghost starts: int -> int, ghost first: int, ghost last: int)
    returns (results: seq<int>)
    requires Steps(starts, startOf, add)
    requires start == starts(first) && starts(last) < end < starts(last + 1)
    ensures results == UnitsBetween(starts, first, last)
  {
    results := [];
    var at := start;
    ghost var unit := first;
    Turn(starts, startOf, add, unit, end, last);
    while startOf(at) < end || at == end
      invariant first <= unit && (unit <= last + 1 || unit == first)
      invariant at == starts(unit) && results == UnitsBetween(starts, first, unit - 1)
      invariant startOf(at) < end || at == end <==> unit <= last
      decreases last - unit
    {
      Turn(starts, startOf, add, unit, end, last);
      BetweenSnoc(starts, first, unit);
      results := results + [at];
      at := add(at);
      unit := unit + 1;
      Turn(starts, startOf, add, unit, end, last);
    }
  }

  // ---- the series of months, quarters and years ----

  function Starts(per: MonthUnit): int -> int {
    (unit: int) => StartOfUnit(unit, per)
  }

  function MonthSeries(from: int, to: int, per: MonthUnit): seq<int> {
    UnitsBetween(Starts(per), UnitAt(from, per), UnitAt(to, per))
  }

  lemma UnitsIncrease(a: int, b: int, per: MonthUnit)
    requires a < b
    ensures StartOfUnit(a, per) + 28 * DAY <= StartOfUnit(b, per)
  {
    MonthsIncrease(FirstMonth(a, per), FirstMonth(b, per));
  }

  lemma UnitOfStart(unit: int, per: MonthUnit)
    ensures UnitAt(StartOfUnit(unit, per), per) == unit
    ensures AddMonths(StartOfUnit(unit, per), UnitMonths(per)) == StartOfUnit(unit + 1, per)
  {
    InMonth(FirstMonth(unit, per), 0);
  }

  lemma StartsStep(per: MonthUnit)
    ensures Steps(Starts(per), t => UnitStart(t, per), t => AddMonths(t, UnitMonths(per)))
  {
    forall a, b | a < b ensures Starts(per)(a) < Starts(per)(b) {
      UnitsIncrease(a, b, per);
    }
    forall u
      ensures UnitStart(Starts(per)(u), per) == Starts(per)(u)
      ensures AddMonths(Starts(per)(u), UnitMonths(per)) == Starts(per)(u + 1)
    {
      UnitOfStart(u, per);
    }
  }

  /** An instant lies between the start of its unit and that of the next. */
  lemma UnitHolds(t: int, per: MonthUnit)
    ensures UnitStart(t, per) <= t <= UnitEnd(t, per)
  {
    var m, first, next := Month(t), FirstMonth(UnitAt(t, per), per), FirstMonth(UnitAt(t, per) + 1, per);
    assert first <= m < next;
    if first < m {
      MonthsIncrease(first, m);
    }
    if m + 1 < next {
      MonthsIncrease(m + 1, next);
    }
  }

  /** `snapTo(unit)`, then `by(unit)`; each point is the start of its unit. */
  method TimeSeries(from: int, to: int, per: MonthUnit) returns (series: seq<int>)
    ensures series == MonthSeries(from, to, per)
  {
    StartsStep(per);
    UnitsIncrease(UnitAt(to, per), UnitAt(to, per) + 1, per);
    series := By(UnitStart(from, per), UnitEnd(to, per), t => UnitStart(t, per), t => AddMonths(t, UnitMonths(per)),
                 Starts(per), UnitAt(from, per), UnitAt(to, per));
  }

  /** The first millisecond of a unit from the one of from to the one of to. */
  ghost predicate Listed(from: int, to: int, per: MonthUnit, x: int) {
    UnitStart(x, per) == x && UnitStart(from, per) <= x <= to
  }

  lemma Comparable(a: int, b: int, per: MonthUnit)
    ensures StartOfUnit(a, per) <= StartOfUnit(b, per) <==> a <= b
  {
    if a < b {
      UnitsIncrease(a, b, per);
    } else if b < a {
      UnitsIncrease(b, a, per);
    }
  }

  lemma NotAfterUnit(unit: int, to: int, per: MonthUnit)
    ensures StartOfUnit(unit, per) <= to <==> unit <= UnitAt(to, per)
  {
    UnitHolds(to, per);
    Comparable(unit, UnitAt(to, per), per);
    Comparable(UnitAt(to, per) + 1, unit, per);
  }

  lemma ListedIff(from: int, to: int, per: MonthUnit, x: int)
    ensures Listed(from, to, per, x) <==>
            exists u :: UnitAt(from, per) <= u <= UnitAt(to, per) && x == Starts(per)(u)
  {
    if Listed(from, to, per, x) {
      var u := UnitAt(x, per);
      Comparable(UnitAt(from, per), u, per);
      NotAfterUnit(u, to, per);
      assert x == Starts(per)(u);
    }
    if u :| UnitAt(from, per) <= u <= UnitAt(to, per) && x == Starts(per)(u) {
      UnitOfStart(u, per);
      Comparable(UnitAt(from, per), u, per);
      NotAfterUnit(u, to, per);
    }
  }

  /** The series lists, strictly increasing, exactly the unit starts from the unit of from to the one of to. */
  lemma MonthSeriesIs(from: int, to: int, per: MonthUnit)
    ensures forall x :: x in MonthSeries(from, to, per) <==> Listed(from, to, per, x)
    ensures forall i, j | 0 <= i < j < |MonthSeries(from, to, per)| ::
              MonthSeries(from, to, per)[i] < MonthSeries(from, to, per)[j]
  {
    StartsStep(per);
    BetweenIncreases(Starts(per), UnitAt(from, per), UnitAt(to, per));
    forall x ensures x in MonthSeries(from, to, per) <==> Listed(from, to, per, x) {
      BetweenIs(Starts(per), UnitAt(from, per), UnitAt(to, per), x);
      ListedIff(from, to, per, x);
    }
  }

  // ---- units and parts by their dates ----

  function FirstOf(month: int, per: MonthUnit): int {
    match per
    case OneMonth => month
    case Quarter => (month - 1) / 3 * 3 + 1
    case Year => 1
  }

  function LastOf(month: int, per: MonthUnit): int {
    match per
    case OneMonth => month
    case Quarter => (month - 1) / 3 * 3 + 3
    case Year => 12
  }

  lemma UnitMonthsOf(year: int, month: int, per: MonthUnit)
    requires 1 <= month <= 12
    ensures 1 <= FirstOf(month, per) <= month <= LastOf(month, per) <= 12
    ensures var unit := UnitOf(MonthNumber(year, month), per);
            && FirstMonth(unit, per) == MonthNumber(year, FirstOf(month, per))
            && FirstMonth(unit + 1, per) == MonthNumber(year, LastOf(month, per)) + 1
  {
  }

  /** A month, quarter or year runs from its first day to the last millisecond of its last one. */
  lemma UnitOfDate(year: int, month: int, day: int, time: int, per: MonthUnit)
    requires IsDate(year, month, day) && 0 <= time < DAY
    ensures 1 <= FirstOf(month, per) <= month <= LastOf(month, per) <= 12
    ensures UnitStart(DayNumber(year, month, day) * DAY + time, per) == DayNumber(year, FirstOf(month, per), 1) * DAY
    ensures var last := LastOf(month, per);
            UnitEnd(DayNumber(year, month, day) * DAY + time, per)
            == DayNumber(year, last, Length(year, last)) * DAY + DAY - 1
  {
    UnitOfMonth(year, month, per);
    MonthOfDate(year, month, day, time, per);
  }

  lemma UnitOfMonth(year: int, month: int, per: MonthUnit)
    requires 1 <= month <= 12
    ensures 1 <= FirstOf(month, per) <= month <= LastOf(month, per) <= 12
    ensures StartOfUnit(UnitOf(MonthNumber(year, month), per), per) == DayNumber(year, FirstOf(month, per), 1) * DAY
    ensures var last := LastOf(month, per);
            StartOfUnit(UnitOf(MonthNumber(year, month), per) + 1, per)
            == DayNumber(year, last, Length(year, last)) * DAY + DAY
  {
    UnitMonthsOf(year, month, per);
    FirstDay(year, FirstOf(month, per));
    LastDay(year, LastOf(month, per));
  }

  lemma MonthOfDate(year: int, month: int, day: int, time: int, per: MonthUnit)
    requires IsDate(year, month, day) && 0 <= time < DAY
    ensures UnitAt(DayNumber(year, month, day) * DAY + time, per) == UnitOf(MonthNumber(year, month), per)
  {
    DateIs(year, month, day, time);
  }

  lemma FirstDay(year: int, month: int)
    requires 1 <= month <= 12
    ensures MonthStart(MonthNumber(year, month)) == DayNumber(year, month, 1) * DAY
  {
    DayNumberIs(year, month, 1);
  }

  lemma LastDay(year: int, month: int)
    requires 1 <= month <= 12
    ensures MonthStart(MonthNumber(year, month) + 1) == DayNumber(year, month, Length(year, month)) * DAY + DAY
  {
    NextMonth(MonthNumber(year, month));
    LengthIs(year, month);
    DayNumberIs(year, month, Length(year, month));
  }

  /** A quarter is three months and a year is twelve. */
  lemma MonthParts(t: int, per: MonthUnit, amount: int)
    ensures per.OneMonth? ==> AddPart(t, Monthly(per, amount)) == AddMonths(t, amount)
    ensures per.Quarter? ==> AddPart(t, Monthly(per, amount)) == AddMonths(t, amount * 3)
    ensures per.Year? ==> AddPart(t, Monthly(per, amount)) == AddMonths(t, amount * 12)
  {
  }

  /** The parts are added from the first to the last. */
  lemma {:induction false} PartsInOrder(t: int, a: Interval, b: Interval)
    ensures AddAll(t, a + b) == AddAll(AddAll(t, a), b)
  {
    if b == [] {
      assert a + b == a;
    } else {
      var n := |a + b| - 1;
      assert (a + b)[..n] == a + b[..|b| - 1];
      PartsInOrder(t, a, b[..|b| - 1]);
    }
  }

  /** The order matters: a month and a day from 30 January lead to 1 March, a day and a month to 28 February. */
  lemma OrderMatters(year: int)
    requires !IsLeap(year)
    ensures AddAll(DayNumber(year, 1, 30) * DAY, [Monthly(OneMonth, 1), Fixed(Buckets.Day, 1)])
         == DayNumber(year, 3, 1) * DAY
    ensures AddAll(DayNumber(year, 1, 30) * DAY, [Fixed(Buckets.Day, 1), Monthly(OneMonth, 1)])
         == DayNumber(year, 2, 28) * DAY
  {
    TwoParts(DayNumber(year, 1, 30) * DAY, Monthly(OneMonth, 1), Fixed(Buckets.Day, 1));
    TwoParts(DayNumber(year, 1, 30) * DAY, Fixed(Buckets.Day, 1), Monthly(OneMonth, 1));
    MonthAfterEnd(year, 30);
    MonthAfterEnd(year, 31);
    OneDay(year, 1, 30);
    OneDay(year, 2, 28);
    assert DayNumber(year, 3, 1) == DayNumber(year, 2, 29);
  }

  lemma OneDay(year: int, month: int, day: int)
    requires 1 <= month <= 12
    ensures AddPart(DayNumber(year, month, day) * DAY, Fixed(Buckets.Day, 1)) == DayNumber(year, month, day + 1) * DAY
  {
  }

  lemma MonthAfterEnd(year: int, day: int)
    requires !IsLeap(year) && 30 <= day <= 31
    ensures AddPart(DayNumber(year, 1, day) * DAY, Monthly(OneMonth, 1)) == DayNumber(year, 2, 28) * DAY
  {
    IntoFebruary(year, day);
    MonthParts(DayNumber(year, 1, day) * DAY, OneMonth, 1);
  }

  lemma IntoFebruary(year: int, day: int)
    requires !IsLeap(year) && 30 <= day <= 31
    ensures AddMonths(DayNumber(year, 1, day) * DAY, 1) == DayNumber(year, 2, 28) * DAY
  {
    DateIs(year, 1, day, 0);
    assert MonthNumber(year, 1) + 1 == MonthNumber(year, 2);
    LengthIs(year, 2);
    ClampedDay(MonthNumber(year, 2), day, 0);
    DayNumberIs(year, 2, 28);
  }

  lemma TwoParts(t: int, c: Component, d: Component)
    ensures AddAll(t, [c, d]) == AddPart(AddPart(t, c), d)
  {
    PartsInOrder(t, [c], [d]);
    assert [c] + [d] == [c, d];
    OnePart(t, c);
    OnePart(AddPart(t, c), d);
  }

  lemma OnePart(t: int, c: Component)
    ensures AddAll(t, [c]) == AddPart(t, c)
  {
    assert [c][..0] == [];
  }

  /** Monday, 1 January 2024, begins the week of the Sunday after it, and the one before is of the old year. */
  lemma WeeksOfDates()
    ensures Buckets.StartOf(DayNumber(2024, 1, 7) * DAY, Buckets.Week) == DayNumber(2024, 1, 1) * DAY
    ensures Buckets.StartOf(DayNumber(2023, 12, 31) * DAY, Buckets.Week) == DayNumber(2023, 12, 25) * DAY
  {
    Buckets.FloorUnique(DayNumber(2024, 1, 7) * DAY, Buckets.UnitOrigin(Buckets.Week), 7 * DAY, 2818);
    Buckets.FloorUnique(DayNumber(2023, 12, 31) * DAY, Buckets.UnitOrigin(Buckets.Week), 7 * DAY, 2817);
  }
}
