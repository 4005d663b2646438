/**
 The Gregorian calendar on the UTC time line: months of their own lengths, counted from January 1970, and
 adding months, which keeps the day or, if the month has no such day, takes its last one.
 */
module Calendar {

  const DAY := 86_400_000

  predicate IsLeap(year: int) {
    year % 4 == 0 && (year % 100 != 0 || year % 400 == 0)
  }

  function DaysInMonth(m: int): (days: int)
    ensures 28 <= days <= 31
  {
    var month := m % 12;
    if month == 1 then if IsLeap(1970 + m / 12) then 29 else 28
    else if month in {3, 5, 8, 10} then 30
    else 31
  }

  /** The days from January 1970 to a month. */
  function DaysBefore(m: int): int
    decreases if m < 0 then -m else m
  {
    if m == 0 then 0
    else if m > 0 then DaysBefore(m - 1) + DaysInMonth(m - 1)
    else DaysBefore(m + 1) - DaysInMonth(m)
  }

  /** The first millisecond of a month. */
  function MonthStart(m: int): int {
    DaysBefore(m) * DAY
  }

  lemma NextMonth(m: int)
    ensures MonthStart(m + 1) == MonthStart(m) + DaysInMonth(m) * DAY
  {
  }

  lemma {:induction false} MonthsIncrease(a: int, b: int)
    requires a < b
    ensures MonthStart(a) + 28 * DAY <= MonthStart(b)
    decreases b - a
  {
    NextMonth(b - 1);
    if a < b - 1 {
      MonthsIncrease(a, b - 1);
    }
  }

  /** How far an instant is from the month of a guess. */
  function Gap(t: int, guess: int): nat {
    if t < MonthStart(guess) then MonthStart(guess) - t
    else if t >= MonthStart(guess + 1) then t - MonthStart(guess + 1) + 1
    else 0
  }

  /** The month of an instant, looked for from a guess. */
  function MonthFrom(t: int, guess: int): (m: int)
    ensures MonthStart(m) <= t < MonthStart(m + 1)
    decreases Gap(t, guess)
  {
    NextMonth(guess - 1);
    NextMonth(guess);
    NextMonth(guess + 1);
    if t < MonthStart(guess) then MonthFrom(t, guess - 1)
    else if t >= MonthStart(guess + 1) then MonthFrom(t, guess + 1)
    else guess
  }

  function Month(t: int): (m: int)
    ensures MonthStart(m) <= t < MonthStart(m + 1)
  {
    MonthFrom(t, 0)
  }

  lemma MonthIs(t: int, m: int)
    requires MonthStart(m) <= t < MonthStart(m + 1)
    ensures Month(t) == m
  {
    if Month(t) < m && Month(t) + 1 < m {
      MonthsIncrease(Month(t) + 1, m);
    } else if m < Month(t) && m + 1 < Month(t) {
      MonthsIncrease(m + 1, Month(t));
    }
  }

  lemma MonthIsMonotone(a: int, b: int)
    requires a <= b
    ensures Month(a) <= Month(b)
  {
    if Month(b) < Month(a) && Month(b) + 1 < Month(a) {
      MonthsIncrease(Month(b) + 1, Month(a));
    }
  }

  /** How far into its month an instant is. */
  function Offset(t: int): (offset: int)
    ensures 0 <= offset < DaysInMonth(Month(t)) * DAY
  {
    NextMonth(Month(t));
    t - MonthStart(Month(t))
  }

  /** The month has that day and time. */
  predicate Exists(m: int, offset: int) {
    0 <= offset < DaysInMonth(m) * DAY
  }

  function Clamped(m: int, offset: int): (o: int)
    requires offset >= 0
    ensures Exists(m, o)
  {
    if offset < DaysInMonth(m) * DAY then offset else (DaysInMonth(m) - 1) * DAY + offset % DAY
  }

  function AddMonths(t: int, months: int): int {
    var m := Month(t) + months;
    MonthStart(m) + Clamped(m, Offset(t))
  }

  lemma InMonth(m: int, offset: int)
    requires Exists(m, offset)
    ensures Month(MonthStart(m) + offset) == m && Offset(MonthStart(m) + offset) == offset
  {
    NextMonth(m);
    MonthIs(MonthStart(m) + offset, m);
  }

  /** Adding months moves by as many months, and forwards or backwards as their number says. */
  lemma AddMonthsMoves(t: int, months: int)
    ensures Month(AddMonths(t, months)) == Month(t) + months
    ensures Offset(AddMonths(t, months)) == Clamped(Month(t) + months, Offset(t))
    ensures months > 0 ==> AddMonths(t, months) > t
    ensures months < 0 ==> AddMonths(t, months) < t
    ensures months == 0 ==> AddMonths(t, months) == t
  {
    var m := Month(t) + months;
    InMonth(m, Clamped(m, Offset(t)));
    NextMonth(m);
    if months > 1 {
      MonthsIncrease(Month(t) + 1, m);
    } else if months < -1 {
      MonthsIncrease(m + 1, Month(t));
    }
  }

  /** A whole second stays one. */
  lemma AddMonthsWhole(t: int, months: int)
    requires t % 1000 == 0
    ensures AddMonths(t, months) % 1000 == 0
  {
    var m, offset := Month(t) + months, Offset(t);
    WholeSeconds(Month(t));
    WholeSeconds(m);
    SumOfWhole(t, -MonthStart(Month(t)));
    TimeOfDay(offset);
    SumOfWhole((DaysInMonth(m) - 1) * DAY, offset % DAY);
    SumOfWhole(MonthStart(m), Clamped(m, offset));
  }

  lemma SumOfWhole(a: int, b: int)
    requires a % 1000 == 0 && b % 1000 == 0
    ensures (a + b) % 1000 == 0
  {
  }

  lemma TimeOfDay(offset: int)
    requires offset % 1000 == 0
    ensures offset % DAY % 1000 == 0
  {
    var days := offset / DAY;
    assert offset % DAY == offset - days * 86_400 * 1000;
  }

  lemma WholeSeconds(m: int)
    ensures MonthStart(m) % 1000 == 0 && -MonthStart(m) % 1000 == 0
  {
    assert MonthStart(m) == DaysBefore(m) * 86_400 * 1000;
    assert -MonthStart(m) == -DaysBefore(m) * 86_400 * 1000;
  }

  // ---- dates ----

  const DAYS_BEFORE := [0, 31, 59, 90, 120, 151, 181, 212, 243, 273, 304, 334]
  const DAYS_OF := [31, 28, 31, 30, 31, 30, 31, 31, 30, 31, 30, 31]

  /** The leap years before a year, from the year one on. */
  function LeapsBefore(year: int): int {
    (year - 1) / 4 - (year - 1) / 100 + (year - 1) / 400
  }

  function Length(year: int, month: int): int
    requires 1 <= month <= 12
  {
    DAYS_OF[month - 1] + if month == 2 && IsLeap(year) then 1 else 0
  }

  /** The days from 1 January 1970 to a date. */
  function DayNumber(year: int, month: int, day: int): int
    requires 1 <= month <= 12
  {
    365 * (year - 1970) + LeapsBefore(year) - LeapsBefore(1970)
    + DAYS_BEFORE[month - 1] + (if month > 2 && IsLeap(year) then 1 else 0) + day - 1
  }

  predicate IsDate(year: int, month: int, day: int) {
    1 <= month <= 12 && 1 <= day <= Length(year, month)
  }

  function MonthNumber(year: int, month: int): int {
    12 * (year - 1970) + month - 1
  }

  lemma NextDays(m: int)
    ensures DaysBefore(m + 1) == DaysBefore(m) + DaysInMonth(m)
  {
  }

  lemma LengthIs(year: int, month: int)
    requires 1 <= month <= 12
    ensures DaysInMonth(MonthNumber(year, month)) == Length(year, month)
  {
    assert MonthNumber(year, month) % 12 == month - 1 && MonthNumber(year, month) / 12 == year - 1970;
  }

  lemma {:induction false} InYear(year: int, month: int)
    requires 1 <= month <= 12
    ensures DaysBefore(MonthNumber(year, month)) - DaysBefore(MonthNumber(year, 1))
         == DAYS_BEFORE[month - 1] + if month > 2 && IsLeap(year) then 1 else 0
  {
    if month > 1 {
      InYear(year, month - 1);
      LengthIs(year, month - 1);
      NextDays(MonthNumber(year, month - 1));
    }
  }

  lemma YearIs(year: int)
    ensures DaysBefore(MonthNumber(year + 1, 1)) - DaysBefore(MonthNumber(year, 1))
         == 365 + if IsLeap(year) then 1 else 0
  {
    InYear(year, 12);
    LengthIs(year, 12);
    NextDays(MonthNumber(year, 12));
  }

  lemma Quotient(x: int, d: int)
    requires d > 0
    ensures x / d - (x - 1) / d == if x % d == 0 then 1 else 0
  {
    var q := x / d;
    if x % d == 0 {
      QuotientIs(x - 1, d, q - 1, d - 1);
    } else {
      QuotientIs(x - 1, d, q, x % d - 1);
    }
  }

  lemma QuotientIs(x: int, d: int, q: int, r: int)
    requires d > 0 && 0 <= r < d && x == q * d + r
    ensures x / d == q
  {
    var k := x / d - q;
    assert k * d == r - x % d;
    assert (k >= 1 ==> k * d >= d) && (k <= -1 ==> k * d <= -d);
  }

  /** One more leap year is before the next year if this one is a leap year. */
  lemma NextLeaps(year: int)
    ensures LeapsBefore(year + 1) - LeapsBefore(year) == if IsLeap(year) then 1 else 0
  {
    Quotient(year, 4);
    Quotient(year, 100);
    Quotient(year, 400);
    Multiples(year);
  }

  lemma Multiples(year: int)
    ensures (year % 400 == 0 ==> year % 100 == 0) && (year % 100 == 0 ==> year % 4 == 0)
  {
  }

  lemma {:induction false} YearStarts(year: int)
    ensures DaysBefore(MonthNumber(year, 1)) == 365 * (year - 1970) + LeapsBefore(year) - LeapsBefore(1970)
    decreases if year < 1970 then 1970 - year else year - 1970
  {
    if year > 1970 {
      YearStarts(year - 1);
      YearIs(year - 1);
      NextLeaps(year - 1);
    } else if year < 1970 {
      YearStarts(year + 1);
      YearIs(year);
      NextLeaps(year);
    }
  }

  lemma DayNumberIs(year: int, month: int, day: int)
    requires 1 <= month <= 12
    ensures DayNumber(year, month, day) == DaysBefore(MonthNumber(year, month)) + day - 1
  {
    YearStarts(year);
    InYear(year, month);
  }

  /** An instant of a date is in the month of that date, on its day. */
  lemma DateIs(year: int, month: int, day: int, time: int)
    requires IsDate(year, month, day) && 0 <= time < DAY
    ensures var t := DayNumber(year, month, day) * DAY + time;
            Month(t) == MonthNumber(year, month) && Offset(t) == (day - 1) * DAY + time
  {
    DayNumberIs(year, month, day);
    LengthIs(year, month);
    InMonth(MonthNumber(year, month), (day - 1) * DAY + time);
  }

  /** Adding months to a date: the same time on the same day, or on the last day of a shorter month. */
  lemma AddMonthsOnDates(year: int, month: int, day: int, time: int, months: int)
    requires IsDate(year, month, day) && 0 <= time < DAY
    ensures var n := year * 12 + month - 1 + months;
            var (y, m) := (n / 12, n % 12 + 1);
            var d := if day <= Length(y, m) then day else Length(y, m);
            && IsDate(y, m, d)
            && AddMonths(DayNumber(year, month, day) * DAY + time, months) == DayNumber(y, m, d) * DAY + time
  {
    var n := year * 12 + month - 1 + months;
    var (y, m) := (n / 12, n % 12 + 1);
    DateIs(year, month, day, time);
    assert MonthNumber(year, month) + months == MonthNumber(y, m);
    LengthIs(y, m);
    ClampedDay(MonthNumber(y, m), day, time);
    DayNumberIs(y, m, if day <= Length(y, m) then day else Length(y, m));
  }

  lemma ClampedDay(m: int, day: int, time: int)
    requires day >= 1 && 0 <= time < DAY
    ensures Clamped(m, (day - 1) * DAY + time)
         == ((if day <= DaysInMonth(m) then day else DaysInMonth(m)) - 1) * DAY + time
  {
    QuotientIs((day - 1) * DAY + time, DAY, day - 1, time);
  }
}
