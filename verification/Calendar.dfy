/** Proleptic Gregorian dates as `datetime` keeps them, and their day numbers.
    Day 0 is 1 January of year 1, a Monday; all instants are UTC, in microseconds. */
module Calendar {
  const TICKS_PER_DAY: int := 86_400_000_000

  predicate IsLeap(year: int) {
    year % 4 == 0 && (year % 100 != 0 || year % 400 == 0)
  }

  function DaysInMonth(year: int, month: int): int
    requires 1 <= month <= 12
  {
    if month == 2 then (if IsLeap(year) then 29 else 28)
    else if month == 4 || month == 6 || month == 9 || month == 11 then 30
    else 31
  }

  function DaysBeforeYear(year: int): int {
    var p := year - 1;
    365 * p + p / 4 - p / 100 + p / 400
  }

  function DaysBeforeMonth(year: int, month: int): int
    requires 1 <= month <= 12
  {
    [0, 31, 59, 90, 120, 151, 181, 212, 243, 273, 304, 334][month - 1]
    + (if month > 2 && IsLeap(year) then 1 else 0)
  }

  datatype DateTime = DateTime(year: int, month: int, day: int, tick: int) {
    predicate Valid() {
      && 1 <= month <= 12
      && 1 <= day <= DaysInMonth(year, month)
      && 0 <= tick < TICKS_PER_DAY
    }

    function DayNumber(): int
      requires Valid()
    {
      DaysBeforeYear(year) + DaysBeforeMonth(year, month) + day - 1
    }

    function MonthNumber(): int {
      12 * year + month - 1
    }
  }

  function At(day: int, tick: int): int {
    day * TICKS_PER_DAY + tick
  }

  /** The same day of the month `months` later, clamped to the length of that month. */
  function AddMonths(dt: DateTime, months: nat): DateTime
    requires dt.Valid()
  {
    var m := dt.month - 1 + months;
    var year, month := dt.year + m / 12, m % 12 + 1;
    var last := DaysInMonth(year, month);
    dt.(year := year, month := month, day := if dt.day < last then dt.day else last)
  }

  // ----- The month grid: consecutive months tile the day numbers -----

  function MonthStart(m: int): int {
    DaysBeforeYear(m / 12) + DaysBeforeMonth(m / 12, m % 12 + 1)
  }

  function MonthLength(m: int): int {
    DaysInMonth(m / 12, m % 12 + 1)
  }

  lemma YearLength(year: int)
    ensures DaysBeforeYear(year + 1) == DaysBeforeYear(year) + if IsLeap(year) then 366 else 365
  {
    var p := year - 1;
    assert (p + 1) / 4 - p / 4 == if (p + 1) % 4 == 0 then 1 else 0;
    assert (p + 1) / 100 - p / 100 == if (p + 1) % 100 == 0 then 1 else 0;
    assert (p + 1) / 400 - p / 400 == if (p + 1) % 400 == 0 then 1 else 0;
  }

  lemma MonthsTile(m: int)
    ensures MonthStart(m + 1) == MonthStart(m) + MonthLength(m)
    ensures MonthLength(m) >= 28
  {
    if m % 12 == 11 {
      YearLength(m / 12);
      assert (m + 1) / 12 == m / 12 + 1 && (m + 1) % 12 == 0;
    } else {
      assert (m + 1) / 12 == m / 12 && (m + 1) % 12 == m % 12 + 1;
    }
  }

  /** Intervals laid end to end do not overlap. */
  lemma {:induction false} TilesAreOrdered(start: int -> int, length: int -> int, a: int, b: int)
    requires a < b
    requires forall m, n :: n == m + 1 ==> start(n) == start(m) + length(m)
    requires forall m :: length(m) >= 0
    ensures start(a) + length(a) <= start(b)
    decreases b - a
  {
    if a < b - 1 {
      TilesAreOrdered(start, length, a, b - 1);
    }
    assert start(b) == start(b - 1) + length(b - 1);
  }

  lemma LaterMonthStartsLater(a: int, b: int)
    requires a < b
    ensures MonthStart(a) + MonthLength(a) <= MonthStart(b)
  {
    forall m ensures MonthLength(m) >= 0 {}
    forall m, n | n == m + 1 ensures MonthStart(n) == MonthStart(m) + MonthLength(m) {
      MonthsTile(m);
    }
    TilesAreOrdered(MonthStart, MonthLength, a, b);
  }

  lemma DayWithinMonth(dt: DateTime)
    requires dt.Valid()
    ensures dt.DayNumber() == MonthStart(dt.MonthNumber()) + dt.day - 1
    ensures dt.day <= MonthLength(dt.MonthNumber())
  {
    assert dt.MonthNumber() / 12 == dt.year && dt.MonthNumber() % 12 == dt.month - 1;
  }

  /** Day numbers order dates exactly as (year, month, day) does. */
  lemma DayNumberOrdersDates(a: DateTime, b: DateTime)
    requires a.Valid() && b.Valid()
    ensures a.DayNumber() < b.DayNumber() <==>
            a.MonthNumber() < b.MonthNumber() || (a.MonthNumber() == b.MonthNumber() && a.day < b.day)
  {
    DayWithinMonth(a);
    DayWithinMonth(b);
    if a.MonthNumber() < b.MonthNumber() {
      LaterMonthStartsLater(a.MonthNumber(), b.MonthNumber());
    } else if b.MonthNumber() < a.MonthNumber() {
      LaterMonthStartsLater(b.MonthNumber(), a.MonthNumber());
    }
  }

  /** The first day of the month after. */
  function NextMonth(dt: DateTime): (next: DateTime)
    requires dt.Valid()
    ensures next.Valid() && next.MonthNumber() == dt.MonthNumber() + 1 && next.day == 1
  {
    if dt.month == 12 then DateTime(dt.year + 1, 1, 1, dt.tick) else DateTime(dt.year, dt.month + 1, 1, dt.tick)
  }

  lemma LengthOfMonth(dt: DateTime)
    requires dt.Valid()
    ensures MonthLength(dt.MonthNumber()) == DaysInMonth(dt.year, dt.month)
  {
    assert dt.MonthNumber() / 12 == dt.year && dt.MonthNumber() % 12 == dt.month - 1;
  }

  lemma FollowsMonth(last: DateTime, next: DateTime)
    requires last.Valid() && next.Valid() && next.day == 1 && next.MonthNumber() == last.MonthNumber() + 1
    requires last.day == MonthLength(last.MonthNumber())
    ensures next.DayNumber() == last.DayNumber() + 1
  {
    DayWithinMonth(last);
    DayWithinMonth(next);
    MonthsTile(last.MonthNumber());
  }

  /** The numbering counts days from Monday, 1 January of year 1; the 1st of a month follows the last day
      of the month before. */
  lemma DaysAreCounted(dt: DateTime)
    requires dt.Valid()
    ensures DateTime(1, 1, 1, dt.tick).Valid() && DateTime(1, 1, 1, dt.tick).DayNumber() == 0
    ensures dt.day < DaysInMonth(dt.year, dt.month) ==>
              dt.(day := dt.day + 1).Valid() && dt.(day := dt.day + 1).DayNumber() == dt.DayNumber() + 1
    ensures dt.day == DaysInMonth(dt.year, dt.month) ==>
              NextMonth(dt).DayNumber() == dt.DayNumber() + 1
  {
    if dt.day == DaysInMonth(dt.year, dt.month) {
      LengthOfMonth(dt);
      FollowsMonth(dt, NextMonth(dt));
    }
  }

  /** A date is determined by its day number. */
  lemma DayNumberDeterminesDate(a: DateTime, b: DateTime)
    requires a.Valid() && b.Valid() && a.tick == b.tick
    requires a.DayNumber() == b.DayNumber()
    ensures a == b
  {
    DayNumberOrdersDates(a, b);
    DayNumberOrdersDates(b, a);
  }

  lemma AddMonthsLands(dt: DateTime, months: nat)
    requires dt.Valid()
    ensures var r := AddMonths(dt, months);
            && r.Valid() && r.tick == dt.tick
            && r.MonthNumber() == dt.MonthNumber() + months
            && r.day <= dt.day
            && (r.day == dt.day || r.day == DaysInMonth(r.year, r.month))
  {
    assert DaysInMonth(AddMonths(dt, months).year, AddMonths(dt, months).month) >= 28;
  }

  lemma AddMonthsMovesForward(dt: DateTime, fewer: nat, more: nat)
    requires dt.Valid() && fewer < more
    ensures AddMonths(dt, fewer).Valid() && AddMonths(dt, more).Valid()
    ensures AddMonths(dt, fewer).DayNumber() < AddMonths(dt, more).DayNumber()
  {
    AddMonthsLands(dt, fewer);
    AddMonthsLands(dt, more);
    DayNumberOrdersDates(AddMonths(dt, fewer), AddMonths(dt, more));
  }

  /** Chaining two month steps loses the day exactly when the first month is too short for
      the day that the direct step keeps; this is why each occurrence starts from DTSTART. */
  lemma ChainingDrifts(dt: DateTime, a: nat, b: nat)
    requires dt.Valid()
    ensures AddMonths(dt, a).Valid()
    ensures AddMonths(AddMonths(dt, a), b) == AddMonths(dt, a + b)
            <==> AddMonths(dt, a + b).day <= AddMonths(dt, a).day
  {
    AddMonthsLands(dt, a);
    AddMonthsLands(dt, a + b);
    AddMonthsLands(AddMonths(dt, a), b);
    var direct, chained := AddMonths(dt, a + b), AddMonths(AddMonths(dt, a), b);
    assert direct.MonthNumber() == chained.MonthNumber();
    assert direct.year == direct.MonthNumber() / 12 && chained.year == chained.MonthNumber() / 12;
  }
}
