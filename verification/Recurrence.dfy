/** Expansion of the supported RRULE subset (section 3.3.10 of RFC 5545) into start instants.
    The meaning of a rule is given day by day (`Occurs`); the expansion jumps and stops early. */
module Recurrence {
  import opened Calendar
  import opened Options
  import opened Selection

  // ----- What a rule means -----

  /** The series a recognised rule denotes, over day numbers. */
  datatype Series =
    | Stepped(first: int, step: int)
    | Weekdays(first: int, interval: int, days: set<int>)
    | Monthly(start: DateTime, interval: int)
  {
    predicate Valid() {
      match this
      case Stepped(_, step) => step > 0
      case Weekdays(_, interval, days) => interval > 0 && days != {} && forall d :: d in days ==> 0 <= d < 7
      case Monthly(start, interval) => interval > 0 && start.Valid()
    }

    function First(): int
      requires Valid()
    {
      if Monthly? then start.DayNumber() else first
    }
  }

  ghost predicate Occurs(s: Series, day: int)
    requires s.Valid()
  {
    day >= s.First() &&
    match s
    case Stepped(first, step) => (day - first) % step == 0
    case Weekdays(first, interval, days) => day % 7 in days && (day / 7 - first / 7) % interval == 0
    case Monthly(start, interval) => exists k: nat :: day == MonthlyDay(start, interval, k)
  }

  function MonthlyDay(start: DateTime, interval: int, k: nat): int
    requires start.Valid() && interval > 0
  {
    AddMonthsLands(start, k * interval);
    AddMonths(start, k * interval).DayNumber()
  }

  // ----- What to return for a set of days -----

  datatype Limits = Limits(count: Option<int>, until: Option<int>, floor: int, horizon: int, cap: int) {
    /** Not beyond COUNT, UNTIL or the horizon, for an occurrence with `rank` others before it. */
    predicate Admits(rank: int, dt: int) {
      && (count.Some? ==> rank < count.value)
      && (until.Some? ==> dt <= until.value)
      && dt <= horizon
    }
  }

  /** The days on which something occurs, none before `first`, each at the time of day `tick`. */
  datatype Walk = Walk(occurs: int -> bool, first: int, tick: int, lim: Limits) {
    ghost predicate Valid() {
      lim.cap >= 0 && forall d :: occurs(d) ==> first <= d
    }

    function Time(day: int): int {
      At(day, tick)
    }

    /** How many occurrences come before `day`; COUNT is measured against this. */
    ghost function Rank(day: int): nat {
      Tally(occurs, first, day)
    }

    ghost predicate Shown(day: int) {
      occurs(day) && lim.Admits(Rank(day), Time(day)) && Time(day) >= lim.floor
    }

    ghost function Showing(): int -> bool {
      day => Shown(day)
    }

    /** The declarative result: the first `cap` shown occurrences, ascending. */
    ghost predicate IsExpansion(out: seq<int>) {
      exists days :: IsFirst(days, Showing(), lim.cap) && out == Instants(days, tick)
    }

    /** The days before `day` with a shown occurrence. */
    ghost function Visible(day: int): seq<int> {
      Chosen(Showing(), first, day)
    }

    /** What examining only the days before `day` yields. */
    ghost function Examined(day: int): seq<int>
      requires Valid()
    {
      Instants(Cut(Visible(day), lim.cap), tick)
    }
  }

  function Instants(days: seq<int>, tick: int): seq<int> {
    seq(|days|, i requires 0 <= i < |days| => At(days[i], tick))
  }

  /** The walk of a series. */
  ghost function WalkOf(s: Series, tick: int, lim: Limits): (w: Walk)
    requires s.Valid() && lim.cap >= 0
    ensures w.Valid()
  {
    Walk(day => Occurs(s, day), s.First(), tick, lim)
  }

  /** The declarative result is unique. */
  lemma ExpansionIsUnique(w: Walk, a: seq<int>, b: seq<int>)
    requires w.IsExpansion(a) && w.IsExpansion(b)
    ensures a == b
  {
    var da :| IsFirst(da, w.Showing(), w.lim.cap) && a == Instants(da, w.tick);
    var db :| IsFirst(db, w.Showing(), w.lim.cap) && b == Instants(db, w.tick);
    FirstIsUnique(da, db, w.Showing(), w.lim.cap);
  }

  lemma InstantsInjective(a: seq<int>, b: seq<int>, tick: int)
    requires Instants(a, tick) == Instants(b, tick)
    ensures a == b
  {
    assert |a| == |Instants(a, tick)| == |b|;
    forall i | 0 <= i < |a| ensures a[i] == b[i] {
      assert At(a[i], tick) == Instants(a, tick)[i] == Instants(b, tick)[i] == At(b[i], tick);
    }
  }

  /** Once an occurrence is not admitted, nothing from that day on is shown. */
  lemma NothingAfterRefusal(w: Walk, day: int)
    requires !w.lim.Admits(w.Rank(day), w.Time(day))
    ensures forall e :: e >= day ==> !w.Showing()(e)
  {
    forall e | e >= day ensures !w.Showing()(e) {
      TallyGrows(w.occurs, w.first, day, e);
    }
  }

  /** Examining only the days before `guard` is the whole expansion exactly when the cap was
      reached or no shown occurrence lies at or after `guard`. */
  lemma GuardedExpansion(w: Walk, guard: int)
    requires w.Valid()
    ensures w.IsExpansion(w.Examined(guard))
            <==> |w.Visible(guard)| >= w.lim.cap || forall e :: e >= guard ==> !w.Shown(e)
  {
    var p := w.Showing();
    CutIsFirst(p, w.first, guard, w.lim.cap);
    assert forall e :: p(e) <==> w.Shown(e);
    var days := Cut(w.Visible(guard), w.lim.cap);
    if w.IsExpansion(Instants(days, w.tick)) {
      var other :| IsFirst(other, p, w.lim.cap) && Instants(days, w.tick) == Instants(other, w.tick);
      InstantsInjective(days, other, w.tick);
    }
  }

  /** The time of a shown occurrence before `guard`. */
  ghost predicate ShownBefore(w: Walk, guard: int, time: int) {
    exists day :: day < guard && w.Shown(day) && time == w.Time(day)
  }

  /** What examining the days before `guard` returns: shown occurrences only, ascending, and all of them
      up to the cap. */
  lemma ExaminedElements(w: Walk, guard: int)
    requires w.Valid()
    ensures var out := w.Examined(guard);
            && |out| <= w.lim.cap
            && (forall i, j :: 0 <= i < j < |out| ==> out[i] < out[j])
            && (forall i :: 0 <= i < |out| ==> ShownBefore(w, guard, out[i]))
            && (forall day :: day < guard && w.Shown(day) ==>
                  w.Time(day) in out || (|out| == w.lim.cap && forall x :: x in out ==> x < w.Time(day)))
  {
    var p := w.Showing();
    assert forall e :: p(e) <==> w.Shown(e);
    ChosenElements(p, w.first, guard);
    var q := w.Visible(guard);
    var out := w.Examined(guard);
    forall i | 0 <= i < |out| ensures ShownBefore(w, guard, out[i]) {
      assert out[i] == w.Time(q[i]) && q[i] in q;
    }
    forall day | day < guard && w.Shown(day)
      ensures w.Time(day) in out || (|out| == w.lim.cap && forall x :: x in out ==> x < w.Time(day))
    {
      assert day in q;
      var k :| 0 <= k < |q| && q[k] == day;
      assert k < |out| ==> out[k] == w.Time(day);
    }
  }

  lemma HorizonBeforeGuard(w: Walk, guard: int)
    requires w.Valid() && w.lim.horizon < w.Time(guard)
    ensures w.IsExpansion(w.Examined(guard))
  {
    NothingAfterRefusal(w, guard);
    GuardedExpansion(w, guard);
  }

  /** The first occurrence at or after both the guard and the floor of the window. */
  ghost predicate IsFirstBeyond(w: Walk, guard: int, day: int) {
    && guard <= day && w.occurs(day) && w.Time(day) >= w.lim.floor
    && forall e :: guard <= e < day && w.occurs(e) ==> w.Time(e) < w.lim.floor
  }

  /** Whether the guard cuts something off can be told by looking at one day. */
  lemma CompletenessIsCheckable(w: Walk, guard: int, day: int)
    requires w.Valid() && IsFirstBeyond(w, guard, day)
    ensures w.IsExpansion(w.Examined(guard))
            <==> |w.Visible(guard)| >= w.lim.cap || !w.lim.Admits(w.Rank(day), w.Time(day))
  {
    GuardedExpansion(w, guard);
    assert forall e :: w.Showing()(e) <==> w.Shown(e);
    if w.lim.Admits(w.Rank(day), w.Time(day)) {
      assert w.Shown(day);
    } else {
      NothingAfterRefusal(w, day);
      assert forall e :: e >= guard && w.Shown(e) ==> e >= day;
    }
  }

  // ----- Which days each series skips -----

  lemma Multiples(k: int, n: int)
    requires n > 0
    ensures k >= 1 ==> k * n >= n
    ensures k <= -1 ==> k * n <= -n
  {
  }

  lemma Remainder(q: int, r: int, n: int)
    requires 0 <= r < n
    ensures (q * n + r) % n == r
  {
    var x := q * n + r;
    assert x == n * (x / n) + x % n;
    var k := x / n - q;
    assert k * n == r - x % n;
    Multiples(k, n);
  }

  lemma SteppedGap(s: Series, k: nat)
    requires s.Valid() && s.Stepped?
    ensures s.first <= s.first + k * s.step
    ensures s.first + (k + 1) * s.step == s.first + k * s.step + s.step
    ensures Occurs(s, s.first + k * s.step)
    ensures forall d :: s.first + k * s.step < d < s.first + (k + 1) * s.step ==> !Occurs(s, d)
  {
    Remainder(k, 0, s.step);
    assert (k + 1) * s.step == k * s.step + s.step;
    forall d | s.first + k * s.step < d < s.first + (k + 1) * s.step ensures !Occurs(s, d) {
      Remainder(k, d - s.first - k * s.step, s.step);
      assert d - s.first == k * s.step + (d - s.first - k * s.step);
    }
  }

  lemma {:induction false} SteppedRank(s: Series, tick: int, lim: Limits, k: nat)
    requires s.Valid() && s.Stepped? && lim.cap >= 0
    ensures WalkOf(s, tick, lim).Rank(s.first + k * s.step) == k
  {
    if k > 0 {
      var day := s.first + (k - 1) * s.step;
      SteppedRank(s, tick, lim, k - 1);
      SteppedGap(s, k - 1);
      TallyGap(WalkOf(s, tick, lim).occurs, s.first, day + 1, day + s.step);
    }
  }

  lemma Scale(j: int, k: int, n: int)
    requires j < k && n > 0
    ensures j * n < k * n
  {
  }

  /** MONTHLY occurrences are strictly increasing in time. */
  lemma MonthlyOrder(start: DateTime, interval: int, j: nat, k: nat)
    requires start.Valid() && interval > 0 && j < k
    ensures MonthlyDay(start, interval, j) < MonthlyDay(start, interval, k)
  {
    Scale(j, k, interval);
    AddMonthsMovesForward(start, j * interval, k * interval);
  }

  lemma MonthlyOccurs(s: Series, k: nat)
    requires s.Valid() && s.Monthly?
    ensures Occurs(s, MonthlyDay(s.start, s.interval, k))
  {
    MonthlyFirst(s.start, s.interval);
    if k > 0 {
      MonthlyOrder(s.start, s.interval, 0, k);
    }
  }

  lemma MonthlyGap(s: Series, k: nat, d: int)
    requires s.Valid() && s.Monthly?
    requires MonthlyDay(s.start, s.interval, k) < d < MonthlyDay(s.start, s.interval, k + 1)
    ensures !Occurs(s, d)
  {
    NoMonthBetween(s.start, s.interval, k, d);
  }

  lemma NoMonthBetween(start: DateTime, interval: int, k: nat, d: int)
    requires start.Valid() && interval > 0
    requires MonthlyDay(start, interval, k) < d < MonthlyDay(start, interval, k + 1)
    ensures forall j: nat :: d != MonthlyDay(start, interval, j)
  {
    forall j: nat ensures d != MonthlyDay(start, interval, j) {
      if j < k {
        MonthlyOrder(start, interval, j, k);
      } else if k + 1 < j {
        MonthlyOrder(start, interval, k + 1, j);
      }
    }
  }

  lemma MonthlyFirst(start: DateTime, interval: int)
    requires start.Valid() && interval > 0
    ensures MonthlyDay(start, interval, 0) == start.DayNumber()
  {
    assert AddMonths(start, 0) == start;
  }

  predicate InMonthlySeries(start: DateTime, interval: int, dt: DateTime)
    requires dt.Valid() && interval > 0
  {
    var months, length := dt.MonthNumber() - start.MonthNumber(), DaysInMonth(dt.year, dt.month);
    && months >= 0 && months % interval == 0
    && dt.day == if start.day < length then start.day else length
  }

  /** MONTHLY read off the calendar: a date belongs to the series exactly when it lies a whole
      number of intervals after DTSTART and its day is DTSTART's, clamped to that month alone. */
  lemma MonthlyByDate(s: Series, dt: DateTime)
    requires s.Valid() && s.Monthly? && dt.Valid()
    ensures Occurs(s, dt.DayNumber()) <==> InMonthlySeries(s.start, s.interval, dt)
  {
    if Occurs(s, dt.DayNumber()) {
      OccursOnlyInSeries(s, dt);
    }
    if InMonthlySeries(s.start, s.interval, dt) {
      SeriesDateOccurs(s, dt);
    }
  }

  lemma OccursOnlyInSeries(s: Series, dt: DateTime)
    requires s.Valid() && s.Monthly? && dt.Valid() && Occurs(s, dt.DayNumber())
    ensures InMonthlySeries(s.start, s.interval, dt)
  {
    forall k: nat | dt.DayNumber() == MonthlyDay(s.start, s.interval, k)
      ensures InMonthlySeries(s.start, s.interval, dt)
    {
      OnMonthlyDay(s.start, s.interval, dt, k);
    }
  }

  lemma SeriesDateOccurs(s: Series, dt: DateTime)
    requires s.Valid() && s.Monthly? && dt.Valid() && InMonthlySeries(s.start, s.interval, dt)
    ensures Occurs(s, dt.DayNumber())
  {
    var months := dt.MonthNumber() - s.start.MonthNumber();
    var k := months / s.interval;
    assert months == s.interval * k + months % s.interval;
    FromMonth(s, dt, k);
  }

  lemma FromMonth(s: Series, dt: DateTime, k: nat)
    requires s.Valid() && s.Monthly? && dt.Valid()
    requires dt.MonthNumber() == s.start.MonthNumber() + k * s.interval
    requires var length := DaysInMonth(dt.year, dt.month);
        dt.day == if s.start.day < length then s.start.day else length
    ensures Occurs(s, dt.DayNumber())
  {
    var date := dt.(tick := s.start.tick);
    assert date.Valid() && date.DayNumber() == dt.DayNumber();
    SameMonthSameDay(s.start, date, k * s.interval);
    MonthlyOccurs(s, k);
  }

  lemma OnMonthlyDay(start: DateTime, interval: int, dt: DateTime, k: nat)
    requires start.Valid() && interval > 0 && dt.Valid() && dt.DayNumber() == MonthlyDay(start, interval, k)
    ensures InMonthlySeries(start, interval, dt)
  {
    var date := dt.(tick := start.tick);
    assert date.Valid() && date.DayNumber() == dt.DayNumber();
    AddMonthsLands(start, k * interval);
    DayNumberDeterminesDate(date, AddMonths(start, k * interval));
    Remainder(k, 0, interval);
    SameMonthSameDay(start, date, k * interval);
  }

  lemma SameMonthSameDay(start: DateTime, date: DateTime, months: nat)
    requires start.Valid() && date.Valid() && start.tick == date.tick
    requires date.MonthNumber() == start.MonthNumber() + months
    ensures date == AddMonths(start, months)
            <==> date.day == if start.day < DaysInMonth(date.year, date.month) then start.day
                             else DaysInMonth(date.year, date.month)
  {
    AddMonthsLands(start, months);
    var r := AddMonths(start, months);
    assert r.year == r.MonthNumber() / 12 && date.year == date.MonthNumber() / 12;
  }
}
