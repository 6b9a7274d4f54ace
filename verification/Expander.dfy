/** The expansion loops of `_expand_rrule`: a recorder that stops the walk, an arithmetic jump
    over the past, and an iteration guard. */
module Expander {
  import opened Calendar
  import opened Options
  import opened Selection
  import opened Recurrence

  const ITER_GUARD: nat := 4000
  const RRULE_MAX_OCCURRENCES: nat := 120

  class Recorder {
    const lim: Limits
    var out: seq<int>
    var seen: nat

    constructor (lim: Limits)
      ensures this.lim == lim && out == [] && seen == 0
    {
      this.lim := lim;
      out, seen := [], 0;
    }

    /** Count one occurrence and keep it if it is in the window; false stops the expansion. */
    method Record(dt: int) returns (go: bool)
      modifies this
      ensures seen == old(seen) + 1
      ensures out == if lim.Admits(old(seen), dt) && dt >= lim.floor then old(out) + [dt] else old(out)
      ensures go <==> lim.Admits(old(seen), dt) && |out| < lim.cap
    {
      seen := seen + 1;
      if lim.count.Some? && seen > lim.count.value {
        return false;
      }
      if lim.until.Some? && dt > lim.until.value {
        return false;
      }
      if dt > lim.horizon {
        return false;
      }
      if dt >= lim.floor {
        out := out + [dt];
      }
      go := |out| < lim.cap;
    }

    /** All days before `day` are accounted for and the walk may go on. */
    ghost predicate UpTo(w: Walk, day: int)
      reads this
    {
      w.Valid() && lim == w.lim && seen == w.Rank(day) && out == w.Examined(day) && |out| < lim.cap
    }

    /** The same under a cap of zero, which only shows when the first occurrence has been recorded. */
    ghost predicate Starts(w: Walk, day: int)
      reads this
    {
      w.Valid() && lim == w.lim && lim.cap == 0 && seen == w.Rank(day) && out == []
    }
  }

  /** What a cap of zero returns: the first occurrence examined, if it is in order, and no more. */
  ghost function JustOne(w: Walk, day: int): seq<int> {
    if w.Shown(day) then [w.Time(day)] else []
  }

  /** The first occurrence from `start` on. */
  ghost predicate IsNext(w: Walk, start: int, day: int) {
    start <= day && w.occurs(day) && forall e :: start <= e < day ==> !w.occurs(e)
  }

  ghost predicate ReturnsJustOne(w: Walk, start: int, out: seq<int>) {
    forall day :: IsNext(w, start, day) ==> out == JustOne(w, day)
  }

  /** No later day can change `out`. */
  ghost predicate Final(w: Walk, out: seq<int>, day: int)
    requires w.Valid()
  {
    forall e :: e >= day ==> out == w.Examined(e)
  }

  lemma FinalWhenNothingFollows(w: Walk, day: int)
    requires w.Valid() && forall e :: e >= day ==> !w.Showing()(e)
    ensures Final(w, w.Examined(day), day)
  {
    forall e | e >= day ensures w.Examined(day) == w.Examined(e) {
      ChosenGap(w.Showing(), w.first, day, e);
    }
  }

  lemma FinalWhenFull(w: Walk, day: int)
    requires w.Valid() && |w.Visible(day)| == w.lim.cap
    ensures Final(w, w.Examined(day), day)
  {
    forall e | e >= day ensures w.Examined(day) == w.Examined(e) {
      ChosenGrows(w.Showing(), w.first, day, e);
    }
  }

  /** Recording the next occurrence either moves past its day or ends the walk. */
  lemma Recorded(w: Walk, day: int, out: seq<int>)
    requires w.Valid() && w.occurs(day) && |w.Examined(day)| < w.lim.cap
    requires out == w.Examined(day) + if w.Shown(day) then [w.Time(day)] else []
    ensures w.Rank(day + 1) == w.Rank(day) + 1
    ensures out == w.Examined(day + 1)
    ensures !w.lim.Admits(w.Rank(day), w.Time(day)) ==> Final(w, out, day)
    ensures |out| == w.lim.cap ==> Final(w, out, day + 1)
  {
    var before, after := w.Visible(day), w.Visible(day + 1);
    assert |before| < w.lim.cap;
    assert after == before + if w.Shown(day) then [day] else [];
    assert Instants(after, w.tick) == out;
    if !w.lim.Admits(w.Rank(day), w.Time(day)) {
      NothingAfterRefusal(w, day);
      FinalWhenNothingFollows(w, day);
    }
    if |out| == w.lim.cap {
      FinalWhenFull(w, day + 1);
    }
  }

  /** Days without an occurrence may be jumped over. */
  lemma Skip(w: Walk, a: int, b: int)
    requires w.Valid() && a <= b && forall d :: a <= d < b ==> !w.occurs(d)
    ensures w.Rank(b) == w.Rank(a) && w.Examined(b) == w.Examined(a)
  {
    TallyGap(w.occurs, w.first, a, b);
    ChosenGap(w.Showing(), w.first, a, b);
  }

  /** Record the occurrence on `day`: the walk moves on, or its result is final. */
  method Visit(rec: Recorder, ghost w: Walk, dt: int, ghost day: int) returns (go: bool)
    requires (rec.UpTo(w, day) || rec.Starts(w, day)) && w.occurs(day) && dt == w.Time(day)
    modifies rec
    ensures go ==> rec.UpTo(w, day + 1)
    ensures rec.lim.cap >= 1 && !go ==> Final(w, rec.out, day + 1)
    ensures rec.lim.cap == 0 ==> !go && rec.out == JustOne(w, day)
  {
    if rec.lim.cap >= 1 {
      Recorded(w, day, rec.out + if w.Shown(day) then [dt] else []);
    }
    go := rec.Record(dt);
  }

  // ----- DAILY and plain WEEKLY -----

  function Skipped(s: Series, tick: int, floor: int): nat
    requires s.Valid() && s.Stepped?
  {
    if At(s.first, tick) < floor then (floor - At(s.first, tick)) / (s.step * TICKS_PER_DAY) else 0
  }

  /** The jump stops at or before the window, less than one step away from it. */
  lemma SkipLands(s: Series, tick: int, floor: int)
    requires s.Valid() && s.Stepped?
    ensures var day := s.first + Skipped(s, tick, floor) * s.step;
            && (Skipped(s, tick, floor) > 0 ==> At(day, tick) <= floor)
            && floor < At(day + s.step, tick)
  {
    if At(s.first, tick) < floor {
      var gap, width := floor - At(s.first, tick), s.step * TICKS_PER_DAY;
      var k := gap / width;
      assert gap == width * k + gap % width && 0 <= gap % width < width;
      assert width * k == (k * s.step) * TICKS_PER_DAY;
    }
  }

  /** Occurrences `step` days apart, none in between: what the stepping loop relies on. */
  ghost predicate Spaced(w: Walk, step: int) {
    forall d :: w.occurs(d) ==> w.occurs(d + step) && forall e :: d < e < d + step ==> !w.occurs(e)
  }

  lemma SteppedIsSpaced(s: Series, tick: int, lim: Limits, day: int)
    requires s.Valid() && s.Stepped? && lim.cap >= 0
    ensures Spaced(WalkOf(s, tick, lim), s.step)
  {
    forall d | Occurs(s, d)
      ensures Occurs(s, d + s.step) && forall e :: d < e < d + s.step ==> !Occurs(s, e)
    {
      var k := (d - s.first) / s.step;
      assert d - s.first == s.step * k + (d - s.first) % s.step;
      SteppedGap(s, k);
      SteppedGap(s, k + 1);
    }
  }

  lemma PastIsInvisible(w: Walk, day: int)
    requires w.Valid() && w.Time(day) <= w.lim.floor && w.first <= day
    ensures w.Examined(day) == []
  {
    ChosenGap(w.Showing(), w.first, w.first, day);
  }

  /** Where the jump leaves the walk. */
  lemma Jumped(s: Series, tick: int, lim: Limits)
    requires s.Valid() && s.Stepped? && lim.cap >= 0
    ensures var w, k := WalkOf(s, tick, lim), Skipped(s, tick, lim.floor);
            var day := s.first + k * s.step;
            w.occurs(day) && w.Rank(day) == k && w.Examined(day) == []
  {
    var k := Skipped(s, tick, lim.floor);
    SteppedRank(s, tick, lim, k);
    SteppedGap(s, k);
    SkipLands(s, tick, lim.floor);
    if k > 0 {
      PastIsInvisible(WalkOf(s, tick, lim), s.first + k * s.step);
    }
  }

  /** Jump over the occurrences before the window, counting them; false when COUNT is used up by them. */
  method JumpAhead(rec: Recorder, s: Series, tick: int) returns (day: int, go: bool)
    requires s.Valid() && s.Stepped? && rec.seen == 0
    modifies rec`seen
    ensures day == StartDay(s, tick, rec.lim.floor) && rec.seen == Skipped(s, tick, rec.lim.floor)
    ensures !go ==> rec.lim.count.Some? && rec.seen >= rec.lim.count.value
  {
    day := s.first;
    if At(day, tick) < rec.lim.floor {
      var skipped := (rec.lim.floor - At(day, tick)) / (s.step * TICKS_PER_DAY);
      SkipLands(s, tick, rec.lim.floor);
      if skipped > 0 {
        rec.seen := rec.seen + skipped;
        day := day + s.step * skipped;
        if rec.lim.count.Some? && rec.seen >= rec.lim.count.value {
          return day, false;
        }
      }
    }
    go := true;
  }

  lemma CountUsedUp(w: Walk, day: int)
    requires w.Valid() && w.lim.count.Some? && w.Rank(day) >= w.lim.count.value
    ensures Final(w, w.Examined(day), day) && !w.Shown(day)
  {
    NothingAfterRefusal(w, day);
    FinalWhenNothingFollows(w, day);
  }

  /** After the jump the recorder is where the walk is, or COUNT is used up. */
  lemma AfterJump(rec: Recorder, s: Series, tick: int)
    requires s.Valid() && s.Stepped? && rec.lim.cap >= 0
    requires rec.out == [] && rec.seen == Skipped(s, tick, rec.lim.floor)
    ensures var w, day := WalkOf(s, tick, rec.lim), StartDay(s, tick, rec.lim.floor);
            && w.occurs(day) && (rec.UpTo(w, day) || rec.Starts(w, day))
            && Spaced(w, s.step)
            && GuardDay(s, tick, rec.lim.floor) == day + ITER_GUARD * s.step
  {
    Jumped(s, tick, rec.lim);
    SteppedIsSpaced(s, tick, rec.lim, s.first);
  }

  lemma JumpUsesUpCount(rec: Recorder, s: Series, tick: int)
    requires s.Valid() && s.Stepped? && rec.lim.cap >= 0
    requires rec.out == [] && rec.seen == Skipped(s, tick, rec.lim.floor)
    requires rec.lim.count.Some? && rec.seen >= rec.lim.count.value
    ensures rec.out == WalkOf(s, tick, rec.lim).Examined(GuardDay(s, tick, rec.lim.floor))
    ensures ReturnsJustOne(WalkOf(s, tick, rec.lim), StartDay(s, tick, rec.lim.floor), rec.out)
  {
    Jumped(s, tick, rec.lim);
    CountUsedUp(WalkOf(s, tick, rec.lim), StartDay(s, tick, rec.lim.floor));
  }

  method ExpandStepped(rec: Recorder, s: Series, tick: int)
    requires s.Valid() && s.Stepped? && rec.lim.cap >= 0
    requires rec.out == [] && rec.seen == 0
    modifies rec
    ensures rec.lim.cap >= 1 ==> rec.out == WalkOf(s, tick, rec.lim).Examined(GuardDay(s, tick, rec.lim.floor))
    ensures rec.lim.cap == 0 ==> ReturnsJustOne(WalkOf(s, tick, rec.lim), StartDay(s, tick, rec.lim.floor), rec.out)
  {
    var day, go := JumpAhead(rec, s, tick);
    if !go {
      JumpUsesUpCount(rec, s, tick);
      return;
    }
    AfterJump(rec, s, tick);
    RunSteps(rec, WalkOf(s, tick, rec.lim), s.step, day, At(day, tick));
  }

  method RunSteps(rec: Recorder, ghost w: Walk, step: int, ghost first: int, start: int)
    requires step > 0 && Spaced(w, step)
    requires (rec.UpTo(w, first) || rec.Starts(w, first)) && w.occurs(first) && start == w.Time(first)
    modifies rec
    ensures rec.lim.cap >= 1 ==> rec.out == w.Examined(first + ITER_GUARD * step)
    ensures rec.lim.cap == 0 ==> rec.out == JustOne(w, first)
  {
    var dt := start;
    ghost var day := first;
    for i := 0 to ITER_GUARD
      invariant day == first + i * step && dt == w.Time(day) && w.occurs(day)
      invariant rec.UpTo(w, day) || (i == 0 && rec.Starts(w, day))
    {
      Scale(i, ITER_GUARD, step);
      var go := Visit(rec, w, dt, day);
      if !go {
        return;
      }
      Skip(w, day + 1, day + step);
      dt := dt + step * TICKS_PER_DAY;
      day := day + step;
    }
  }

  // ----- MONTHLY -----

  /** `day(k)` is the day of the k-th occurrence: the walk goes straight from one to the next. */
  ghost predicate Enumerates(w: Walk, day: nat -> int) {
    && w.Valid()
    && (forall j, k :: j < k ==> day(j) < day(k))
    && (forall j :: w.occurs(day(j)))
    && (forall j, k :: k == j + 1 ==>
       w.Rank(day(k)) == w.Rank(day(j) + 1) && w.Examined(day(k)) == w.Examined(day(j) + 1))
  }

  lemma MonthOver(s: Series, tick: int, lim: Limits, k: nat)
    requires s.Valid() && s.Monthly? && lim.cap >= 0
    ensures var w := WalkOf(s, tick, lim);
            var day, next := MonthlyDay(s.start, s.interval, k), MonthlyDay(s.start, s.interval, k + 1);
            && w.occurs(day)
            && w.Rank(next) == w.Rank(day + 1) && w.Examined(next) == w.Examined(day + 1)
  {
    var day, next := MonthlyDay(s.start, s.interval, k), MonthlyDay(s.start, s.interval, k + 1);
    MonthlyOccurs(s, k);
    MonthlyOrder(s.start, s.interval, k, k + 1);
    forall d | day + 1 <= d < next ensures !Occurs(s, d) {
      MonthlyGap(s, k, d);
    }
    Skip(WalkOf(s, tick, lim), day + 1, next);
  }

  lemma MonthsInOrder(s: Series, day: nat -> int)
    requires s.Valid() && s.Monthly? && forall k :: day(k) == MonthlyDay(s.start, s.interval, k)
    ensures forall j: nat, k: nat :: j < k ==> day(j) < day(k)
  {
    forall j: nat, k: nat | j < k ensures day(j) < day(k) {
      MonthlyOrder(s.start, s.interval, j, k);
    }
  }

  lemma MonthsEnumerate(s: Series, tick: int, lim: Limits, day: nat -> int)
    requires s.Valid() && s.Monthly? && lim.cap >= 0 && forall k :: day(k) == MonthlyDay(s.start, s.interval, k)
    ensures Enumerates(WalkOf(s, tick, lim), day)
  {
    var w := WalkOf(s, tick, lim);
    MonthsInOrder(s, day);
    forall j: nat, k: nat | k == j + 1
      ensures w.occurs(day(j)) && w.Rank(day(k)) == w.Rank(day(j) + 1) && w.Examined(day(k)) == w.Examined(day(j) + 1)
    {
      MonthOver(s, tick, lim, j);
    }
    forall j: nat ensures w.occurs(day(j)) {
      var k: nat := j + 1;
      assert w.Rank(day(k)) == w.Rank(day(j) + 1);
    }
  }

  method ExpandMonthly(rec: Recorder, s: Series, tick: int)
    requires s.Valid() && s.Monthly? && rec.lim.cap >= 0
    requires rec.out == [] && rec.seen == 0
    modifies rec
    ensures rec.lim.cap >= 1 ==> rec.out == WalkOf(s, tick, rec.lim).Examined(GuardDay(s, tick, rec.lim.floor))
    ensures rec.lim.cap == 0 ==> ReturnsJustOne(WalkOf(s, tick, rec.lim), StartDay(s, tick, rec.lim.floor), rec.out)
  {
    var start, interval := s.start, s.interval;
    var day: nat -> int := (k: nat) => MonthlyDay(start, interval, k);
    MonthlyFirst(start, interval);
    MonthsEnumerate(s, tick, rec.lim, day);
    RunMonths(rec, WalkOf(s, tick, rec.lim), day, tick);
  }

  method RunMonths(rec: Recorder, ghost w: Walk, day: nat -> int, tick: int)
    requires Enumerates(w, day) && w.tick == tick && (rec.UpTo(w, day(0)) || rec.Starts(w, day(0)))
    modifies rec
    ensures rec.lim.cap >= 1 ==> rec.out == w.Examined(day(ITER_GUARD))
    ensures rec.lim.cap == 0 ==> rec.out == JustOne(w, day(0))
  {
    for k := 0 to ITER_GUARD
      invariant rec.UpTo(w, day(k)) || (k == 0 && rec.Starts(w, day(0)))
    {
      assert day(k) < day(ITER_GUARD);
      var go := Visit(rec, w, At(day(k), tick), day(k));
      if !go {
        return;
      }
      ghost var next: nat := k + 1;
      assert w.Rank(day(next)) == w.Rank(day(k) + 1);
    }
  }

  // ----- WEEKLY with BYDAY -----

  /** `byday` lists the days of `days`, ascending. */
  ghost predicate Lists(byday: seq<int>, days: set<int>) {
    && (forall i, j :: 0 <= i < j < |byday| ==> byday[i] < byday[j])
    && (forall i :: 0 <= i < |byday| ==> byday[i] in days && 0 <= byday[i] < 7)
    && (forall d :: d in days ==> d in byday)
  }

  method SortedDays(days: set<int>) returns (byday: seq<int>)
    requires forall d :: d in days ==> 0 <= d < 7
    ensures Lists(byday, days)
  {
    byday := [];
    for d := 0 to 7
      invariant forall i, j :: 0 <= i < j < |byday| ==> byday[i] < byday[j]
      invariant forall i :: 0 <= i < |byday| ==> byday[i] in days && 0 <= byday[i] < d
      invariant forall x :: x in days && x < d ==> x in byday
    {
      if d in days {
        byday := byday + [d];
      }
    }
  }

  /** `base` is the Monday of a week the series uses; the weeks up to the next such one are idle. */
  ghost predicate ActiveWeek(w: Walk, days: set<int>, interval: int, base: int) {
    forall d :: base <= d < base + 7 * interval ==>
      (w.occurs(d) <==> d >= w.first && d < base + 7 && d - base in days)
  }

  function Monday(first: int, interval: int, wk: nat): int {
    first - first % 7 + 7 * (wk * interval)
  }

  lemma WeekIsActive(s: Series, tick: int, lim: Limits, wk: nat)
    requires s.Valid() && s.Weekdays? && lim.cap >= 0
    ensures ActiveWeek(WalkOf(s, tick, lim), s.days, s.interval, Monday(s.first, s.interval, wk))
  {
    var base := Monday(s.first, s.interval, wk);
    forall d | base <= d < base + 7 * s.interval
      ensures Occurs(s, d) <==> d >= s.first && d < base + 7 && d - base in s.days
    {
      var r := d / 7 - s.first / 7 - wk * s.interval;
      Remainder(wk, r, s.interval);
      assert d / 7 - s.first / 7 == wk * s.interval + r;
      assert d < base + 7 ==> r == 0 && d % 7 == d - base;
      assert d >= base + 7 ==> r > 0;
    }
  }

  /** The outer loop over every `interval`-th week, from the week of DTSTART. */
  method ExpandWeekdays(rec: Recorder, ghost w: Walk, first: int, tick: int, interval: int, days: set<int>)
    requires interval > 0 && forall d :: d in days ==> 0 <= d < 7
    requires w.Valid() && w.lim == rec.lim && w.first == first && w.tick == tick && days != {}
    requires forall wk: nat :: ActiveWeek(w, days, interval, Monday(first, interval, wk))
    requires rec.out == [] && rec.seen == 0
    modifies rec
    ensures rec.lim.cap >= 1 ==> rec.out == w.Examined(Monday(first, interval, ITER_GUARD))
    ensures rec.lim.cap == 0 ==> ReturnsJustOne(w, first, rec.out)
  {
    var byday := SortedDays(days);
    for wk := 0 to ITER_GUARD
      invariant rec.UpTo(w, Monday(first, interval, wk)) || (wk <= 1 && StartsWeek(rec, w, Monday(first, interval, wk)))
    {
      var base := Monday(first, interval, wk);
      assert (wk + 1) * interval == wk * interval + interval;
      Scale(wk, ITER_GUARD, interval);
      if At(base, tick) > rec.lim.horizon {
        NothingAfterRefusal(w, base);
        FinalWhenNothingFollows(w, base);
        return;
      }
      var go := ExpandWeek(rec, w, first, tick, interval, days, byday, base);
      if !go {
        return;
      }
    }
  }

  /** Under a cap of zero: nothing has occurred before `day`. */
  ghost predicate StartsWeek(rec: Recorder, w: Walk, day: int)
    reads rec
  {
    rec.Starts(w, day) && forall e :: e < day ==> !w.occurs(e)
  }

  lemma SkipStarts(rec: Recorder, w: Walk, a: int, b: int)
    requires rec.UpTo(w, a) || StartsWeek(rec, w, a)
    requires a <= b && forall d :: a <= d < b ==> !w.occurs(d)
    ensures rec.UpTo(w, a) ==> rec.UpTo(w, b)
    ensures StartsWeek(rec, w, a) ==> StartsWeek(rec, w, b)
  {
    Skip(w, a, b);
  }

  /** One listed weekday, with nothing between `from` and it. */
  method ExpandDay(rec: Recorder, ghost w: Walk, first: int, tick: int, ghost from: int, occ: int) returns (go: bool)
    requires rec.UpTo(w, from) || StartsWeek(rec, w, from)
    requires w.first == first && w.tick == tick && (w.occurs(occ) <==> occ >= first)
    requires from <= occ && forall d :: from <= d < occ ==> !w.occurs(d)
    modifies rec
    ensures go ==> rec.UpTo(w, occ + 1) || (occ < first && StartsWeek(rec, w, occ + 1))
    ensures rec.lim.cap >= 1 && !go ==> Final(w, rec.out, occ + 1)
    ensures rec.lim.cap == 0 && !go ==> ReturnsJustOne(w, first, rec.out)
  {
    SkipStarts(rec, w, from, occ);
    if occ < first {
      SkipStarts(rec, w, occ, occ + 1);
      return true;
    }
    go := Visit(rec, w, At(occ, tick), occ);
  }

  /** The inner loop over the listed weekdays of one week. */
  method ExpandWeek(rec: Recorder, ghost w: Walk, first: int, tick: int, ghost interval: int, ghost days: set<int>,
                    byday: seq<int>, base: int) returns (go: bool)
    requires interval > 0 && Lists(byday, days) && byday != [] && w.first == first && w.tick == tick
    requires ActiveWeek(w, days, interval, base) && (rec.UpTo(w, base) || StartsWeek(rec, w, base))
    modifies rec
    ensures go ==> rec.UpTo(w, base + 7 * interval) || (base < first && StartsWeek(rec, w, base + 7 * interval))
    ensures rec.lim.cap >= 1 && !go ==> Final(w, rec.out, base + 7)
    ensures rec.lim.cap == 0 && !go ==> ReturnsJustOne(w, first, rec.out)
  {
    ghost var from := base;
    for i := 0 to |byday|
      invariant from == base + if i == 0 then 0 else byday[i - 1] + 1
      invariant rec.UpTo(w, from) || (StartsWeek(rec, w, from) && (i > 0 ==> base < first))
    {
      NextListed(w, days, interval, byday, base, i);
      var occ := base + byday[i];
      go := ExpandDay(rec, w, first, tick, from, occ);
      if !go {
        return;
      }
      from := occ + 1;
    }
    NextListed(w, days, interval, byday, base, |byday|);
    SkipStarts(rec, w, from, base + 7 * interval);
    go := true;
  }

  /** Between two neighbouring listed weekdays, and after the last one, nothing occurs. */
  lemma NextListed(w: Walk, days: set<int>, interval: int, byday: seq<int>, base: int, i: nat)
    requires interval > 0 && Lists(byday, days) && ActiveWeek(w, days, interval, base) && i <= |byday|
    ensures var from := base + if i == 0 then 0 else byday[i - 1] + 1;
            var to := if i < |byday| then base + byday[i] else base + 7 * interval;
            && from <= to <= base + 7 * interval
            && (i < |byday| ==> (w.occurs(to) <==> to >= w.first) && to < base + 7)
            && (forall d :: from <= d < to ==> !w.occurs(d))
  {
    var from := base + if i == 0 then 0 else byday[i - 1] + 1;
    var to := if i < |byday| then base + byday[i] else base + 7 * interval;
    assert forall d :: from <= d < to && w.occurs(d) ==> d - base in days;
  }

  // ----- How far the iteration guard lets each branch look -----

  /** The day the expansion starts from. */
  function StartDay(s: Series, tick: int, floor: int): int
    requires s.Valid()
  {
    if s.Stepped? then s.first + Skipped(s, tick, floor) * s.step else s.First()
  }

  function GuardDay(s: Series, tick: int, floor: int): int
    requires s.Valid()
  {
    match s
    case Stepped(first, step) => first + Skipped(s, tick, floor) * step + ITER_GUARD * step
    case Weekdays(first, interval, _) => Monday(first, interval, ITER_GUARD)
    case Monthly(start, interval) => MonthlyDay(start, interval, ITER_GUARD)
  }

  /** The guard never cuts a DAILY or plain WEEKLY expansion short when the window is small enough. */
  lemma StepGuardSuffices(s: Series, tick: int, lim: Limits, horizonDays: nat)
    requires s.Valid() && s.Stepped?
    requires lim.horizon == lim.floor + (horizonDays + 1) * TICKS_PER_DAY && horizonDays + 3 <= ITER_GUARD
    ensures lim.horizon < At(GuardDay(s, tick, lim.floor), tick)
  {
    SkipLands(s, tick, lim.floor);
  }

  /** The WEEKLY;BYDAY branch has no jump: a series that began long enough ago shows nothing,
      although an occurrence lies inside the window. */
  lemma OldWeekdaySeriesVanishes()
    ensures var s, floor := Weekdays(0, 1, {0}), At(28001, 0);
            var w := WalkOf(s, 0, Limits(None, None, floor, floor + 91 * TICKS_PER_DAY, RRULE_MAX_OCCURRENCES));
            && w.Shown(28007)
            && w.Examined(GuardDay(s, 0, floor)) == []
            && !w.IsExpansion([])
  {
    var s, floor := Weekdays(0, 1, {0}), At(28001, 0);
    var w := WalkOf(s, 0, Limits(None, None, floor, floor + 91 * TICKS_PER_DAY, RRULE_MAX_OCCURRENCES));
    PastIsInvisible(w, 28000);
    assert w.Shown(28007);
    GuardedExpansion(w, 28000);
  }

  // ----- The whole of _expand_rrule -----

  /** The parts of a rule: names and tokens stripped and upper-cased, blank parts absent,
      unparsable numbers and dates absent. */
  datatype Rule = Rule(freq: string, interval: Option<int>, count: Option<int>, until: Option<int>,
                       byday: Option<seq<string>>)

  function WeekdayOf(token: string): Option<int> {
    if token == "MO" then Some(0) else if token == "TU" then Some(1) else if token == "WE" then Some(2)
    else if token == "TH" then Some(3) else if token == "FR" then Some(4) else if token == "SA" then Some(5)
    else if token == "SU" then Some(6) else None
  }

  function ListedDays(tokens: seq<string>, fallback: int): (days: set<int>)
    requires 0 <= fallback < 7
    ensures days != {} && forall d :: d in days ==> 0 <= d < 7
  {
    var known := set t | t in tokens && WeekdayOf(t).Some? :: WeekdayOf(t).value;
    if known == {} then {fallback} else known
  }

  function Positive(v: Option<int>): Option<int> {
    if v.Some? && v.value > 0 then v else None
  }

  /** The series a rule denotes; None for the rules that are not supported. */
  function SeriesOf(dtstart: DateTime, rule: Rule): (s: Option<Series>)
    requires dtstart.Valid()
    ensures s.Some? ==> s.value.Valid()
  {
    var interval := Positive(rule.interval).GetOr(1);
    var first := dtstart.DayNumber();
    if rule.freq == "WEEKLY" && rule.byday.Some? then
      Some(Weekdays(first, interval, ListedDays(rule.byday.value, first % 7)))
    else if rule.freq == "WEEKLY" then Some(Stepped(first, 7 * interval))
    else if rule.freq == "DAILY" then Some(Stepped(first, interval))
    else if rule.freq == "MONTHLY" && rule.byday.None? then Some(Monthly(dtstart, interval))
    else None
  }

  /** No cap below zero differs from zero. */
  function LimitsOf(rule: Rule, now: int, horizonDays: int, maxOccurrences: int): (lim: Limits)
    ensures lim.cap >= 0
  {
    Limits(Positive(rule.count), rule.until, now - TICKS_PER_DAY, now + horizonDays * TICKS_PER_DAY,
           if maxOccurrences > 0 then maxOccurrences else 0)
  }

  // ----- The same, read off the rule -----

  const WEEKDAYS := ["MO", "TU", "WE", "TH", "FR", "SA", "SU"]

  /** INTERVAL, one if it is absent or not positive. */
  predicate Every(rule: Rule, n: int) {
    if rule.interval.Some? && rule.interval.value > 0 then n == rule.interval.value else n == 1
  }

  /** BYDAY names this weekday (0 is Monday); if it names none, DTSTART's weekday is meant. */
  predicate OnListedDay(tokens: seq<string>, first: int, day: int) {
    || WEEKDAYS[day % 7] in tokens
    || (day % 7 == first % 7 && forall i :: 0 <= i < 7 ==> WEEKDAYS[i] !in tokens)
  }

  predicate Supported(rule: Rule) {
    rule.freq == "DAILY" || rule.freq == "WEEKLY" || (rule.freq == "MONTHLY" && rule.byday.None?)
  }

  /** The rule's own days, from DTSTART on: every n-th day; DTSTART's weekday or the listed ones in every
      n-th week; DTSTART's day, clamped to the month, in every n-th month. */
  ghost predicate OnRule(dtstart: DateTime, rule: Rule, n: int, day: int)
    requires dtstart.Valid() && n > 0
  {
    var first := dtstart.DayNumber();
    day >= first &&
    if rule.freq == "DAILY" then (day - first) % n == 0
    else if rule.freq == "WEEKLY" && rule.byday.None? then
      day % 7 == first % 7 && ((day - first) / 7) % n == 0
    else if rule.freq == "WEEKLY" then
      OnListedDay(rule.byday.value, first, day) && (day / 7 - first / 7) % n == 0
    else OnMonthlyRule(dtstart, n, day)
  }

  ghost predicate OnMonthlyRule(dtstart: DateTime, n: int, day: int)
    requires n > 0
  {
    exists dt: DateTime :: dt.Valid() && dt.DayNumber() == day && InMonthlySeries(dtstart, n, dt)
  }

  lemma WeeksAreSevens(x: int, n: int)
    requires n > 0
    ensures x % (7 * n) == 0 <==> x % 7 == 0 && (x / 7) % n == 0
  {
    var q, r := x / (7 * n), x % (7 * n);
    assert x == (7 * n) * q + r;
    if r == 0 {
      assert x == 7 * (n * q);
      Remainder(q, 0, n);
      assert x / 7 == n * q;
    } else if x % 7 == 0 && (x / 7) % n == 0 {
      var k := (x / 7) / n;
      assert x == 7 * (x / 7) && x / 7 == n * k;
      assert x == k * (7 * n) + 0;
      Remainder(k, 0, 7 * n);
    }
  }

  lemma TokenOfDay(tokens: seq<string>, d: int)
    requires 0 <= d < 7
    ensures WEEKDAYS[d] in tokens <==> exists t :: t in tokens && WeekdayOf(t) == Some(d)
  {
    forall t ensures WeekdayOf(t) == Some(d) <==> t == WEEKDAYS[d] {
    }
  }

  lemma ListedMeans(tokens: seq<string>, first: int, day: int)
    ensures day % 7 in ListedDays(tokens, first % 7) <==> OnListedDay(tokens, first, day)
  {
    TokenOfDay(tokens, day % 7);
    var known := set t | t in tokens && WeekdayOf(t).Some? :: WeekdayOf(t).value;
    assert day % 7 in known <==> exists t :: t in tokens && WeekdayOf(t) == Some(day % 7);
    if known != {} {
      var d :| d in known;
      var t :| t in tokens && WeekdayOf(t).Some? && WeekdayOf(t).value == d;
      TokenOfDay(tokens, d);
    } else {
      forall i | 0 <= i < 7 ensures WEEKDAYS[i] !in tokens {
        TokenOfDay(tokens, i);
        assert forall t :: t in tokens && WeekdayOf(t).Some? ==> WeekdayOf(t).value in known;
      }
    }
  }

  /** The interval the expansion uses. */
  function Interval(rule: Rule): (n: int)
    ensures n > 0 && Every(rule, n)
  {
    Positive(rule.interval).GetOr(1)
  }

  lemma DateOfMonthlyDay(dtstart: DateTime, n: int, k: nat)
    requires dtstart.Valid() && n > 0
    ensures OnMonthlyRule(dtstart, n, MonthlyDay(dtstart, n, k))
  {
    AddMonthsLands(dtstart, k * n);
    var dt := AddMonths(dtstart, k * n);
    OnMonthlyDay(dtstart, n, dt, k);
    assert dt.Valid() && dt.DayNumber() == MonthlyDay(dtstart, n, k);
  }

  lemma MonthlyMeans(dtstart: DateTime, n: int, day: int)
    requires dtstart.Valid() && n > 0
    ensures Occurs(Monthly(dtstart, n), day) <==> day >= dtstart.DayNumber() && OnMonthlyRule(dtstart, n, day)
  {
    if Occurs(Monthly(dtstart, n), day) {
      var k: nat :| day == MonthlyDay(dtstart, n, k);
      DateOfMonthlyDay(dtstart, n, k);
    }
    if OnMonthlyRule(dtstart, n, day) {
      var dt: DateTime :| dt.Valid() && dt.DayNumber() == day && InMonthlySeries(dtstart, n, dt);
      SeriesDateOccurs(Monthly(dtstart, n), dt);
    }
  }

  lemma WeeklyMeans(first: int, n: int, day: int)
    requires n > 0
    ensures Occurs(Stepped(first, 7 * n), day) <==>
              day >= first && day % 7 == first % 7 && ((day - first) / 7) % n == 0
  {
    WeeksAreSevens(day - first, n);
    assert (day - first) % 7 == 0 <==> day % 7 == first % 7;
  }

  lemma ByDayMeans(first: int, n: int, tokens: seq<string>, day: int)
    requires n > 0
    ensures Occurs(Weekdays(first, n, ListedDays(tokens, first % 7)), day) <==>
              day >= first && OnListedDay(tokens, first, day) && (day / 7 - first / 7) % n == 0
  {
    ListedMeans(tokens, first, day);
  }

  /** A rule's series occurs on the rule's own days. */
  lemma SeriesIsRule(dtstart: DateTime, rule: Rule, day: int)
    requires dtstart.Valid() && Supported(rule)
    ensures SeriesOf(dtstart, rule).Some?
    ensures Occurs(SeriesOf(dtstart, rule).value, day) <==> OnRule(dtstart, rule, Interval(rule), day)
  {
    var first, n := dtstart.DayNumber(), Interval(rule);
    if rule.freq == "WEEKLY" && rule.byday.Some? {
      ByDayMeans(first, n, rule.byday.value, day);
    } else if rule.freq == "WEEKLY" {
      WeeklyMeans(first, n, day);
    } else if rule.freq != "DAILY" {
      MonthlyMeans(dtstart, n, day);
    }
  }

  /** How many of the rule's days come before `day`. */
  ghost function DaysBefore(dtstart: DateTime, rule: Rule, day: int): nat
    requires dtstart.Valid()
  {
    Tally(d => OnRule(dtstart, rule, Interval(rule), d), dtstart.DayNumber(), day)
  }

  /** The rule has an occurrence on `day`, within COUNT and UNTIL, no more than a day past and no later
      than the horizon. */
  ghost predicate RuleShows(dtstart: DateTime, rule: Rule, now: int, horizonDays: int, day: int)
    requires dtstart.Valid()
  {
    var time := At(day, dtstart.tick);
    && OnRule(dtstart, rule, Interval(rule), day)
    && (rule.count.Some? && rule.count.value > 0 ==> DaysBefore(dtstart, rule, day) < rule.count.value)
    && (rule.until.Some? ==> time <= rule.until.value)
    && now <= time + TICKS_PER_DAY && time <= now + horizonDays * TICKS_PER_DAY
  }

  lemma RuleWalk(dtstart: DateTime, rule: Rule, now: int, horizonDays: int, max: int, day: int)
    requires dtstart.Valid() && Supported(rule) && SeriesOf(dtstart, rule).Some?
    ensures WalkOf(SeriesOf(dtstart, rule).value, dtstart.tick, LimitsOf(rule, now, horizonDays, max)).Shown(day)
       <==> RuleShows(dtstart, rule, now, horizonDays, day)
  {
    var lim := LimitsOf(rule, now, horizonDays, max);
    var w := WalkOf(SeriesOf(dtstart, rule).value, dtstart.tick, lim);
    var p := d => OnRule(dtstart, rule, Interval(rule), d);
    forall d ensures w.occurs(d) <==> p(d) {
      SeriesIsRule(dtstart, rule, d);
    }
    TallySame(w.occurs, p, dtstart.DayNumber(), day);
    assert w.occurs(day) <==> OnRule(dtstart, rule, Interval(rule), day);
  }

  /** Every occurrence before this day is within the iteration guard: ITER_GUARD intervals from DTSTART. */
  function RuleGuard(dtstart: DateTime, rule: Rule): int
    requires dtstart.Valid()
  {
    var first, n := dtstart.DayNumber(), Interval(rule);
    if rule.freq == "DAILY" then first + ITER_GUARD * n
    else if rule.freq == "WEEKLY" && rule.byday.None? then first + ITER_GUARD * 7 * n
    else if rule.freq == "WEEKLY" then first - first % 7 + ITER_GUARD * 7 * n
    else MonthlyDay(dtstart, n, ITER_GUARD)
  }

  /** Daily and plain weekly rules are never cut short in a window this small. */
  predicate NeverCut(rule: Rule, horizonDays: int) {
    rule.freq != "MONTHLY" && (rule.freq == "DAILY" || rule.byday.None?)
    && 0 <= horizonDays && horizonDays + 3 <= ITER_GUARD
  }

  lemma GuardCovers(dtstart: DateTime, rule: Rule, floor: int)
    requires dtstart.Valid() && Supported(rule) && SeriesOf(dtstart, rule).Some?
    ensures RuleGuard(dtstart, rule) <= GuardDay(SeriesOf(dtstart, rule).value, dtstart.tick, floor)
  {
    var s := SeriesOf(dtstart, rule).value;
    if s.Stepped? {
      SteppedGap(s, Skipped(s, dtstart.tick, floor));
    }
  }

  ghost predicate IsShown(dtstart: DateTime, rule: Rule, now: int, horizonDays: int, time: int)
    requires dtstart.Valid()
  {
    exists day :: RuleShows(dtstart, rule, now, horizonDays, day) && time == At(day, dtstart.tick)
  }

  ghost predicate ShowsOnly(dtstart: DateTime, rule: Rule, now: int, horizonDays: int, out: seq<int>)
    requires dtstart.Valid()
  {
    forall i :: 0 <= i < |out| ==> IsShown(dtstart, rule, now, horizonDays, out[i])
  }

  ghost predicate MissesNothing(dtstart: DateTime, rule: Rule, now: int, horizonDays: int, max: int, out: seq<int>)
    requires dtstart.Valid()
  {
    forall day :: RuleShows(dtstart, rule, now, horizonDays, day)
                  && (day < RuleGuard(dtstart, rule) || NeverCut(rule, horizonDays)) ==>
      At(day, dtstart.tick) in out || (|out| == max && forall x :: x in out ==> x < At(day, dtstart.tick))
  }

  /** What a supported rule returns: occurrences it shows, ascending, as many as asked for; every one within
      the guard unless that many earlier ones are returned. A cap below one returns at most one. */
  ghost predicate IsRuleExpansion(dtstart: DateTime, rule: Rule, now: int, horizonDays: int, max: int, out: seq<int>)
    requires dtstart.Valid()
  {
    && |out| <= (if max >= 1 then max else 1)
    && (forall i, j :: 0 <= i < j < |out| ==> out[i] < out[j])
    && ShowsOnly(dtstart, rule, now, horizonDays, out)
    && (max >= 1 ==> MissesNothing(dtstart, rule, now, horizonDays, max, out))
  }

  lemma GuardVerdict(s: Series, tick: int, lim: Limits, horizonDays: int)
    requires s.Valid() && lim.cap >= 0
    requires lim.horizon == lim.floor + (horizonDays + 1) * TICKS_PER_DAY
    ensures var w, guard := WalkOf(s, tick, lim), GuardDay(s, tick, lim.floor);
            && (w.IsExpansion(w.Examined(guard))
                <==> |w.Visible(guard)| >= lim.cap || forall e :: e >= guard ==> !w.Shown(e))
            && (lim.horizon < At(guard, tick) ==> w.IsExpansion(w.Examined(guard)))
            && (s.Stepped? && 0 <= horizonDays && horizonDays + 3 <= ITER_GUARD ==> w.IsExpansion(w.Examined(guard)))
  {
    var w, guard := WalkOf(s, tick, lim), GuardDay(s, tick, lim.floor);
    GuardedExpansion(w, guard);
    if s.Stepped? && 0 <= horizonDays && horizonDays + 3 <= ITER_GUARD {
      StepGuardSuffices(s, tick, lim, horizonDays);
    }
    if lim.horizon < At(guard, tick) {
      HorizonBeforeGuard(w, guard);
    }
  }

  /** Nothing shown lies beyond the guard, or the cap is full of earlier occurrences. */
  lemma BeyondGuard(w: Walk, guard: int, day: int)
    requires w.Valid() && w.IsExpansion(w.Examined(guard)) && w.Shown(day) && guard <= day
    ensures |w.Examined(guard)| == w.lim.cap && forall x :: x in w.Examined(guard) ==> x < w.Time(day)
  {
    GuardedExpansion(w, guard);
    ExaminedElements(w, guard);
  }

  lemma ElementIsShown(dtstart: DateTime, rule: Rule, now: int, horizonDays: int, max: int, w: Walk, guard: int, i: nat)
    requires dtstart.Valid() && Supported(rule) && SeriesOf(dtstart, rule).Some?
    requires w == WalkOf(SeriesOf(dtstart, rule).value, dtstart.tick, LimitsOf(rule, now, horizonDays, max))
    requires i < |w.Examined(guard)|
    ensures IsShown(dtstart, rule, now, horizonDays, w.Examined(guard)[i])
  {
    ExaminedElements(w, guard);
    var time := w.Examined(guard)[i];
    assert ShownBefore(w, guard, time);
    var day :| day < guard && w.Shown(day) && time == w.Time(day);
    RuleWalk(dtstart, rule, now, horizonDays, max, day);
  }

  lemma ShownIsReturned(dtstart: DateTime, rule: Rule, now: int, horizonDays: int, max: int, w: Walk, guard: int,
      day: int)
    requires dtstart.Valid() && Supported(rule) && SeriesOf(dtstart, rule).Some? && max >= 1
    requires w == WalkOf(SeriesOf(dtstart, rule).value, dtstart.tick, LimitsOf(rule, now, horizonDays, max))
    requires RuleShows(dtstart, rule, now, horizonDays, day) && (day < guard || w.IsExpansion(w.Examined(guard)))
    ensures var out := w.Examined(guard);
            w.Time(day) in out || (|out| == max && forall x :: x in out ==> x < w.Time(day))
  {
    RuleWalk(dtstart, rule, now, horizonDays, max, day);
    ExaminedElements(w, guard);
    if day >= guard {
      BeyondGuard(w, guard, day);
    }
  }

  lemma AllAreShown(dtstart: DateTime, rule: Rule, now: int, horizonDays: int, max: int, w: Walk, guard: int)
    requires dtstart.Valid() && Supported(rule) && SeriesOf(dtstart, rule).Some?
    requires w == WalkOf(SeriesOf(dtstart, rule).value, dtstart.tick, LimitsOf(rule, now, horizonDays, max))
    ensures ShowsOnly(dtstart, rule, now, horizonDays, w.Examined(guard))
  {
    forall i | 0 <= i < |w.Examined(guard)|
      ensures IsShown(dtstart, rule, now, horizonDays, w.Examined(guard)[i])
    {
      ElementIsShown(dtstart, rule, now, horizonDays, max, w, guard, i);
    }
  }

  lemma NothingIsMissed(dtstart: DateTime, rule: Rule, now: int, horizonDays: int, max: int, w: Walk, guard: int)
    requires dtstart.Valid() && Supported(rule) && SeriesOf(dtstart, rule).Some? && max >= 1
    requires w == WalkOf(SeriesOf(dtstart, rule).value, dtstart.tick, LimitsOf(rule, now, horizonDays, max))
    requires RuleGuard(dtstart, rule) <= guard && (NeverCut(rule, horizonDays) ==> w.IsExpansion(w.Examined(guard)))
    ensures MissesNothing(dtstart, rule, now, horizonDays, max, w.Examined(guard))
  {
    var out := w.Examined(guard);
    forall day | RuleShows(dtstart, rule, now, horizonDays, day)
                 && (day < RuleGuard(dtstart, rule) || NeverCut(rule, horizonDays))
      ensures At(day, dtstart.tick) in out || (|out| == max && forall x :: x in out ==> x < At(day, dtstart.tick))
    {
      ShownIsReturned(dtstart, rule, now, horizonDays, max, w, guard, day);
    }
  }

  lemma ExaminedIsRuleExpansion(dtstart: DateTime, rule: Rule, now: int, horizonDays: int, max: int, out: seq<int>)
    requires dtstart.Valid() && Supported(rule) && max >= 1 && SeriesOf(dtstart, rule).Some?
    requires var s, lim := SeriesOf(dtstart, rule).value, LimitsOf(rule, now, horizonDays, max);
             out == WalkOf(s, dtstart.tick, lim).Examined(GuardDay(s, dtstart.tick, lim.floor))
    ensures IsRuleExpansion(dtstart, rule, now, horizonDays, max, out)
  {
    var s, lim := SeriesOf(dtstart, rule).value, LimitsOf(rule, now, horizonDays, max);
    var w, guard := WalkOf(s, dtstart.tick, lim), GuardDay(s, dtstart.tick, lim.floor);
    GuardCovers(dtstart, rule, lim.floor);
    GuardVerdict(s, dtstart.tick, lim, horizonDays);
    ExaminedElements(w, guard);
    AllAreShown(dtstart, rule, now, horizonDays, max, w, guard);
    NothingIsMissed(dtstart, rule, now, horizonDays, max, w, guard);
  }

  // ----- A cap below one -----

  lemma {:induction false} FirstFrom(w: Walk, start: int, some: int) returns (day: int)
    requires start <= some && w.occurs(some)
    ensures IsNext(w, start, day)
    decreases some - start
  {
    if e :| start <= e < some && w.occurs(e) {
      day := FirstFrom(w, start, e);
    } else {
      day := some;
    }
  }

  lemma ListedDay(days: set<int>) returns (d: int)
    requires days != {}
    ensures d in days
  {
    assert (forall x :: x !in days) ==> days == {};
    d :| d in days;
  }

  lemma SomeWeekday(s: Series, tick: int, lim: Limits) returns (some: int)
    requires s.Valid() && s.Weekdays? && lim.cap >= 0
    ensures s.first <= some && Occurs(s, some)
  {
    var d := ListedDay(s.days);
    WeekIsActive(s, tick, lim, 1);
    some := Monday(s.first, s.interval, 1) + d;
    assert Monday(s.first, s.interval, 1) >= s.first;
  }

  /** A series never ends by itself. */
  lemma SomeOccurrence(s: Series, tick: int, lim: Limits) returns (some: int)
    requires s.Valid() && lim.cap >= 0
    ensures StartDay(s, tick, lim.floor) <= some && Occurs(s, some)
  {
    match s
    case Stepped(_, _) =>
      Jumped(s, tick, lim);
      some := StartDay(s, tick, lim.floor);
    case Monthly(start, interval) =>
      MonthlyFirst(start, interval);
      MonthlyOccurs(s, 0);
      some := s.First();
    case Weekdays(_, _, _) =>
      some := SomeWeekday(s, tick, lim);
  }

  lemma JustOneIsRuleExpansion(dtstart: DateTime, rule: Rule, now: int, horizonDays: int, max: int, out: seq<int>)
    requires dtstart.Valid() && Supported(rule) && max < 1 && SeriesOf(dtstart, rule).Some?
    requires var s, lim := SeriesOf(dtstart, rule).value, LimitsOf(rule, now, horizonDays, max);
             ReturnsJustOne(WalkOf(s, dtstart.tick, lim), StartDay(s, dtstart.tick, lim.floor), out)
    ensures IsRuleExpansion(dtstart, rule, now, horizonDays, max, out)
  {
    var s, lim := SeriesOf(dtstart, rule).value, LimitsOf(rule, now, horizonDays, max);
    var w := WalkOf(s, dtstart.tick, lim);
    var some := SomeOccurrence(s, dtstart.tick, lim);
    var day := FirstFrom(w, StartDay(s, dtstart.tick, lim.floor), some);
    RuleWalk(dtstart, rule, now, horizonDays, max, day);
  }

  /** An unsupported rule gives DTSTART alone. A supported one gives occurrences of the rule itself; it is
      what the days before the guard yield, which is the whole expansion exactly when the cap was reached
      or nothing shown follows. A cap below one stops after the first occurrence examined instead of
      before it. */
  method ExpandRrule(dtstart: DateTime, rule: Rule, now: int, horizonDays: int, maxOccurrences: int)
      returns (out: seq<int>)
    requires dtstart.Valid()
    ensures !Supported(rule) ==> out == [At(dtstart.DayNumber(), dtstart.tick)]
    ensures Supported(rule) ==> IsRuleExpansion(dtstart, rule, now, horizonDays, maxOccurrences, out)
    ensures SeriesOf(dtstart, rule).Some? && maxOccurrences >= 1 ==>
              var s, lim := SeriesOf(dtstart, rule).value, LimitsOf(rule, now, horizonDays, maxOccurrences);
              var w, guard := WalkOf(s, dtstart.tick, lim), GuardDay(s, dtstart.tick, lim.floor);
              && out == w.Examined(guard)
              && (w.IsExpansion(out) <==> |w.Visible(guard)| >= lim.cap || forall e :: e >= guard ==> !w.Shown(e))
              && (lim.horizon < At(guard, dtstart.tick) ==> w.IsExpansion(out))
              && (s.Stepped? && 0 <= horizonDays && horizonDays + 3 <= ITER_GUARD ==> w.IsExpansion(out))
    ensures SeriesOf(dtstart, rule).Some? && maxOccurrences < 1 ==>
              var s, lim := SeriesOf(dtstart, rule).value, LimitsOf(rule, now, horizonDays, maxOccurrences);
              ReturnsJustOne(WalkOf(s, dtstart.tick, lim), StartDay(s, dtstart.tick, lim.floor), out)
  {
    var series := SeriesOf(dtstart, rule);
    if series.None? {
      return [At(dtstart.DayNumber(), dtstart.tick)];
    }
    var s, lim := series.value, LimitsOf(rule, now, horizonDays, maxOccurrences);
    var rec := new Recorder(lim);
    match s {
      case Stepped(_, _) =>
        ExpandStepped(rec, s, dtstart.tick);
      case Monthly(_, _) =>
        ExpandMonthly(rec, s, dtstart.tick);
      case Weekdays(first, interval, days) =>
        forall wk: nat ensures ActiveWeek(WalkOf(s, dtstart.tick, lim), days, interval, Monday(first, interval, wk)) {
          WeekIsActive(s, dtstart.tick, lim, wk);
        }
        ExpandWeekdays(rec, WalkOf(s, dtstart.tick, lim), first, dtstart.tick, interval, days);
    }
    out := rec.out;
    GuardVerdict(s, dtstart.tick, lim, horizonDays);
    if maxOccurrences >= 1 {
      ExaminedIsRuleExpansion(dtstart, rule, now, horizonDays, maxOccurrences, out);
    } else {
      JustOneIsRuleExpansion(dtstart, rule, now, horizonDays, maxOccurrences, out);
    }
  }
}
