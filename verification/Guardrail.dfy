/** The guardrails several guardians set for one child, combined into the strictest of all. */
module Guardrail {
  import opened Options

  /** One guardian's limits; an empty weekday or category set is no restriction. */
  datatype Rail = Rail(supervisedOnly: bool, latestHour: Option<int>, maxOpenJoins: Option<int>, weekdays: set<int>,
                       earliestHour: Option<int>, categories: set<string>)
  {
    /** What the field validators let through. */
    predicate Valid() {
      && (latestHour.Some? ==> 0 <= latestHour.value <= 23)
      && (earliestHour.Some? ==> 0 <= earliestHour.value <= 23)
      && (maxOpenJoins.Some? ==> 1 <= maxOpenJoins.value <= 50)
      && (forall d :: d in weekdays ==> 1 <= d <= 7)
    }
  }

  /** The limits that are enforced; here an empty set lets nothing pass. */
  datatype Combined = Combined(supervisedOnly: bool, latestHour: Option<int>, maxOpenJoins: Option<int>,
                               weekdays: Option<set<int>>, earliestHour: Option<int>, categories: Option<set<string>>)

  /** What the gate looks at: local start hour and ISO weekday, and the type's category ancestry. */
  datatype Meetup = Meetup(accompanied: bool, hour: int, weekday: int, ancestry: seq<string>)

  /** The gate; `open` is how many open meetups the child is already in. */
  predicate Passes(rail: Option<Combined>, m: Meetup, open: nat) {
    rail.Some? ==>
      var r := rail.value;
      && (r.supervisedOnly ==> m.accompanied)
      && (r.latestHour.Some? ==> m.hour <= r.latestHour.value)
      && (r.weekdays.Some? ==> m.weekday in r.weekdays.value)
      && (r.earliestHour.Some? ==> m.hour >= r.earliestHour.value)
      && (r.categories.Some? ==> exists i :: 0 <= i < |m.ancestry| && m.ancestry[i] in r.categories.value)
      && (r.maxOpenJoins.Some? ==> open < r.maxOpenJoins.value)
  }

  /** A guardian's own limits, as they would be enforced alone. */
  function Alone(r: Rail): Combined {
    Combined(r.supervisedOnly, r.latestHour, r.maxOpenJoins, if r.weekdays == {} then None else Some(r.weekdays),
             r.earliestHour, if r.categories == {} then None else Some(r.categories))
  }

  // ----- What the combination has to be -----

  /** `least` is the smallest of the limits set, or None if none is. */
  ghost predicate IsLeast(least: Option<int>, limits: seq<Option<int>>) {
    && (least.None? <==> forall i :: 0 <= i < |limits| ==> limits[i].None?)
    && (least.Some? ==> least in limits && forall i :: 0 <= i < |limits| && limits[i].Some? ==>
       least.value <= limits[i].value)
  }

  ghost predicate IsGreatest(greatest: Option<int>, limits: seq<Option<int>>) {
    && (greatest.None? <==> forall i :: 0 <= i < |limits| ==> limits[i].None?)
    && (greatest.Some? ==> greatest in limits && forall i :: 0 <= i < |limits| && limits[i].Some? ==>
       limits[i].value <= greatest.value)
  }

  /** `common` is what all the non-empty sets share, or None if all are empty. */
  ghost predicate IsCommon<T(!new)>(common: Option<set<T>>, sets: seq<set<T>>) {
    && (common.None? <==> forall i :: 0 <= i < |sets| ==> sets[i] == {})
    && (common.Some? ==> forall x :: x in common.value <==>
       forall i :: 0 <= i < |sets| && sets[i] != {} ==> x in sets[i])
  }

  function Latest(rails: seq<Rail>): seq<Option<int>> {
    seq(|rails|, i requires 0 <= i < |rails| => rails[i].latestHour)
  }

  function Caps(rails: seq<Rail>): seq<Option<int>> {
    seq(|rails|, i requires 0 <= i < |rails| => rails[i].maxOpenJoins)
  }

  function Earliest(rails: seq<Rail>): seq<Option<int>> {
    seq(|rails|, i requires 0 <= i < |rails| => rails[i].earliestHour)
  }

  function Weekdays(rails: seq<Rail>): seq<set<int>> {
    seq(|rails|, i requires 0 <= i < |rails| => rails[i].weekdays)
  }

  function Categories(rails: seq<Rail>): seq<set<string>> {
    seq(|rails|, i requires 0 <= i < |rails| => rails[i].categories)
  }

  /** The strictest of all the rails, limit by limit; no rails, no limits. */
  ghost predicate IsEffective(e: Option<Combined>, rails: seq<Rail>) {
    && (e.None? <==> rails == [])
    && (e.Some? ==>
          && (e.value.supervisedOnly <==> exists i :: 0 <= i < |rails| && rails[i].supervisedOnly)
          && IsLeast(e.value.latestHour, Latest(rails))
          && IsLeast(e.value.maxOpenJoins, Caps(rails))
          && IsGreatest(e.value.earliestHour, Earliest(rails))
          && IsCommon(e.value.weekdays, Weekdays(rails))
          && IsCommon(e.value.categories, Categories(rails)))
  }

  method Least(limits: seq<Option<int>>) returns (least: Option<int>)
    ensures IsLeast(least, limits)
  {
    least := None;
    for i := 0 to |limits|
      invariant IsLeast(least, limits[..i])
    {
      assert limits[..i + 1] == limits[..i] + [limits[i]];
      if limits[i].Some? && (least.None? || limits[i].value < least.value) {
        least := limits[i];
      }
    }
    assert limits[..|limits|] == limits;
  }

  method Greatest(limits: seq<Option<int>>) returns (greatest: Option<int>)
    ensures IsGreatest(greatest, limits)
  {
    greatest := None;
    for i := 0 to |limits|
      invariant IsGreatest(greatest, limits[..i])
    {
      assert limits[..i + 1] == limits[..i] + [limits[i]];
      if limits[i].Some? && (greatest.None? || greatest.value < limits[i].value) {
        greatest := limits[i];
      }
    }
    assert limits[..|limits|] == limits;
  }

  method Common<T(==, !new)>(sets: seq<set<T>>) returns (common: Option<set<T>>)
    ensures IsCommon(common, sets)
  {
    common := None;
    for i := 0 to |sets|
      invariant IsCommon(common, sets[..i])
    {
      assert sets[..i + 1] == sets[..i] + [sets[i]];
      if sets[i] != {} {
        common := Some(if common.None? then sets[i] else common.value * sets[i]);
      }
    }
    assert sets[..|sets|] == sets;
  }

  /** The combined guardrail of the active rails of one child. */
  method EffectiveGuardrail(rails: seq<Rail>) returns (e: Option<Combined>)
    ensures IsEffective(e, rails)
  {
    if rails == [] {
      return None;
    }
    var supervised := false;
    for i := 0 to |rails|
      invariant supervised <==> exists k :: 0 <= k < i && rails[k].supervisedOnly
    {
      supervised := supervised || rails[i].supervisedOnly;
    }
    var latest := Least(Latest(rails));
    var cap := Least(Caps(rails));
    var earliest := Greatest(Earliest(rails));
    var weekdays := Common(Weekdays(rails));
    var categories := Common(Categories(rails));
    e := Some(Combined(supervised, latest, cap, weekdays, earliest, categories));
  }

  // ----- What it means -----

  /** Some category of the meetup is one every guardian with a category list allows. */
  ghost predicate ShareCategory(rails: seq<Rail>, m: Meetup) {
    || (forall i :: 0 <= i < |rails| ==> rails[i].categories == {})
    || exists k :: 0 <= k < |m.ancestry| && forall i :: 0 <= i < |rails| && rails[i].categories != {} ==>
       m.ancestry[k] in rails[i].categories
  }

  /** A guardian's own limits let a meetup through exactly when it meets each of them that is set. */
  lemma AloneMeans(r: Rail, m: Meetup, open: nat)
    ensures Passes(Some(Alone(r)), m, open) <==>
              && (m.accompanied || !r.supervisedOnly)
              && (r.latestHour.None? || m.hour <= r.latestHour.value)
              && (r.earliestHour.None? || r.earliestHour.value <= m.hour)
              && (r.maxOpenJoins.None? || open + 1 <= r.maxOpenJoins.value)
              && (r.weekdays == {} || m.weekday in r.weekdays)
              && (r.categories == {} || exists i :: 0 <= i < |m.ancestry| && m.ancestry[i] in r.categories)
    ensures Passes(None, m, open)
  {
  }

  lemma HoursAndCapAgree(e: Combined, rails: seq<Rail>, hour: int, open: int)
    requires IsEffective(Some(e), rails)
    ensures (e.latestHour.Some? ==> hour <= e.latestHour.value)
       <==> forall i :: 0 <= i < |rails| && rails[i].latestHour.Some? ==> hour <= rails[i].latestHour.value
    ensures (e.earliestHour.Some? ==> hour >= e.earliestHour.value)
       <==> forall i :: 0 <= i < |rails| && rails[i].earliestHour.Some? ==> hour >= rails[i].earliestHour.value
    ensures (e.maxOpenJoins.Some? ==> open < e.maxOpenJoins.value)
       <==> forall i :: 0 <= i < |rails| && rails[i].maxOpenJoins.Some? ==> open < rails[i].maxOpenJoins.value
  {
    assert forall i :: 0 <= i < |rails| ==> Latest(rails)[i] == rails[i].latestHour;
    assert forall i :: 0 <= i < |rails| ==> Earliest(rails)[i] == rails[i].earliestHour;
    assert forall i :: 0 <= i < |rails| ==> Caps(rails)[i] == rails[i].maxOpenJoins;
  }

  lemma WeekdaysAgree(e: Combined, rails: seq<Rail>, day: int)
    requires IsEffective(Some(e), rails)
    ensures (e.weekdays.Some? ==> day in e.weekdays.value)
       <==> forall i :: 0 <= i < |rails| && rails[i].weekdays != {} ==> day in rails[i].weekdays
  {
    assert forall i :: 0 <= i < |rails| ==> Weekdays(rails)[i] == rails[i].weekdays;
  }

  predicate CategoryPasses(categories: Option<set<string>>, m: Meetup) {
    categories.Some? ==> exists i :: 0 <= i < |m.ancestry| && m.ancestry[i] in categories.value
  }

  lemma CategoriesAgree(e: Combined, rails: seq<Rail>, m: Meetup)
    requires IsEffective(Some(e), rails)
    ensures CategoryPasses(e.categories, m) <==> ShareCategory(rails, m)
    ensures ShareCategory(rails, m) ==> forall i :: 0 <= i < |rails| ==> CategoryPasses(Alone(rails[i]).categories, m)
  {
    assert forall i :: 0 <= i < |rails| ==> Categories(rails)[i] == rails[i].categories;
  }

  /** A meetup passes the combination exactly when it passes every guardian's own limits and the
      guardians with category lists agree on one of its categories. */
  lemma CombinedIsStrictest(e: Option<Combined>, rails: seq<Rail>, m: Meetup, open: nat)
    requires IsEffective(e, rails)
    ensures Passes(e, m, open)
       <==> (forall i :: 0 <= i < |rails| ==> Passes(Some(Alone(rails[i])), m, open)) && ShareCategory(rails, m)
  {
    if e.Some? {
      HoursAndCapAgree(e.value, rails, m.hour, open);
      WeekdaysAgree(e.value, rails, m.weekday);
      CategoriesAgree(e.value, rails, m);
      assert CategoryPasses(e.value.categories, m) <==> ShareCategory(rails, m);
    }
  }

  /** The agreement is a real condition: each of two guardians would allow the meetup, together they do not. */
  lemma CategoriesOnlyStricter(a: string, b: string)
    requires a != b
    ensures var one, two := Rail(false, None, None, {}, None, {a}), Rail(false, None, None, {}, None, {b});
            var m := Meetup(false, 12, 1, [a, b]);
            && Passes(Some(Alone(one)), m, 0) && Passes(Some(Alone(two)), m, 0)
            && forall e :: IsEffective(e, [one, two]) ==> !Passes(e, m, 0)
  {
    var one, two := Rail(false, None, None, {}, None, {a}), Rail(false, None, None, {}, None, {b});
    var m := Meetup(false, 12, 1, [a, b]);
    var rails := [one, two];
    assert m.ancestry[0] == a && m.ancestry[1] == b;
    forall e | IsEffective(e, rails)
      ensures !Passes(e, m, 0)
    {
      CombinedIsStrictest(e, rails, m, 0);
      assert rails[0] == one && rails[1] == two;
    }
  }

  /** Only which rails there are matters, not their order or how often they occur. */
  lemma OrderDoesNotMatter(e: Option<Combined>, f: Option<Combined>, rails: seq<Rail>, other: seq<Rail>)
    requires IsEffective(e, rails) && IsEffective(f, other)
    requires forall r :: r in rails <==> r in other
    ensures e == f
  {
    SupervisionIsUnique(rails, other);
    if e.Some? && f.Some? {
      HoursAreUnique(e.value, f.value, rails, other);
      SetsAreUnique(e.value, f.value, rails, other);
    }
  }

  lemma SupervisionIsUnique(rails: seq<Rail>, other: seq<Rail>)
    requires forall r :: r in rails <==> r in other
    ensures rails == [] <==> other == []
    ensures (exists i :: 0 <= i < |rails| && rails[i].supervisedOnly) <==>
        exists i :: 0 <= i < |other| && other[i].supervisedOnly
  {
    assert rails != [] ==> rails[0] in other;
    assert other != [] ==> other[0] in rails;
    assert forall i :: 0 <= i < |rails| ==> rails[i] in other;
    assert forall i :: 0 <= i < |other| ==> other[i] in rails;
  }

  lemma HoursAreUnique(e: Combined, f: Combined, rails: seq<Rail>, other: seq<Rail>)
    requires forall r :: r in rails <==> r in other
    requires IsLeast(e.latestHour, Latest(rails)) && IsLeast(f.latestHour, Latest(other))
    requires IsLeast(e.maxOpenJoins, Caps(rails)) && IsLeast(f.maxOpenJoins, Caps(other))
    requires IsGreatest(e.earliestHour, Earliest(rails)) && IsGreatest(f.earliestHour, Earliest(other))
    ensures e.latestHour == f.latestHour && e.maxOpenJoins == f.maxOpenJoins && e.earliestHour == f.earliestHour
  {
    assert e.latestHour == f.latestHour by {
      SameLimits(Latest(rails), Latest(other), rails, other, (r: Rail) => r.latestHour);
      LeastIsUnique(e.latestHour, f.latestHour, Latest(rails), Latest(other));
    }
    assert e.maxOpenJoins == f.maxOpenJoins by {
      SameLimits(Caps(rails), Caps(other), rails, other, (r: Rail) => r.maxOpenJoins);
      LeastIsUnique(e.maxOpenJoins, f.maxOpenJoins, Caps(rails), Caps(other));
    }
    assert e.earliestHour == f.earliestHour by {
      SameLimits(Earliest(rails), Earliest(other), rails, other, (r: Rail) => r.earliestHour);
      GreatestIsUnique(e.earliestHour, f.earliestHour, Earliest(rails), Earliest(other));
    }
  }

  lemma SetsAreUnique(e: Combined, f: Combined, rails: seq<Rail>, other: seq<Rail>)
    requires forall r :: r in rails <==> r in other
    requires IsCommon(e.weekdays, Weekdays(rails)) && IsCommon(f.weekdays, Weekdays(other))
    requires IsCommon(e.categories, Categories(rails)) && IsCommon(f.categories, Categories(other))
    ensures e.weekdays == f.weekdays && e.categories == f.categories
  {
    SameLimits(Weekdays(rails), Weekdays(other), rails, other, (r: Rail) => r.weekdays);
    CommonIsUnique(e.weekdays, f.weekdays, Weekdays(rails), Weekdays(other));
    SameLimits(Categories(rails), Categories(other), rails, other, (r: Rail) => r.categories);
    CommonIsUnique(e.categories, f.categories, Categories(rails), Categories(other));
  }

  lemma SameLimits<T>(a: seq<T>, b: seq<T>, rails: seq<Rail>, other: seq<Rail>, limit: Rail -> T)
    requires forall r :: r in rails <==> r in other
    requires |a| == |rails| && forall i :: 0 <= i < |a| ==> a[i] == limit(rails[i])
    requires |b| == |other| && forall i :: 0 <= i < |b| ==> b[i] == limit(other[i])
    ensures SameMembers(a, b)
  {
    forall i | 0 <= i < |a| ensures a[i] in b {
      assert rails[i] in other;
      var k :| 0 <= k < |other| && other[k] == rails[i];
      assert b[k] == a[i];
    }
    forall i | 0 <= i < |b| ensures b[i] in a {
      assert other[i] in rails;
      var k :| 0 <= k < |rails| && rails[k] == other[i];
      assert a[k] == b[i];
    }
  }

  ghost predicate SameMembers<T>(a: seq<T>, b: seq<T>) {
    && (forall i :: 0 <= i < |a| ==> a[i] in b)
    && (forall i :: 0 <= i < |b| ==> b[i] in a)
  }

  lemma LeastIsUnique(x: Option<int>, y: Option<int>, a: seq<Option<int>>, b: seq<Option<int>>)
    requires IsLeast(x, a) && IsLeast(y, b) && SameMembers(a, b)
    ensures x == y
  {
  }

  lemma GreatestIsUnique(x: Option<int>, y: Option<int>, a: seq<Option<int>>, b: seq<Option<int>>)
    requires IsGreatest(x, a) && IsGreatest(y, b) && SameMembers(a, b)
    ensures x == y
  {
  }

  lemma CommonIsUnique<T(!new)>(x: Option<set<T>>, y: Option<set<T>>, a: seq<set<T>>, b: seq<set<T>>)
    requires IsCommon(x, a) && IsCommon(y, b) && SameMembers(a, b)
    ensures x == y
  {
    if x.Some? && y.Some? {
      forall v | v in x.value ensures v in y.value {
        forall i | 0 <= i < |b| && b[i] != {} ensures v in b[i] {
          assert b[i] in a;
        }
      }
      forall v | v in y.value ensures v in x.value {
        forall i | 0 <= i < |a| && a[i] != {} ensures v in a[i] {
          assert a[i] in b;
        }
      }
      assert x.value == y.value;
    }
  }

  /** A further guardian never lets a meetup through that the others' combination stops. */
  lemma AnotherGuardianNeverWidens(e: Option<Combined>, f: Option<Combined>, rails: seq<Rail>, extra: Rail, m: Meetup,
      open: nat)
    requires IsEffective(e, rails) && IsEffective(f, rails + [extra]) && Passes(f, m, open)
    ensures Passes(e, m, open)
  {
    var all := rails + [extra];
    CombinedIsStrictest(e, rails, m, open);
    CombinedIsStrictest(f, all, m, open);
    assert forall i :: 0 <= i < |rails| ==> all[i] == rails[i];
  }

  // ----- The flag guardians are shown -----

  predicate BlocksAll(e: Option<Combined>) {
    e.Some? &&
    (e.value.weekdays == Some({})
     || e.value.categories == Some({})
     || (e.value.earliestHour.Some? && e.value.latestHour.Some?
        && e.value.earliestHour.value > e.value.latestHour.value))
  }

  /** A meetup that can exist. */
  predicate Real(m: Meetup) {
    0 <= m.hour <= 23 && 1 <= m.weekday <= 7
  }

  /** The flag is up exactly when no meetup at all can pass, whatever its slot and categories and
      however few open joins the child has. */
  lemma FlagIsExact(e: Option<Combined>, rails: seq<Rail>)
    requires IsEffective(e, rails) && forall i :: 0 <= i < |rails| ==> rails[i].Valid()
    ensures BlocksAll(e) <==> forall m, open :: Real(m) ==> !Passes(e, m, open)
  {
    if !BlocksAll(e) {
      var m := SomeMeetup(e, rails);
      assert Passes(e, m, 0);
    }
  }

  lemma SomeElement<T>(s: set<T>) returns (x: T)
    requires s != {}
    ensures x in s
  {
    x :| x in s;
  }

  lemma SomeMeetup(e: Option<Combined>, rails: seq<Rail>) returns (m: Meetup)
    requires IsEffective(e, rails) && !BlocksAll(e) && forall i :: 0 <= i < |rails| ==> rails[i].Valid()
    ensures Real(m) && Passes(e, m, 0)
  {
    if e.None? {
      return Meetup(true, 12, 1, []);
    }
    var r := e.value;
    LimitsAreValid(r, rails);
    var hour := if r.earliestHour.Some? then r.earliestHour.value else 0;
    var day := 1;
    if r.weekdays.Some? {
      day := SomeElement(r.weekdays.value);
    }
    m := Meetup(true, hour, day, []);
    if r.categories.Some? {
      var slug := SomeElement(r.categories.value);
      m := Meetup(true, hour, day, [slug]);
      assert m.ancestry[0] in r.categories.value;
    }
  }

  lemma LimitsAreValid(r: Combined, rails: seq<Rail>)
    requires IsEffective(Some(r), rails) && forall i :: 0 <= i < |rails| ==> rails[i].Valid()
    ensures (r.latestHour.Some? ==> 0 <= r.latestHour.value <= 23)
    ensures (r.earliestHour.Some? ==> 0 <= r.earliestHour.value <= 23)
    ensures (r.maxOpenJoins.Some? ==> 1 <= r.maxOpenJoins.value)
    ensures r.weekdays.Some? ==> forall d :: d in r.weekdays.value ==> 1 <= d <= 7
  {
    if r.weekdays.Some? {
      var i :| 0 <= i < |rails| && Weekdays(rails)[i] != {};
      assert Weekdays(rails)[i] == rails[i].weekdays;
    }
  }
}
