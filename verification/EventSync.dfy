/** Upstream events: late observations, deletion markers, and reconciliation with whole snapshots. */
module EventSync {
  import opened Options

  datatype Source = ICAL | GOOGLE | USER | MANUAL | SCRAPER

  datatype Lifecycle =
    | SCHEDULED | RESCHEDULED | POSTPONED | CANCELLED | SOLD_OUT | MOVED_ONLINE | EXPIRED | REMOVED | UNKNOWN

  /** `body` stands for the fields that an upsert simply overwrites. */
  datatype Event = Event(body: string, lifecycle: Lifecycle, tombstone: bool, held: bool,
                         pack: string, city: string, snapshot: string, release: string,
                         snapshotAt: Option<int>, lastSeen: Option<int>, updated: Option<int>)
  {
    /** When upstream last observed the event. */
    function Observed(): Option<int> {
      if updated.Some? then updated else lastSeen
    }

    predicate Discoverable() {
      !tombstone && !held && Named(lifecycle)
    }
  }

  predicate Named(lifecycle: Lifecycle) {
    lifecycle == SCHEDULED || lifecycle == RESCHEDULED || lifecycle == SOLD_OUT
  }

  /** One upstream record; `lifecycle` is None when its text is blank or no known status, `tombstone`
      is None when the record does not say. */
  datatype Raw = Raw(body: string, lifecycle: Option<Lifecycle>, tombstone: Option<bool>, held: bool,
                     pack: string, city: string, snapshot: string, release: string,
                     snapshotAt: Option<int>, lastSeen: Option<int>, updated: Option<int>)
  {
    function Observed(): Option<int> {
      if updated.Some? then updated else lastSeen
    }
  }

  datatype SyncState = SyncState(pack: string, city: string, snapshot: string, release: string, at: int)

  datatype Key = Key(source: Source, id: string)

  /** `states` are in order of creation. */
  datatype Site = Site(events: map<Key, Event>, states: seq<SyncState>)

  predicate Older(incoming: Option<int>, known: Option<int>) {
    incoming.Some? && known.Some? && incoming.value < known.value
  }

  function Keep(given: string, known: string): string {
    if given != "" then given else known
  }

  function KeepTime(given: Option<int>, known: Option<int>): Option<int> {
    if given.Some? then given else known
  }

  const NOTHING := Event("", SCHEDULED, false, false, "", "", "", "", None, None, None)

  /** The row a record turns `known` into; a new row starts from NOTHING. */
  function Merged(known: Event, raw: Raw): Event {
    var tombstone := raw.tombstone.GetOr(known.tombstone);
    Event(raw.body,
          if tombstone then REMOVED else raw.lifecycle.GetOr(known.lifecycle),
          tombstone,
          raw.held,
          Keep(raw.pack, known.pack), Keep(raw.city, known.city),
          Keep(raw.snapshot, known.snapshot), Keep(raw.release, known.release),
          KeepTime(raw.snapshotAt, known.snapshotAt),
          KeepTime(raw.lastSeen, known.lastSeen), KeepTime(raw.updated, known.updated))
  }

  function Upserted(s: Site, key: Key, raw: Raw): Site {
    if key !in s.events then s.(events := s.events[key := Merged(NOTHING, raw)])
    else if key.source == SCRAPER && Older(raw.Observed(), s.events[key].Observed()) then s
    else s.(events := s.events[key := Merged(s.events[key], raw)])
  }

  /** A deletion marker; blank metadata leaves what is known. */
  datatype Marker = Marker(pack: string, snapshot: string, release: string, snapshotAt: Option<int>,
      updated: Option<int>)

  function Tombstoned(s: Site, id: string, m: Marker): Site {
    var key := Key(SCRAPER, id);
    if key !in s.events || Older(m.updated, s.events[key].Observed()) then s
    else
      var e := s.events[key];
      s.(events := s.events[key := e.(lifecycle := REMOVED, tombstone := true, pack := Keep(m.pack, e.pack),
                                      snapshot := Keep(m.snapshot, e.snapshot), release := Keep(m.release, e.release),
                                      snapshotAt := KeepTime(m.snapshotAt, e.snapshotAt),
                                      updated := KeepTime(m.updated, e.updated))])
  }

  /** A complete snapshot of one pack and city. */
  datatype Snapshot = Snapshot(pack: string, city: string, id: string, release: string, at: int, seen: set<string>)

  /** City names are compared without regard to case when rows are looked up; `fold` is that folding. */
  type Fold = string -> string

  predicate SameScope(state: SyncState, pack: string, city: string, fold: Fold) {
    state.pack == pack && fold(state.city) == fold(city)
  }

  /** The first recorded state of a scope. */
  function FirstState(states: seq<SyncState>, pack: string, city: string, fold: Fold): Option<SyncState> {
    if states == [] then None
    else if SameScope(states[0], pack, city, fold) then Some(states[0])
    else FirstState(states[1..], pack, city, fold)
  }

  predicate InOrder(state: Option<SyncState>, id: string, at: int) {
    state.Some? ==> state.value.at < at || (state.value.at == at && state.value.snapshot == id)
  }

  predicate Accepted(s: Site, snap: Snapshot, rollback: bool, fold: Fold) {
    rollback || InOrder(FirstState(s.states, snap.pack, snap.city, fold), snap.id, snap.at)
  }

  predicate InScope(key: Key, e: Event, snap: Snapshot, fold: Fold) {
    key.source == SCRAPER && e.pack == snap.pack && fold(e.city) == fold(snap.city)
  }

  /** The live rows of the scope the snapshot does not contain. */
  function Absent(events: map<Key, Event>, snap: Snapshot, fold: Fold): set<Key> {
    set key | key in events && InScope(key, events[key], snap, fold) && !events[key].tombstone && key.id !in snap.seen
  }

  function Retracted(e: Event, snap: Snapshot): Event {
    e.(lifecycle := REMOVED, tombstone := true, snapshot := snap.id, release := snap.release,
      snapshotAt := Some(snap.at))
  }

  /** Update the state with exactly this pack and city, or add it. */
  function Completed(states: seq<SyncState>, snap: Snapshot): seq<SyncState> {
    var done := SyncState(snap.pack, snap.city, snap.id, snap.release, snap.at);
    if states == [] then [done]
    else if states[0].pack == snap.pack && states[0].city == snap.city then [done] + states[1..]
    else [states[0]] + Completed(states[1..], snap)
  }

  function Reconciled(s: Site, snap: Snapshot, rollback: bool, fold: Fold): Site {
    if !Accepted(s, snap, rollback, fold) then s
    else
      var absent := Absent(s.events, snap, fold);
      Site(map key | key in s.events :: if key in absent then Retracted(s.events[key], snap) else s.events[key],
           Completed(s.states, snap))
  }

  datatype Step =
    | Upsert(key: Key, raw: Raw)
    | Tombstone(id: string, marker: Marker)
    | Reconcile(snap: Snapshot, rollback: bool)

  function Next(s: Site, step: Step, fold: Fold): Site {
    match step
    case Upsert(key, raw) => Upserted(s, key, raw)
    case Tombstone(id, marker) => Tombstoned(s, id, marker)
    case Reconcile(snap, rollback) => Reconciled(s, snap, rollback, fold)
  }

  function After(s: Site, run: seq<Step>, fold: Fold): Site
    decreases |run|
  {
    if run == [] then s else After(Next(s, run[0], fold), run[1..], fold)
  }

  // ----- The table and its operations -----

  class EventTable {
    const fold: Fold
    var events: map<Key, Event>
    var states: seq<SyncState>

    constructor (fold: Fold)
      ensures this.fold == fold && State() == Site(map[], [])
    {
      this.fold, events, states := fold, map[], [];
    }

    ghost function State(): Site
      reads this
    {
      Site(events, states)
    }

    method UpsertEvent(source: Source, id: string, raw: Raw)
      modifies this
      ensures State() == Upserted(old(State()), Key(source, id), raw)
    {
      var key := Key(source, id);
      var known := NOTHING;
      if key in events {
        known := events[key];
        var incoming := if raw.updated.Some? then raw.updated else raw.lastSeen;
        if source == SCRAPER && Older(incoming, known.Observed()) {
          return;
        }
      }
      var lifecycle := if raw.lifecycle.Some? then raw.lifecycle.value else known.lifecycle;
      var tombstone := if raw.tombstone.Some? then raw.tombstone.value else known.tombstone;
      if tombstone {
        lifecycle := REMOVED;
      }
      events := events[key := Event(raw.body, lifecycle, tombstone, raw.held,
                                    Keep(raw.pack, known.pack), Keep(raw.city, known.city),
                                    Keep(raw.snapshot, known.snapshot), Keep(raw.release, known.release),
                                    KeepTime(raw.snapshotAt, known.snapshotAt),
                                    KeepTime(raw.lastSeen, known.lastSeen), KeepTime(raw.updated, known.updated))];
    }

    method TombstoneEvent(id: string, m: Marker)
      modifies `events
      ensures State() == Tombstoned(old(State()), id, m)
    {
      var key := Key(SCRAPER, id);
      if key !in events || Older(m.updated, events[key].Observed()) {
        return;
      }
      var e := events[key].(lifecycle := REMOVED, tombstone := true);
      if m.pack != "" {
        e := e.(pack := m.pack);
      }
      if m.snapshot != "" {
        e := e.(snapshot := m.snapshot);
      }
      if m.release != "" {
        e := e.(release := m.release);
      }
      if m.snapshotAt.Some? {
        e := e.(snapshotAt := m.snapshotAt);
      }
      if m.updated.Some? {
        e := e.(updated := m.updated);
      }
      events := events[key := e];
    }

    /** None when the snapshot is refused as stale, otherwise how many rows it retracted. */
    method ReconcileSnapshot(snap: Snapshot, rollback: bool) returns (retracted: Option<nat>)
      modifies this
      ensures State() == Reconciled(old(State()), snap, rollback, fold)
      ensures retracted == if Accepted(old(State()), snap, rollback, fold) then Some(|Absent(old(events), snap, fold)|)
          else None
    {
      var state := FirstState(states, snap.pack, snap.city, fold);
      if state.Some? && !rollback {
        if snap.at < state.value.at {
          return None;
        }
        if snap.at == state.value.at && snap.id != state.value.snapshot {
          return None;
        }
      }
      var absent := Absent(events, snap, fold);
      events := map key | key in events :: if key in absent then Retracted(events[key], snap) else events[key];
      RecordCompletion(snap);
      retracted := Some(|absent|);
    }

    /** Update the state row with exactly this pack and city, or add one. */
    method RecordCompletion(snap: Snapshot)
      modifies `states
      ensures states == Completed(old(states), snap)
    {
      var done := SyncState(snap.pack, snap.city, snap.id, snap.release, snap.at);
      var i := 0;
      while i < |states| && !(states[i].pack == snap.pack && states[i].city == snap.city)
        invariant 0 <= i <= |states|
        invariant Completed(states, snap) == states[..i] + Completed(states[i..], snap)
      {
        assert states[i..][1..] == states[i + 1..];
        i := i + 1;
      }
      if i < |states| {
        assert states[i..][1..] == states[i + 1..] && states[i := done] == states[..i] + [done] + states[i + 1..];
        states := states[i := done];
      } else {
        states := states + [done];
      }
    }
  }

  // ----- What one record does -----

  /** A field that keeps what is known: what the record gives replaces it, a blank leaves it. */
  predicate Kept(given: string, known: string, after: string) {
    (given != "" ==> after == given) && (given == "" ==> after == known)
  }

  predicate KeptTime(given: Option<int>, known: Option<int>, after: Option<int>) {
    (given.Some? ==> after == given) && (given.None? ==> after == known)
  }

  /** A record of the scraper observed before what is known of the event. */
  predicate Late(s: Site, key: Key, observed: Option<int>) {
    && key in s.events && observed.Some?
    && var e := s.events[key];
       if e.updated.Some? then observed.value < e.updated.value
       else e.lastSeen.Some? && observed.value < e.lastSeen.value
  }

  function ObservedAt(raw: Raw): Option<int> {
    if raw.updated.Some? then raw.updated else raw.lastSeen
  }

  /** An upsert changes its own row alone, and that unless a scraper record is late: the overwritten fields
      and the hold become the record's, metadata it leaves blank keep what was known, a tombstone forces
      REMOVED, and a lifecycle it does not give stays (SCHEDULED for a new row). */
  lemma UpsertIsExact(s: Site, key: Key, raw: Raw)
    ensures var t := Upserted(s, key, raw);
            if key.source == SCRAPER && Late(s, key, ObservedAt(raw)) then t == s
            else
              && t == s.(events := t.events) && t.events.Keys == s.events.Keys + {key}
              && (forall k :: k in s.events && k != key ==> t.events[k] == s.events[k])
              && var e, known := t.events[key], if key in s.events then s.events[key] else NOTHING;
                 && e.body == raw.body && e.held == raw.held
                 && e.tombstone == (if raw.tombstone.Some? then raw.tombstone.value else known.tombstone)
                 && e.lifecycle == (if e.tombstone then REMOVED
                                    else if raw.lifecycle.Some? then raw.lifecycle.value else known.lifecycle)
                 && Kept(raw.pack, known.pack, e.pack) && Kept(raw.city, known.city, e.city)
                 && Kept(raw.snapshot, known.snapshot, e.snapshot) && Kept(raw.release, known.release, e.release)
                 && KeptTime(raw.snapshotAt, known.snapshotAt, e.snapshotAt)
                 && KeptTime(raw.lastSeen, known.lastSeen, e.lastSeen)
                 && KeptTime(raw.updated, known.updated, e.updated)
  {
  }

  /** A deletion marker changes the scraper's row of that id alone, and that unless it is late: the row is
      removed, everything upstream said about it stays, and so does metadata the marker leaves blank. */
  lemma TombstoneIsExact(s: Site, id: string, m: Marker)
    ensures var key, t := Key(SCRAPER, id), Tombstoned(s, id, m);
            if key !in s.events || Late(s, key, m.updated) then t == s
            else
              && t == s.(events := t.events) && t.events.Keys == s.events.Keys
              && (forall k :: k in s.events && k != key ==> t.events[k] == s.events[k])
              && var e, known := t.events[key], s.events[key];
                 && e.tombstone && e.lifecycle == REMOVED && e.body == known.body && e.held == known.held
                 && e.city == known.city && e.lastSeen == known.lastSeen
                 && Kept(m.pack, known.pack, e.pack) && Kept(m.snapshot, known.snapshot, e.snapshot)
                 && Kept(m.release, known.release, e.release)
                 && KeptTime(m.snapshotAt, known.snapshotAt, e.snapshotAt)
                 && KeptTime(m.updated, known.updated, e.updated)
  {
  }

  /** Once known, an event's pack, city and times are never unknown again. */
  predicate Remembers(before: Event, after: Event) {
    && (before.pack != "" ==> after.pack != "") && (before.city != "" ==> after.city != "")
    && (before.lastSeen.Some? ==> after.lastSeen.Some?) && (before.updated.Some? ==> after.updated.Some?)
    && (before.snapshotAt.Some? ==> after.snapshotAt.Some?)
  }

  lemma {:induction false} RunRemembers(s: Site, run: seq<Step>, fold: Fold, key: Key)
    requires key in s.events
    ensures key in After(s, run, fold).events && Remembers(s.events[key], After(s, run, fold).events[key])
    decreases |run|
  {
    if run != [] {
      var t := Next(s, run[0], fold);
      assert key in t.events && Remembers(s.events[key], t.events[key]);
      RunRemembers(t, run[1..], fold, key);
    }
  }

  // ----- Observations never go back -----

  lemma StepKeepsObservation(s: Site, step: Step, fold: Fold, key: Key)
    requires key in s.events && key.source == SCRAPER
    ensures key in Next(s, step, fold).events
    ensures !Older(Next(s, step, fold).events[key].Observed(), s.events[key].Observed())
    ensures s.events[key].Observed().Some? ==> Next(s, step, fold).events[key].Observed().Some?
  {
  }

  lemma {:induction false} RunKeepsObservation(s: Site, run: seq<Step>, fold: Fold, key: Key)
    requires key in s.events && key.source == SCRAPER
    ensures key in After(s, run, fold).events
    ensures !Older(After(s, run, fold).events[key].Observed(), s.events[key].Observed())
    ensures s.events[key].Observed().Some? ==> After(s, run, fold).events[key].Observed().Some?
    decreases |run|
  {
    if run != [] {
      StepKeepsObservation(s, run[0], fold, key);
      RunKeepsObservation(Next(s, run[0], fold), run[1..], fold, key);
    }
  }

  ghost predicate NeverGoesBack(source: Source, fold: Fold) {
    forall s: Site, run, id {:trigger After(s, run, fold).events[Key(source, id)]} ::
      Key(source, id) in s.events ==>
        Key(source, id) in After(s, run, fold).events
        && !Older(After(s, run, fold).events[Key(source, id)].Observed(), s.events[Key(source, id)].Observed())
  }

  /** Over every run the observation time of an event never goes back, exactly for the scraper's events. */
  lemma ObservationIsMonotone(source: Source, fold: Fold)
    ensures source == SCRAPER <==> NeverGoesBack(source, fold)
  {
    if source == SCRAPER {
      forall s: Site, run, id | Key(source, id) in s.events
        ensures Key(source, id) in After(s, run, fold).events
        ensures !Older(After(s, run, fold).events[Key(source, id)].Observed(), s.events[Key(source, id)].Observed())
      {
        RunKeepsObservation(s, run, fold, Key(source, id));
      }
    } else {
      var key := Key(source, "1");
      var s := Site(map[key := NOTHING.(updated := Some(2))], []);
      var raw := Raw("", None, None, false, "", "", "", "", None, None, Some(1));
      var run := [Upsert(key, raw)];
      assert run[1..] == [];
      assert After(s, run, fold) == Upserted(s, key, raw);
      assert After(s, run, fold).events[Key(source, "1")].Observed() == Some(1);
    }
  }

  // ----- Tombstones -----

  ghost predicate Marked(s: Site) {
    forall key :: key in s.events && s.events[key].tombstone ==> s.events[key].lifecycle == REMOVED
  }

  lemma StepKeepsMarked(s: Site, step: Step, fold: Fold)
    requires Marked(s)
    ensures Marked(Next(s, step, fold))
  {
  }

  /** Over every run a tombstoned event is removed, and so never discoverable. */
  lemma {:induction false} RunKeepsMarked(s: Site, run: seq<Step>, fold: Fold, key: Key)
    requires Marked(s)
    ensures var t := After(s, run, fold);
            Marked(t) && (key in t.events && t.events[key].tombstone ==>
                            t.events[key].lifecycle == REMOVED && !t.events[key].Discoverable())
    decreases |run|
  {
    if run != [] {
      StepKeepsMarked(s, run[0], fold);
      RunKeepsMarked(Next(s, run[0], fold), run[1..], fold, key);
    }
  }

  /** A step lifts a tombstone only if it is an upsert, not older than what is known, that says so. */
  predicate Clears(step: Step, key: Key, known: Option<int>) {
    step.Upsert? && step.key == key && step.raw.tombstone == Some(false) && !Older(step.raw.Observed(), known)
  }

  predicate Names(step: Step, key: Key) {
    step.Upsert? && step.key == key && step.raw.lifecycle in {Some(SCHEDULED), Some(RESCHEDULED), Some(SOLD_OUT)}
  }

  /** One step makes a tombstoned event discoverable exactly when it clears the tombstone, names a
      discoverable lifecycle and is not held back. */
  lemma RevivalInOneStep(s: Site, step: Step, fold: Fold, key: Key)
    requires Marked(s) && key in s.events && s.events[key].tombstone && key.source == SCRAPER
    ensures Next(s, step, fold).events[key].Discoverable()
       <==> Clears(step, key, s.events[key].Observed()) && Names(step, key) && !step.raw.held
    ensures !Next(s, step, fold).events[key].tombstone <==> Clears(step, key, s.events[key].Observed())
  {
  }

  /** What one accepted step says about an event; None where it says nothing. */
  datatype Decision = Decision(tombstone: Option<bool>, lifecycle: Option<Lifecycle>, held: Option<bool>) {
    predicate Sets() {
      tombstone.Some? && tombstone.value
    }

    predicate Lifts() {
      tombstone.Some? && !tombstone.value
    }

    predicate Names() {
      lifecycle.Some? && Named(lifecycle.value)
    }

    predicate Renames() {
      lifecycle.Some? && !Named(lifecycle.value)
    }
  }

  const RETRACTION := Decision(Some(true), None, None)

  /** What a step decides about `key`: nothing when it concerns others, is late, or is refused. */
  function Decides(s: Site, step: Step, fold: Fold, key: Key): seq<Decision>
    requires key in s.events
  {
    match step
    case Upsert(k, raw) =>
      if k != key || (key.source == SCRAPER && Older(raw.Observed(), s.events[key].Observed())) then []
      else [Decision(raw.tombstone, raw.lifecycle, Some(raw.held))]
    case Tombstone(id, marker) =>
      if key != Key(SCRAPER, id) || Older(marker.updated, s.events[key].Observed()) then [] else [RETRACTION]
    case Reconcile(snap, rollback) =>
      if Accepted(s, snap, rollback, fold) && key in Absent(s.events, snap, fold) then [RETRACTION] else []
  }

  lemma StepKeepsKeys(s: Site, step: Step, fold: Fold)
    ensures s.events.Keys <= Next(s, step, fold).events.Keys
  {
  }

  /** Everything a run decides about `key`, in order. */
  function Decisions(s: Site, run: seq<Step>, fold: Fold, key: Key): seq<Decision>
    requires key in s.events
    decreases |run|
  {
    if run == [] then []
    else
      StepKeepsKeys(s, run[0], fold);
      Decides(s, run[0], fold, key) + Decisions(Next(s, run[0], fold), run[1..], fold, key)
  }

  datatype Marks = Marks(tombstone: bool, lifecycle: Lifecycle, held: bool) {
    predicate Discoverable() {
      !tombstone && !held && Named(lifecycle)
    }
  }

  function MarksOf(e: Event): Marks {
    Marks(e.tombstone, e.lifecycle, e.held)
  }

  function Decided(m: Marks, d: Decision): Marks {
    var tombstone := d.tombstone.GetOr(m.tombstone);
    Marks(tombstone, if tombstone then REMOVED else d.lifecycle.GetOr(m.lifecycle), d.held.GetOr(m.held))
  }

  function DecidedAll(m: Marks, ds: seq<Decision>): Marks {
    if ds == [] then m else Decided(DecidedAll(m, ds[..|ds| - 1]), ds[|ds| - 1])
  }

  lemma {:induction false} DecidedInTurn(m: Marks, a: seq<Decision>, b: seq<Decision>)
    ensures DecidedAll(m, a + b) == DecidedAll(DecidedAll(m, a), b)
    decreases |b|
  {
    if b == [] {
      assert a + b == a;
    } else {
      DecidedInTurn(m, a, b[..|b| - 1]);
      assert (a + b)[..|a + b| - 1] == a + b[..|b| - 1];
    }
  }

  lemma StepDecides(s: Site, step: Step, fold: Fold, key: Key)
    requires Marked(s) && key in s.events
    ensures key in Next(s, step, fold).events
    ensures MarksOf(Next(s, step, fold).events[key]) == DecidedAll(MarksOf(s.events[key]), Decides(s, step, fold, key))
  {
    var ds := Decides(s, step, fold, key);
    assert ds != [] ==> ds[..0] == [];
  }

  /** The decisions determine the marks of the event after the run. */
  lemma {:induction false} RunDecides(s: Site, run: seq<Step>, fold: Fold, key: Key)
    requires Marked(s) && key in s.events
    ensures key in After(s, run, fold).events
    ensures MarksOf(After(s, run, fold).events[key]) == DecidedAll(MarksOf(s.events[key]), Decisions(s, run, fold, key))
    decreases |run|
  {
    if run != [] {
      StepDecides(s, run[0], fold, key);
      StepKeepsMarked(s, run[0], fold);
      RunDecides(Next(s, run[0], fold), run[1..], fold, key);
      DecidedInTurn(MarksOf(s.events[key]), Decides(s, run[0], fold, key),
        Decisions(Next(s, run[0], fold), run[1..], fold, key));
    }
  }

  /** From decision `i` on, which clears the tombstone, none sets it again. */
  predicate ClearedFrom(ds: seq<Decision>, i: nat) {
    i < |ds| && ds[i].Lifts() && forall k :: i <= k < |ds| ==> !ds[k].Sets()
  }

  /** Decision `j` names a discoverable lifecycle, and no later one names another. */
  predicate NamedFrom(ds: seq<Decision>, j: nat) {
    j < |ds| && ds[j].Names() && forall k :: j < k < |ds| ==> !ds[k].Renames()
  }

  /** The last decision on holding back, or `held` if there is none. */
  function LastHeld(held: bool, ds: seq<Decision>): bool {
    if ds == [] then held else ds[|ds| - 1].held.GetOr(LastHeld(held, ds[..|ds| - 1]))
  }

  ghost predicate Cleared(ds: seq<Decision>) {
    exists i: nat :: ClearedFrom(ds, i)
  }

  ghost predicate ClearedThenNamed(ds: seq<Decision>) {
    exists i: nat, j: nat :: i <= j && ClearedFrom(ds, i) && NamedFrom(ds, j)
  }

  lemma ClearedStays(ds: seq<Decision>, d: Decision)
    ensures d.Lifts() ==> ClearedFrom(ds + [d], |ds|)
    ensures d.tombstone.None? && Cleared(ds) ==> Cleared(ds + [d])
  {
    if d.tombstone.None? && Cleared(ds) {
      var i: nat :| ClearedFrom(ds, i);
      assert ClearedFrom(ds + [d], i);
    }
  }

  lemma ClearedBefore(ds: seq<Decision>, d: Decision, i: nat)
    requires ClearedFrom(ds + [d], i) && !d.Lifts()
    ensures d.tombstone.None? && ClearedFrom(ds, i)
  {
    var all := ds + [d];
    assert all[|ds|] == d && !d.Sets();
    assert forall k :: 0 <= k < |ds| ==> all[k] == ds[k];
  }

  lemma ClearedGrows(ds: seq<Decision>, d: Decision)
    ensures Cleared(ds + [d]) <==> d.Lifts() || (d.tombstone.None? && Cleared(ds))
  {
    ClearedStays(ds, d);
    if Cleared(ds + [d]) && !d.Lifts() {
      var i: nat :| ClearedFrom(ds + [d], i);
      ClearedBefore(ds, d, i);
    }
  }

  lemma NamedAtTheEnd(ds: seq<Decision>, d: Decision, i: nat)
    requires ClearedFrom(ds + [d], i) && d.Names()
    ensures ClearedThenNamed(ds + [d])
  {
    assert NamedFrom(ds + [d], |ds|);
  }

  lemma NamedStays(ds: seq<Decision>, d: Decision)
    requires ClearedThenNamed(ds) && !d.Sets() && !d.Renames()
    ensures ClearedThenNamed(ds + [d])
  {
    var i: nat, j: nat :| i <= j && ClearedFrom(ds, i) && NamedFrom(ds, j);
    assert ClearedFrom(ds + [d], i) && NamedFrom(ds + [d], j);
  }

  lemma NamedBefore(ds: seq<Decision>, d: Decision)
    requires ClearedThenNamed(ds + [d])
    ensures !d.Sets() && !d.Renames()
    ensures d.lifecycle.None? ==> ClearedThenNamed(ds)
  {
    var all := ds + [d];
    var i: nat, j: nat :| i <= j && ClearedFrom(all, i) && NamedFrom(all, j);
    assert all[|ds|] == d;
    if d.lifecycle.None? {
      assert forall k :: 0 <= k < |ds| ==> all[k] == ds[k];
      assert ClearedFrom(ds, i) && NamedFrom(ds, j);
    }
  }

  /** From a tombstoned state: the tombstone is off exactly when cleared for good, and the lifecycle
      is then discoverable exactly when named at or after that point and not renamed. */
  lemma {:induction false} MarksAfter(m: Marks, ds: seq<Decision>)
    requires m.tombstone && m.lifecycle == REMOVED
    ensures var t := DecidedAll(m, ds);
            && (!t.tombstone <==> Cleared(ds))
            && (!t.tombstone && Named(t.lifecycle) <==> ClearedThenNamed(ds))
            && (t.tombstone ==> t.lifecycle == REMOVED)
            && t.held == LastHeld(m.held, ds)
  {
    if ds != [] {
      var init, d := ds[..|ds| - 1], ds[|ds| - 1];
      assert ds == init + [d];
      MarksAfter(m, init);
      ClearedGrows(init, d);
      if ClearedThenNamed(ds) {
        NamedBefore(init, d);
      }
      if ClearedThenNamed(init) && !d.Sets() && !d.Renames() {
        NamedStays(init, d);
      }
      if Cleared(ds) && d.Names() {
        var i: nat :| ClearedFrom(ds, i);
        NamedAtTheEnd(init, d, i);
      }
    }
  }

  /** Over a run, a tombstoned event ends discoverable if and only if some accepted decision clears the
      tombstone and none sets it again, that one or a later one names a discoverable lifecycle and
      none renames it, and the last accepted upsert does not hold the event back. */
  lemma Revival(s: Site, run: seq<Step>, fold: Fold, key: Key)
    requires Marked(s) && key in s.events && s.events[key].tombstone
    ensures key in After(s, run, fold).events
    ensures var ds := Decisions(s, run, fold, key);
            After(s, run, fold).events[key].Discoverable() <==>
              ClearedThenNamed(ds) && !LastHeld(s.events[key].held, ds)
  {
    RunDecides(s, run, fold, key);
    MarksAfter(MarksOf(s.events[key]), Decisions(s, run, fold, key));
  }

  /** A late record, marker or refused snapshot decides nothing, so it never takes part. */
  lemma LateDecidesNothing(s: Site, step: Step, fold: Fold, key: Key)
    requires Marked(s) && key in s.events && key.source == SCRAPER
    ensures Decides(s, step, fold, key) == [] ==> Next(s, step, fold).events[key] == s.events[key]
    ensures step.Upsert? && step.key == key ==>
        (Decides(s, step, fold, key) == [] <==> Older(step.raw.Observed(), s.events[key].Observed()))
  {
  }

  /** One upsert doing both is not needed: the first clears the tombstone, the second, silent about
      tombstones, names the lifecycle. */
  lemma RevivalInTwoSteps(fold: Fold, key: Key)
    ensures var clear := Raw("", None, Some(false), false, "", "", "", "", None, None, None);
            var name := Raw("", Some(SCHEDULED), None, false, "", "", "", "", None, None, None);
            var s := Site(map[key := NOTHING.(tombstone := true, lifecycle := REMOVED)], []);
            var t := Next(Next(s, Upsert(key, clear), fold), Upsert(key, name), fold);
            && Marked(s) && !Names(Upsert(key, clear), key) && !Clears(Upsert(key, name), key, None)
            && key in t.events && t.events[key].Discoverable()
  {
  }

  // ----- Snapshots -----

  /** A live row of the scraper in this pack and city (spelled in any case) that the snapshot lacks. */
  predicate Missing(key: Key, e: Event, snap: Snapshot, fold: Fold) {
    && key.source == SCRAPER && !e.tombstone && e.pack == snap.pack && fold(e.city) == fold(snap.city)
    && key.id !in snap.seen
  }

  /** A snapshot is refused exactly when, without rollback approval, the first completion recorded for its
      scope is later, or as late and of another snapshot. */
  lemma RefusedIff(s: Site, snap: Snapshot, rollback: bool, fold: Fold)
    ensures var first := FirstState(s.states, snap.pack, snap.city, fold);
            Accepted(s, snap, rollback, fold) <==>
              !(!rollback && first.Some?
                && (snap.at < first.value.at || (snap.at == first.value.at && snap.id != first.value.snapshot)))
    ensures !Accepted(s, snap, rollback, fold) ==> Reconciled(s, snap, rollback, fold) == s
  {
  }

  /** An accepted snapshot retracts exactly the live rows of its scope it lacks, in its own name, and changes
      no other row: not those it contains, not those already retracted, not those outside the scope. */
  lemma ReconcileIsExact(s: Site, snap: Snapshot, rollback: bool, fold: Fold, key: Key)
    requires Accepted(s, snap, rollback, fold) && key in s.events
    ensures var e, t := s.events[key], Reconciled(s, snap, rollback, fold).events;
            && t.Keys == s.events.Keys
            && !Missing(key, t[key], snap, fold)
            && (!Missing(key, e, snap, fold) ==> t[key] == e)
            && (Missing(key, e, snap, fold) ==>
                  && t[key].tombstone && t[key].lifecycle == REMOVED
                  && t[key].snapshot == snap.id && t[key].release == snap.release && t[key].snapshotAt == Some(snap.at)
                  && t[key].body == e.body && t[key].held == e.held && t[key].pack == e.pack && t[key].city == e.city
                  && t[key].lastSeen == e.lastSeen && t[key].updated == e.updated)
  {
  }

  lemma {:induction false} FirstAfterCompletion(states: seq<SyncState>, snap: Snapshot, pack: string, city: string,
      fold: Fold)
    ensures var first, next := FirstState(states, pack, city, fold),
        FirstState(Completed(states, snap), pack, city, fold);
            next == if pack == snap.pack && fold(city) == fold(snap.city)
              && (first.None? || first.value.city == snap.city)
                    then Some(SyncState(snap.pack, snap.city, snap.id, snap.release, snap.at)) else first
  {
    var done := SyncState(snap.pack, snap.city, snap.id, snap.release, snap.at);
    if states == [] {
      assert Completed(states, snap)[1..] == [];
    } else if states[0].pack == snap.pack && states[0].city == snap.city {
      assert ([done] + states[1..])[1..] == states[1..];
    } else {
      FirstAfterCompletion(states[1..], snap, pack, city, fold);
      assert ([states[0]] + Completed(states[1..], snap))[1..] == Completed(states[1..], snap);
    }
  }

  lemma {:induction false} CompletedTwice(states: seq<SyncState>, snap: Snapshot)
    ensures Completed(Completed(states, snap), snap) == Completed(states, snap)
  {
    if states != [] && !(states[0].pack == snap.pack && states[0].city == snap.city) {
      CompletedTwice(states[1..], snap);
      assert Completed(states, snap)[1..] == Completed(states[1..], snap);
    } else {
      assert Completed(states, snap)[0].pack == snap.pack;
    }
  }

  /** Replaying an accepted snapshot is accepted again, retracts nothing and changes nothing. */
  lemma ReplayIsIdle(s: Site, snap: Snapshot, rollback: bool, fold: Fold)
    requires Accepted(s, snap, rollback, fold)
    ensures var t := Reconciled(s, snap, rollback, fold);
            && Accepted(t, snap, rollback, fold) && Absent(t.events, snap, fold) == {}
            && Reconciled(t, snap, rollback, fold) == t
  {
    var t := Reconciled(s, snap, rollback, fold);
    FirstAfterCompletion(s.states, snap, snap.pack, snap.city, fold);
    CompletedTwice(s.states, snap);
    assert Absent(t.events, snap, fold) == {};
    assert Reconciled(t, snap, rollback, fold).events == t.events;
  }

  predicate FirstIsLatest(states: seq<SyncState>, pack: string, city: string, fold: Fold) {
    var first := FirstState(states, pack, city, fold);
    forall i :: 0 <= i < |states| && SameScope(states[i], pack, city, fold) ==>
      first.Some? && states[i].at <= first.value.at
  }

  /** The order check sees only the first row of a scope. It keeps out every snapshot older than a
      completed one exactly when that row is the latest of its scope. */
  lemma OrderCheckIsSound(states: seq<SyncState>, pack: string, city: string, fold: Fold)
    ensures FirstIsLatest(states, pack, city, fold)
       <==> forall id, at :: InOrder(FirstState(states, pack, city, fold), id, at) ==>
              forall i :: 0 <= i < |states| && SameScope(states[i], pack, city, fold) ==> states[i].at <= at
  {
    FirstIsThere(states, pack, city, fold);
    var first := FirstState(states, pack, city, fold);
    if first.Some? {
      assert InOrder(first, first.value.snapshot, first.value.at);
    }
  }

  lemma {:induction false} FirstIsThere(states: seq<SyncState>, pack: string, city: string, fold: Fold)
    ensures FirstState(states, pack, city, fold).None? ==>
              forall i :: 0 <= i < |states| ==> !SameScope(states[i], pack, city, fold)
    ensures FirstState(states, pack, city, fold).Some? ==>
              SameScope(FirstState(states, pack, city, fold).value, pack, city, fold)
                && FirstState(states, pack, city, fold).value in states
  {
    if states != [] {
      FirstIsThere(states[1..], pack, city, fold);
      assert forall i :: 1 <= i < |states| ==> states[i] == states[1..][i - 1];
    }
  }

  predicate Concerns(step: Step, pack: string, city: string, fold: Fold) {
    step.Reconcile? && step.snap.pack == pack && fold(step.snap.city) == fold(city)
  }

  /** The scope's snapshots use one spelling and no rollback approval. */
  predicate SpelledAs(run: seq<Step>, pack: string, city: string, fold: Fold) {
    forall i :: 0 <= i < |run| && Concerns(run[i], pack, city, fold) ==> !run[i].rollback && run[i].snap.city == city
  }

  ghost predicate OneRow(states: seq<SyncState>, pack: string, city: string, fold: Fold) {
    var first := FirstState(states, pack, city, fold);
    first.Some? ==> first.value.city == city
  }

  /** Without rollback approval for it, and with one spelling of its city, the completed time of a scope
      never goes back over any run, and a scope once completed stays so. */
  lemma {:induction false} CompletedTimeIsMonotone(s: Site, run: seq<Step>, fold: Fold, pack: string, city: string)
    requires SpelledAs(run, pack, city, fold) && OneRow(s.states, pack, city, fold)
    ensures var a, b := FirstState(s.states, pack, city, fold),
        FirstState(After(s, run, fold).states, pack, city, fold);
            OneRow(After(s, run, fold).states, pack, city, fold) && (a.Some? ==> b.Some? && a.value.at <= b.value.at)
    decreases |run|
  {
    if run != [] {
      assert forall i :: 0 <= i < |run[1..]| ==> run[1..][i] == run[i + 1];
      if run[0].Reconcile? {
        FirstAfterCompletion(s.states, run[0].snap, pack, city, fold);
        if run[0].snap.pack == pack && fold(run[0].snap.city) == fold(city) {
          assert run[0].snap.city == city && !run[0].rollback;
        }
      }
      CompletedTimeIsMonotone(Next(s, run[0], fold), run[1..], fold, pack, city);
    }
  }

  /** With two spellings the guard lets an older snapshot through after a newer one. */
  lemma TwoSpellingsGoBack(fold: Fold, a: string, b: string)
    requires a != b && fold(a) == fold(b)
    ensures var first, newer, older := Snapshot("p", a, "1", "", 10, {}), Snapshot("p", b, "2", "", 20, {}),
        Snapshot("p", a, "3", "", 15, {});
            var s0 := Site(map[], []);
            var s1 := Reconciled(s0, first, false, fold);
            var s2 := Reconciled(s1, newer, false, fold);
            && Accepted(s0, first, false, fold) && Accepted(s1, newer, false, fold) && Accepted(s2, older, false, fold)
            && !FirstIsLatest(s2.states, "p", a, fold)
  {
    var first, newer := Snapshot("p", a, "1", "", 10, {}), Snapshot("p", b, "2", "", 20, {});
    var r1, r2 := SyncState("p", a, "1", "", 10), SyncState("p", b, "2", "", 20);
    assert Completed([], first) == [r1];
    assert [r1][1..] == [] && Completed([], newer) == [r2];
    assert Completed([r1], newer) == [r1, r2];
    assert [r1, r2][1] == r2 && SameScope(r2, "p", a, fold);
  }
}
