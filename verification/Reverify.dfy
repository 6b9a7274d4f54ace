/** The sweep over minors whose age proof is lapsing: a reminder before, an eviction after, capped
    per tick. */
module Reverify {
  import opened Options

  type ProofId = nat

  datatype Notice = NONE | SOON | EXPIRED

  datatype Proof = Proof(expires: Option<int>, notice: Notice)

  datatype Sent = Nudge(proof: ProofId) | Evict(proof: ProofId)

  datatype Config = Config(reminder: int, cap: int)

  /** All proofs, and every reminder and eviction so far. */
  datatype State = State(proofs: map<ProofId, Proof>, sent: seq<Sent>)

  datatype Tally = Tally(nudged: nat, paused: nat, newlyExpired: nat)

  predicate Lapsed(p: Proof, now: int) {
    p.expires.Some? && p.expires.value <= now
  }

  /** Lapsed and not yet evicted for it. */
  predicate Waiting(p: Proof, now: int) {
    Lapsed(p, now) && p.notice != EXPIRED
  }

  predicate DueSoon(p: Proof, cfg: Config, now: int) {
    p.expires.Some? && now < p.expires.value <= now + cfg.reminder && p.notice == NONE
  }

  /** The visit of one minor, whose latest proof is `latest`; `fails` if its transaction raises. */
  function Visited(s: State, t: Tally, cfg: Config, now: int, latest: Option<ProofId>, fails: bool): (State, Tally) {
    if latest.None? || latest.value !in s.proofs then (s, t)
    else
      var id, p := latest.value, s.proofs[latest.value];
      if Waiting(p, now) then
        var counted := t.(newlyExpired := t.newlyExpired + 1);
        if t.paused >= cfg.cap || fails then (s, counted)
        else (State(s.proofs[id := p.(notice := EXPIRED)], s.sent + [Evict(id)]), counted.(paused := t.paused + 1))
      else if DueSoon(p, cfg, now) && !fails then
        (State(s.proofs[id := p.(notice := SOON)], s.sent + [Nudge(id)]), t.(nudged := t.nudged + 1))
      else (s, t)
  }

  /** One tick over the minors in order; `fails(i)` is whether the i-th one raises. */
  datatype Tick = Tick(now: int, latest: seq<Option<ProofId>>, fails: nat -> bool)

  /** The tick after its first `n` visits. */
  function Swept(s: State, cfg: Config, tick: Tick, n: nat): (State, Tally)
    requires n <= |tick.latest|
  {
    if n == 0 then (s, Tally(0, 0, 0))
    else
      var (before, t) := Swept(s, cfg, tick, n - 1);
      Visited(before, t, cfg, tick.now, tick.latest[n - 1], tick.fails(n - 1))
  }

  class Sweeper {
    const cfg: Config
    var proofs: map<ProofId, Proof>
    var sent: seq<Sent>

    ghost function Snapshot(): State
      reads this
    {
      State(proofs, sent)
    }

    /** `alarm` tells a human that more proofs lapsed since the last tick than one tick may evict. */
    method RunReverifySweep(tick: Tick) returns (t: Tally, alarm: bool)
      modifies this
      ensures (Snapshot(), t) == Swept(old(Snapshot()), cfg, tick, |tick.latest|)
      ensures alarm <==> t.newlyExpired > cfg.cap
    {
      var nudged, paused, newlyExpired := 0, 0, 0;
      for i := 0 to |tick.latest|
        invariant nudged >= 0 && paused >= 0 && newlyExpired >= 0
        invariant (Snapshot(), Tally(nudged, paused, newlyExpired)) == Swept(old(Snapshot()), cfg, tick, i)
      {
        var latest := tick.latest[i];
        if latest.None? || latest.value !in proofs || proofs[latest.value].expires.None? {
          continue;
        }
        var id, p := latest.value, proofs[latest.value];
        if p.expires.value <= tick.now {
          if p.notice == EXPIRED {
            continue;
          }
          newlyExpired := newlyExpired + 1;
          if paused >= cfg.cap {
            continue;
          }
          if !tick.fails(i) {
            proofs := proofs[id := p.(notice := EXPIRED)];
            sent := sent + [Evict(id)];
            paused := paused + 1;
          }
        } else if p.expires.value <= tick.now + cfg.reminder {
          if p.notice == NONE && !tick.fails(i) {
            sent := sent + [Nudge(id)];
            proofs := proofs[id := p.(notice := SOON)];
            nudged := nudged + 1;
          }
        }
      }
      t := Tally(nudged, paused, newlyExpired);
      alarm := newlyExpired > cfg.cap;
    }
  }

  // ----- At most once per proof, whatever the clock does -----

  function Times(sent: seq<Sent>, e: Sent): nat {
    if sent == [] then 0 else Times(sent[..|sent| - 1], e) + if sent[|sent| - 1] == e then 1 else 0
  }

  lemma TimesGrows(sent: seq<Sent>, x: Sent, e: Sent)
    ensures Times(sent + [x], e) == Times(sent, e) + if x == e then 1 else 0
  {
    assert (sent + [x])[..|sent|] == sent;
  }

  /** The marker on a proof tells exactly what was sent about it. */
  ghost predicate ProofOk(s: State, id: ProofId) {
    && Times(s.sent, Evict(id)) == (if id in s.proofs && s.proofs[id].notice == EXPIRED then 1 else 0)
    && Times(s.sent, Nudge(id)) <= (if id in s.proofs && s.proofs[id].notice != NONE then 1 else 0)
  }

  ghost predicate Inv(s: State) {
    forall id :: ProofOk(s, id)
  }

  lemma MarkingKeeps(s: State, id: ProofId, p: Proof, x: Sent, other: ProofId)
    requires ProofOk(s, other) && id in s.proofs && x.proof == id && p.notice == (if x.Evict? then EXPIRED else SOON)
    requires s.proofs[id].notice != EXPIRED && (x.Nudge? ==> s.proofs[id].notice == NONE)
    ensures ProofOk(State(s.proofs[id := p], s.sent + [x]), other)
  {
    TimesGrows(s.sent, x, Evict(other));
    TimesGrows(s.sent, x, Nudge(other));
  }

  lemma VisitKeepsInv(s: State, t: Tally, cfg: Config, now: int, latest: Option<ProofId>, fails: bool)
    requires Inv(s)
    ensures Inv(Visited(s, t, cfg, now, latest, fails).0)
    ensures Visited(s, t, cfg, now, latest, fails).0.proofs.Keys == s.proofs.Keys
  {
    var after := Visited(s, t, cfg, now, latest, fails).0;
    if after != s {
      var id, x := latest.value, after.sent[|s.sent|];
      forall other ensures ProofOk(after, other) {
        assert ProofOk(s, other);
        MarkingKeeps(s, id, after.proofs[id], x, other);
      }
    }
  }

  lemma {:induction false} TickKeepsInv(s: State, cfg: Config, tick: Tick, n: nat)
    requires Inv(s) && n <= |tick.latest|
    ensures Inv(Swept(s, cfg, tick, n).0) && Swept(s, cfg, tick, n).0.proofs.Keys == s.proofs.Keys
  {
    if n > 0 {
      TickKeepsInv(s, cfg, tick, n - 1);
      var (before, t) := Swept(s, cfg, tick, n - 1);
      VisitKeepsInv(before, t, cfg, tick.now, tick.latest[n - 1], tick.fails(n - 1));
    }
  }

  /** A tick, or a minor verifying again, which stores a new proof. */
  datatype Event = Sweep(tick: Tick) | Verify(id: ProofId, expires: Option<int>)

  function Next(s: State, cfg: Config, e: Event): State {
    match e
    case Sweep(tick) => Swept(s, cfg, tick, |tick.latest|).0
    case Verify(id, expires) => if id in s.proofs then s else s.(proofs := s.proofs[id := Proof(expires, NONE)])
  }

  function After(s: State, cfg: Config, run: seq<Event>): State
    decreases |run|
  {
    if run == [] then s else After(Next(s, cfg, run[0]), cfg, run[1..])
  }

  lemma {:induction false} RunKeepsInv(s: State, cfg: Config, run: seq<Event>)
    requires Inv(s)
    ensures Inv(After(s, cfg, run))
    decreases |run|
  {
    if run != [] {
      if run[0].Sweep? {
        TickKeepsInv(s, cfg, run[0].tick, |run[0].tick.latest|);
      } else {
        forall id ensures ProofOk(Next(s, cfg, run[0]), id) {
          assert ProofOk(s, id);
        }
      }
      RunKeepsInv(Next(s, cfg, run[0]), cfg, run[1..]);
    }
  }

  /** Over any run of ticks with any clock readings, errors and new proofs, each proof gets at most
      one reminder and at most one eviction. */
  lemma AtMostOncePerProof(cfg: Config, run: seq<Event>, id: ProofId)
    ensures var sent := After(State(map[], []), cfg, run).sent;
        Times(sent, Nudge(id)) <= 1 && Times(sent, Evict(id)) <= 1
  {
    RunKeepsInv(State(map[], []), cfg, run);
    assert ProofOk(After(State(map[], []), cfg, run), id);
  }

  /** The proof lapsed at or before `now` and nobody was evicted for it. */
  predicate Overdue(p: Proof, now: int) {
    p.expires.Some? && p.expires.value <= now && p.notice in {NONE, SOON}
  }

  /** The proof is to lapse within the reminder window and nothing was sent about it. */
  predicate Lapsing(p: Proof, cfg: Config, now: int) {
    p.expires.Some? && now < p.expires.value && p.expires.value - now <= cfg.reminder && p.notice == NONE
  }

  /** Verifying again starts over: the new proof is unmarked, so it is due exactly by its own expiry. */
  lemma NewProofStartsOver(s: State, cfg: Config, id: ProofId, expires: Option<int>, now: int)
    requires id !in s.proofs
    ensures var t := Next(s, cfg, Verify(id, expires));
            && t.proofs.Keys == s.proofs.Keys + {id} && t.sent == s.sent
            && (forall other :: other in s.proofs ==> t.proofs[other] == s.proofs[other])
            && (Overdue(t.proofs[id], now) <==> expires.Some? && expires.value <= now)
            && (Lapsing(t.proofs[id], cfg, now) <==> expires.Some? && now < expires.value <= now + cfg.reminder)
  {
  }

  // ----- The cap and the drain -----

  function Evictions(sent: seq<Sent>): nat {
    if sent == [] then 0 else Evictions(sent[..|sent| - 1]) + if sent[|sent| - 1].Evict? then 1 else 0
  }

  lemma {:induction false} TickAppends(s: State, cfg: Config, tick: Tick, n: nat)
    requires n <= |tick.latest|
    ensures var (after, t) := Swept(s, cfg, tick, n);
            && |s.sent| <= |after.sent| && after.sent[..|s.sent|] == s.sent
            && Evictions(after.sent[|s.sent|..]) == t.paused <= (if cfg.cap > 0 then cfg.cap else 0)
            && |after.sent| - |s.sent| == t.paused + t.nudged && t.paused <= t.newlyExpired
  {
    if n > 0 {
      TickAppends(s, cfg, tick, n - 1);
      var (before, t) := Swept(s, cfg, tick, n - 1);
      var (after, u) := Swept(s, cfg, tick, n);
      if after.sent != before.sent {
        var x := after.sent[|before.sent|];
        assert after.sent[|s.sent|..] == before.sent[|s.sent|..] + [x];
        assert (before.sent[|s.sent|..] + [x])[..|before.sent| - |s.sent|] == before.sent[|s.sent|..];
      }
    }
  }

  /** How many of the first `n` minors wait for their eviction. */
  function Backlog(proofs: map<ProofId, Proof>, latest: seq<Option<ProofId>>, now: int, n: nat): nat
    requires n <= |latest|
  {
    if n == 0 then 0
    else
      Backlog(proofs, latest, now, n - 1)
      + if latest[n - 1].Some? && latest[n - 1].value in proofs
        && Overdue(proofs[latest[n - 1].value], now) then 1 else 0
  }

  /** Each minor has its own latest proof. */
  predicate Distinct(latest: seq<Option<ProofId>>) {
    forall i, j :: 0 <= i < j < |latest| && latest[i].Some? ==> latest[i] != latest[j]
  }

  function Min(a: int, b: int): int {
    if a <= b then a else b
  }

  /** Proofs not visited yet are untouched. */
  lemma {:induction false} UnvisitedIsUntouched(s: State, cfg: Config, tick: Tick, n: nat, k: nat)
    requires n <= k < |tick.latest| && Distinct(tick.latest) && tick.latest[k].Some?
    ensures var id := tick.latest[k].value; var after := Swept(s, cfg, tick, n).0.proofs;
            (id in after <==> id in s.proofs) && (id in s.proofs ==> after[id] == s.proofs[id])
  {
    if n > 0 {
      UnvisitedIsUntouched(s, cfg, tick, n - 1, k);
    }
  }

  /** A tick counts the whole backlog it finds, evicts as much of it as the cap allows when nothing
      raises, and what is left is the difference. */
  lemma {:induction false} TickDrains(s: State, cfg: Config, tick: Tick, n: nat)
    requires n <= |tick.latest| && Distinct(tick.latest) && cfg.cap >= 0 && forall i :: 0 <= i < n ==> !tick.fails(i)
    ensures var (after, t) := Swept(s, cfg, tick, n);
            && t.newlyExpired == Backlog(s.proofs, tick.latest, tick.now, n)
            && t.paused == Min(t.newlyExpired, cfg.cap)
            && Backlog(after.proofs, tick.latest, tick.now, n) == t.newlyExpired - t.paused
  {
    if n > 0 {
      TickDrains(s, cfg, tick, n - 1);
      var (before, t) := Swept(s, cfg, tick, n - 1);
      var (after, u) := Swept(s, cfg, tick, n);
      if tick.latest[n - 1].Some? {
        UnvisitedIsUntouched(s, cfg, tick, n - 1, n - 1);
      }
      SameBacklog(before.proofs, after.proofs, tick.latest, tick.now, tick.now, n - 1);
    }
  }

  /** The backlog depends only on whether each proof waits. */
  lemma {:induction false} SameBacklog(a: map<ProofId, Proof>, b: map<ProofId, Proof>, latest: seq<Option<ProofId>>,
      now: int, later: int, n: nat)
    requires n <= |latest|
    requires forall i :: 0 <= i < n && latest[i].Some? ==>
               ((latest[i].value in a && Overdue(a[latest[i].value], now)) <==>
                 (latest[i].value in b && Overdue(b[latest[i].value], later)))
    ensures Backlog(a, latest, now, n) == Backlog(b, latest, later, n)
  {
    if n > 0 {
      SameBacklog(a, b, latest, now, later, n - 1);
    }
  }

  /** `id` is the latest proof of one of the first `n` minors and due a reminder. */
  ghost predicate IsReminded(proofs: map<ProofId, Proof>, cfg: Config, tick: Tick, n: nat, id: ProofId)
    requires n <= |tick.latest|
  {
    id in proofs && Lapsing(proofs[id], cfg, tick.now) && exists i :: 0 <= i < n && tick.latest[i] == Some(id)
  }

  lemma VisitReminds(s: State, t: Tally, cfg: Config, now: int, latest: Option<ProofId>, id: ProofId)
    ensures var after := Visited(s, t, cfg, now, latest, false).0;
            Times(after.sent, Nudge(id)) - Times(s.sent, Nudge(id))
            == if latest == Some(id) && id in s.proofs && Lapsing(s.proofs[id], cfg, now) then 1 else 0
  {
    if latest.Some? {
      TimesGrows(s.sent, Evict(latest.value), Nudge(id));
      TimesGrows(s.sent, Nudge(latest.value), Nudge(id));
    }
  }

  lemma RemindedOnce(proofs: map<ProofId, Proof>, cfg: Config, tick: Tick, n: nat, id: ProofId)
    requires n < |tick.latest| && Distinct(tick.latest)
    ensures tick.latest[n] == Some(id) ==> !IsReminded(proofs, cfg, tick, n, id)
    ensures IsReminded(proofs, cfg, tick, n + 1, id)
       <==> IsReminded(proofs, cfg, tick, n, id)
            || (tick.latest[n] == Some(id) && id in proofs && Lapsing(proofs[id], cfg, tick.now))
  {
    assert tick.latest[n].Some? ==> forall i :: 0 <= i < n ==> tick.latest[i] != tick.latest[n];
  }

  /** A tick in which nothing raises reminds, once each, exactly those who are due, whatever the cap. */
  lemma {:induction false} TickReminds(s: State, cfg: Config, tick: Tick, n: nat, id: ProofId)
    requires n <= |tick.latest| && Distinct(tick.latest) && forall i :: 0 <= i < n ==> !tick.fails(i)
    ensures Times(Swept(s, cfg, tick, n).0.sent, Nudge(id)) - Times(s.sent, Nudge(id))
         == if IsReminded(s.proofs, cfg, tick, n, id) then 1 else 0
  {
    if n > 0 {
      var (before, t) := Swept(s, cfg, tick, n - 1);
      TickReminds(s, cfg, tick, n - 1, id);
      RemindedOnce(s.proofs, cfg, tick, n - 1, id);
      VisitReminds(before, t, cfg, tick.now, tick.latest[n - 1], id);
      if tick.latest[n - 1] == Some(id) {
        UnvisitedIsUntouched(s, cfg, tick, n - 1, n - 1);
      }
    }
  }

  /** `id` is the latest proof of one of the first `n` minors, overdue, and one of the first `cap` such. */
  ghost predicate IsEvicted(proofs: map<ProofId, Proof>, cfg: Config, tick: Tick, n: nat, id: ProofId)
    requires n <= |tick.latest|
  {
    && id in proofs && Overdue(proofs[id], tick.now)
    && exists i :: 0 <= i < n && tick.latest[i] == Some(id) && Backlog(proofs, tick.latest, tick.now, i) < cfg.cap
  }

  lemma VisitEvicts(s: State, t: Tally, cfg: Config, now: int, latest: Option<ProofId>, id: ProofId)
    ensures var after := Visited(s, t, cfg, now, latest, false).0;
            Times(after.sent, Evict(id)) - Times(s.sent, Evict(id))
            == if latest == Some(id) && id in s.proofs && Overdue(s.proofs[id], now) && t.paused < cfg.cap then 1 else 0
  {
    if latest.Some? {
      TimesGrows(s.sent, Evict(latest.value), Evict(id));
      TimesGrows(s.sent, Nudge(latest.value), Evict(id));
    }
  }

  lemma EvictedOnce(proofs: map<ProofId, Proof>, cfg: Config, tick: Tick, n: nat, id: ProofId)
    requires n < |tick.latest| && Distinct(tick.latest)
    ensures tick.latest[n] == Some(id) ==> !IsEvicted(proofs, cfg, tick, n, id)
    ensures IsEvicted(proofs, cfg, tick, n + 1, id)
       <==> IsEvicted(proofs, cfg, tick, n, id)
            || (tick.latest[n] == Some(id) && id in proofs && Overdue(proofs[id], tick.now)
                && Backlog(proofs, tick.latest, tick.now, n) < cfg.cap)
  {
    assert tick.latest[n].Some? ==> forall i :: 0 <= i < n ==> tick.latest[i] != tick.latest[n];
  }

  lemma LastVisitEvicts(s: State, cfg: Config, tick: Tick, n: nat, id: ProofId)
    requires n < |tick.latest| && Distinct(tick.latest) && cfg.cap >= 0 && forall i :: 0 <= i <= n ==> !tick.fails(i)
    ensures Times(Swept(s, cfg, tick, n + 1).0.sent, Evict(id)) - Times(Swept(s, cfg, tick, n).0.sent, Evict(id))
         == if tick.latest[n] == Some(id) && id in s.proofs && Overdue(s.proofs[id], tick.now)
               && Backlog(s.proofs, tick.latest, tick.now, n) < cfg.cap then 1 else 0
  {
    var (before, t) := Swept(s, cfg, tick, n);
    TickDrains(s, cfg, tick, n);
    VisitEvicts(before, t, cfg, tick.now, tick.latest[n], id);
    if tick.latest[n] == Some(id) {
      UnvisitedIsUntouched(s, cfg, tick, n, n);
    }
  }

  /** A tick in which nothing raises evicts, once each, exactly the first overdue minors up to the cap. */
  lemma {:induction false} TickEvicts(s: State, cfg: Config, tick: Tick, n: nat, id: ProofId)
    requires n <= |tick.latest| && Distinct(tick.latest) && cfg.cap >= 0 && forall i :: 0 <= i < n ==> !tick.fails(i)
    ensures Times(Swept(s, cfg, tick, n).0.sent, Evict(id)) - Times(s.sent, Evict(id))
         == if IsEvicted(s.proofs, cfg, tick, n, id) then 1 else 0
  {
    if n > 0 {
      TickEvicts(s, cfg, tick, n - 1, id);
      EvictedOnce(s.proofs, cfg, tick, n - 1, id);
      LastVisitEvicts(s, cfg, tick, n - 1, id);
    }
  }

  /** A visit that raises changes nothing, and is still counted when its proof is overdue. */
  lemma FailingVisit(s: State, t: Tally, cfg: Config, now: int, latest: Option<ProofId>)
    ensures var (after, u) := Visited(s, t, cfg, now, latest, true);
            && after == s && u.paused == t.paused && u.nudged == t.nudged
            && u.newlyExpired == t.newlyExpired
               + if latest.Some? && latest.value in s.proofs && Overdue(s.proofs[latest.value], now) then 1 else 0
  {
  }

  lemma {:induction false} TickKeepsExpiry(s: State, cfg: Config, tick: Tick, n: nat, id: ProofId)
    requires n <= |tick.latest|
    ensures var after := Swept(s, cfg, tick, n).0.proofs;
            (id in after <==> id in s.proofs) && (id in s.proofs ==> after[id].expires == s.proofs[id].expires)
  {
    if n > 0 {
      TickKeepsExpiry(s, cfg, tick, n - 1, id);
    }
  }

  /** Ticks over the same minors, none of which raises or lapses or recovers in between. */
  ghost predicate FixedBacklog(s: State, latest: seq<Option<ProofId>>, ticks: seq<Tick>, now: int) {
    && Distinct(latest)
    && (forall i :: 0 <= i < |ticks| ==> ticks[i].latest == latest)
    && (forall i, k: nat :: 0 <= i < |ticks| && k < |latest| ==> !ticks[i].fails(k))
    && (forall i, id :: 0 <= i < |ticks| && id in s.proofs ==>
       (Lapsed(s.proofs[id], ticks[i].now) <==> Lapsed(s.proofs[id], now)))
  }

  function Ticked(s: State, cfg: Config, ticks: seq<Tick>): State
    decreases |ticks|
  {
    if ticks == [] then s else Ticked(Next(s, cfg, Sweep(ticks[0])), cfg, ticks[1..])
  }

  function Left(n: int, cap: int, k: nat): int
    decreases k
  {
    if k == 0 then n else Left(n - Min(n, cap), cap, k - 1)
  }

  lemma {:induction false} Drains(s: State, cfg: Config, latest: seq<Option<ProofId>>, ticks: seq<Tick>, now: int)
    requires cfg.cap >= 0 && FixedBacklog(s, latest, ticks, now)
    ensures Backlog(Ticked(s, cfg, ticks).proofs, latest, now, |latest|)
         == Left(Backlog(s.proofs, latest, now, |latest|), cfg.cap, |ticks|)
    decreases |ticks|
  {
    if ticks != [] {
      var n, tick := |latest|, ticks[0];
      var after := Next(s, cfg, Sweep(tick));
      forall id ensures id in after.proofs <==> id in s.proofs
        ensures id in s.proofs ==> after.proofs[id].expires == s.proofs[id].expires
      {
        TickKeepsExpiry(s, cfg, tick, n, id);
      }
      assert forall id :: id in s.proofs ==> (Lapsed(s.proofs[id], tick.now) <==> Lapsed(s.proofs[id], now));
      TickDrains(s, cfg, tick, n);
      SameBacklog(s.proofs, s.proofs, latest, tick.now, now, n);
      SameBacklog(after.proofs, after.proofs, latest, tick.now, now, n);
      assert forall i :: 0 <= i < |ticks[1..]| ==> ticks[1..][i] == ticks[i + 1];
      Drains(after, cfg, latest, ticks[1..], now);
    }
  }

  lemma Split(cap: int, k: nat)
    requires k > 0
    ensures k * cap == cap + (k - 1) * cap
  {
  }

  lemma {:induction false} LeftIs(n: int, cap: int, k: nat)
    requires 0 <= n && 0 <= cap
    ensures 0 <= k * cap && Left(n, cap, k) == n - Min(n, k * cap)
    decreases k
  {
    if k > 0 {
      LeftIs(n - Min(n, cap), cap, k - 1);
      Split(cap, k);
    }
  }

  lemma Scale(a: int, b: int, cap: int)
    requires a <= b && 1 <= cap
    ensures a * cap <= b * cap
  {
  }

  lemma ByQuotient(n: int, cap: int, k: int, q: int, r: int)
    requires 1 <= cap && 0 <= r < cap && n + cap - 1 == q * cap + r
    ensures n <= k * cap <==> q <= k
  {
    if q <= k {
      Scale(q, k, cap);
    } else {
      Scale(k + 1, q, cap);
      assert (k + 1) * cap == k * cap + cap;
    }
  }

  lemma Ceiling(n: int, cap: int, k: int)
    requires 0 <= n && 1 <= cap
    ensures n <= k * cap <==> (n + cap - 1) / cap <= k
  {
    var m := n + cap - 1;
    ByQuotient(n, cap, k, m / cap, m % cap);
  }

  /** A fixed backlog is gone exactly from the ceil(backlog / cap)-th tick on. */
  lemma DrainedAfter(s: State, cfg: Config, latest: seq<Option<ProofId>>, ticks: seq<Tick>, now: int)
    requires cfg.cap >= 1 && FixedBacklog(s, latest, ticks, now)
    ensures Backlog(Ticked(s, cfg, ticks).proofs, latest, now, |latest|) == 0
       <==> |ticks| >= (Backlog(s.proofs, latest, now, |latest|) + cfg.cap - 1) / cfg.cap
  {
    var n := Backlog(s.proofs, latest, now, |latest|);
    Drains(s, cfg, latest, ticks, now);
    LeftIs(n, cfg.cap, |ticks|);
    Ceiling(n, cfg.cap, |ticks|);
  }
}
