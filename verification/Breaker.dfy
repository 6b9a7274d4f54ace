/** The per-provider circuit breaker, and every interleaving of the calls it admits. */
module Breaker {
  datatype Mode = CLOSED | OPEN | HALF_OPEN

  /** `threshold` may be anything; the other two are clamped to at least one on construction. */
  datatype Config = Config(threshold: int, cooldown: real, successThreshold: int, halfOpenMax: int) {
    ghost predicate Valid() {
      successThreshold >= 1 && halfOpenMax >= 1
    }

    /** How many failures in a row open a closed breaker. */
    function Streak(): int {
      if threshold >= 1 then threshold else 1
    }
  }

  datatype State = State(mode: Mode, failures: int, successes: int, openUntil: real, probes: int)

  const FRESH := State(CLOSED, 0, 0, 0.0, 0)

  function Opened(s: State, cfg: Config, now: real): State {
    s.(mode := OPEN, openUntil := now + cfg.cooldown, successes := 0, probes := 0)
  }

  predicate Granted(s: State, cfg: Config, now: real) {
    match s.mode
    case CLOSED => true
    case OPEN => s.openUntil <= now && 0 < cfg.halfOpenMax
    case HALF_OPEN => s.probes < cfg.halfOpenMax
  }

  function Asked(s: State, cfg: Config, now: real): State {
    if s.mode == CLOSED || (s.mode == OPEN && now < s.openUntil) then s
    else
      var half := if s.mode == OPEN then s.(mode := HALF_OPEN, successes := 0, probes := 0) else s;
      if half.probes >= cfg.halfOpenMax then half else half.(probes := half.probes + 1)
  }

  function Succeeded(s: State, cfg: Config): State {
    if s.mode != HALF_OPEN then s.(failures := 0)
    else if s.successes + 1 >= cfg.successThreshold then FRESH
    else s.(probes := if s.probes > 0 then s.probes - 1 else 0, successes := s.successes + 1)
  }

  function Failed(s: State, cfg: Config, now: real): State {
    if s.mode == HALF_OPEN then Opened(s, cfg, now)
    else
      var counted := s.(failures := s.failures + 1);
      if counted.failures >= cfg.threshold then Opened(counted, cfg, now) else counted
  }

  /** One breaker; each method is one critical section under its lock. */
  class CircuitBreaker {
    const cfg: Config
    var mode: Mode
    var failures: int
    var successes: int
    var openUntil: real
    var probes: int

    ghost function Snapshot(): State
      reads this
    {
      State(mode, failures, successes, openUntil, probes)
    }

    constructor (threshold: int, cooldown: real, successThreshold: int, halfOpenMax: int)
      ensures Snapshot() == FRESH && cfg.Valid()
      ensures cfg.threshold == threshold && cfg.cooldown == cooldown
      ensures successThreshold >= 1 ==> cfg.successThreshold == successThreshold
      ensures halfOpenMax >= 1 ==> cfg.halfOpenMax == halfOpenMax
    {
      cfg := Config(threshold, cooldown,
                    if successThreshold > 1 then successThreshold else 1,
                    if halfOpenMax > 1 then halfOpenMax else 1);
      mode, failures, successes, openUntil, probes := CLOSED, 0, 0, 0.0, 0;
    }

    method Allow(now: real) returns (granted: bool)
      modifies this
      ensures Snapshot() == Asked(old(Snapshot()), cfg, now)
      ensures granted == Granted(old(Snapshot()), cfg, now)
    {
      if mode == OPEN {
        if now < openUntil {
          return false;
        }
        mode := HALF_OPEN;
        successes := 0;
        probes := 0;
      }
      if mode == HALF_OPEN {
        if probes >= cfg.halfOpenMax {
          return false;
        }
        probes := probes + 1;
        return true;
      }
      granted := true;
    }

    method RecordSuccess()
      modifies this
      ensures Snapshot() == Succeeded(old(Snapshot()), cfg)
    {
      if mode == HALF_OPEN {
        probes := if probes - 1 > 0 then probes - 1 else 0;
        successes := successes + 1;
        if successes >= cfg.successThreshold {
          Reset();
        }
      } else {
        failures := 0;
      }
    }

    method RecordFailure(now: real)
      modifies this
      ensures Snapshot() == Failed(old(Snapshot()), cfg, now)
    {
      if mode == HALF_OPEN {
        probes := if probes - 1 > 0 then probes - 1 else 0;
        Open(now);
      } else {
        failures := failures + 1;
        if failures >= cfg.threshold {
          Open(now);
        }
      }
    }

    method Open(now: real)
      modifies this
      ensures Snapshot() == Opened(old(Snapshot()), cfg, now)
    {
      mode := OPEN;
      openUntil := now + cfg.cooldown;
      successes := 0;
      probes := 0;
    }

    method Reset()
      modifies this
      ensures Snapshot() == FRESH
    {
      mode := CLOSED;
      failures := 0;
      successes := 0;
      probes := 0;
      openUntil := 0.0;
    }
  }

  // ----- Every interleaving -----

  /** A call is a number, given out when it is granted; every result names the call it belongs to. */
  datatype Event = Ask(now: real) | Success(call: nat) | Failure(call: nat, now: real) | Clear

  /** `pending` calls are granted and unrecorded; `episode` holds the calls granted since the
      breaker became half-open; `clock` is the latest reading of the monotonic clock. */
  datatype World = World(state: State, pending: set<nat>, episode: set<nat>, calls: nat, clock: real)

  const START := World(FRESH, {}, {}, 0, 0.0)

  /** The caller's contract: a result is recorded once, for a call that was granted. */
  predicate Allowed(w: World, e: Event) {
    match e
    case Ask(now) => w.clock <= now
    case Success(call) => call in w.pending
    case Failure(call, now) => call in w.pending && w.clock <= now
    case Clear => true
  }

  function Moved(w: World, state: State, pending: set<nat>, episode: set<nat>): World {
    w.(state := state, pending := pending, episode := if state.mode == HALF_OPEN then episode else {})
  }

  function Next(w: World, cfg: Config, e: Event): World {
    match e
    case Ask(now) =>
      var state := Asked(w.state, cfg, now);
      if Granted(w.state, cfg, now) then
        Moved(w, state, w.pending + {w.calls}, w.episode + {w.calls}).(calls := w.calls + 1, clock := now)
      else Moved(w, state, w.pending, w.episode).(clock := now)
    case Success(call) => Moved(w, Succeeded(w.state, cfg), w.pending - {call}, w.episode)
    case Failure(call, now) => Moved(w, Failed(w.state, cfg, now), w.pending - {call}, w.episode).(clock := now)
    case Clear => Moved(w, FRESH, w.pending, w.episode)
  }

  predicate AllowedRun(w: World, cfg: Config, run: seq<Event>)
    decreases |run|
  {
    run == [] || (Allowed(w, run[0]) && AllowedRun(Next(w, cfg, run[0]), cfg, run[1..]))
  }

  function After(w: World, cfg: Config, run: seq<Event>): World
    decreases |run|
  {
    if run == [] then w else After(Next(w, cfg, run[0]), cfg, run[1..])
  }

  /** How many calls the run grants. */
  function Grants(w: World, cfg: Config, run: seq<Event>): nat
    decreases |run|
  {
    if run == [] then 0
    else
      var later := Grants(Next(w, cfg, run[0]), cfg, run[1..]);
      if run[0].Ask? && Granted(w.state, cfg, run[0].now) then 1 + later else later
  }

  ghost predicate Inv(w: World, cfg: Config) {
    && cfg.Valid()
    && (forall c :: c in w.pending ==> c < w.calls)
    && (forall c :: c in w.episode ==> c < w.calls)
    && 0 <= w.state.probes <= |w.episode * w.pending|
    && 0 <= w.state.failures && (w.state.mode == CLOSED ==> w.state.failures < cfg.Streak())
    && (w.state.mode == OPEN ==> w.state.openUntil <= w.clock + cfg.cooldown)
    && (w.state.mode != HALF_OPEN ==> w.episode == {} && w.state.probes == w.state.successes == 0)
    && (w.state.mode == HALF_OPEN ==> HalfOpenInv(w, cfg))
  }

  ghost predicate HalfOpenInv(w: World, cfg: Config) {
    && w.state.probes <= cfg.halfOpenMax
    && 0 <= w.state.successes < cfg.successThreshold
    && |w.episode| <= w.state.probes + w.state.successes
    && (cfg.successThreshold == 1 ==> w.episode <= w.pending)
  }

  lemma {:induction false} OneOut(a: set<nat>, b: set<nat>, c: nat)
    requires c in b
    ensures |a * b| - 1 <= |a * (b - {c})| <= |a * b|
  {
    if c in a {
      assert a * b == a * (b - {c}) + {c};
    } else {
      assert a * b == a * (b - {c});
    }
  }

  lemma OneIn(a: set<nat>, b: set<nat>, c: nat)
    requires c !in a && c !in b
    ensures |(a + {c}) * (b + {c})| == |a * b| + 1
    ensures |a + {c}| == |a| + 1
  {
    assert (a + {c}) * (b + {c}) == a * b + {c};
  }

  lemma AskKeeps(w: World, cfg: Config, now: real)
    requires Inv(w, cfg) && w.clock <= now
    ensures Inv(Next(w, cfg, Ask(now)), cfg)
  {
    OneIn(w.episode, w.pending, w.calls);
  }

  lemma SuccessKeeps(w: World, cfg: Config, call: nat)
    requires Inv(w, cfg) && call in w.pending
    ensures Inv(Next(w, cfg, Success(call)), cfg)
  {
    OneOut(w.episode, w.pending, call);
  }

  lemma FailureKeeps(w: World, cfg: Config, call: nat, now: real)
    requires Inv(w, cfg) && call in w.pending && w.clock <= now
    ensures Inv(Next(w, cfg, Failure(call, now)), cfg)
  {
    OneOut(w.episode, w.pending, call);
  }

  lemma StepKeepsInv(w: World, cfg: Config, e: Event)
    requires Inv(w, cfg) && Allowed(w, e)
    ensures Inv(Next(w, cfg, e), cfg)
  {
    match e
    case Ask(now) => AskKeeps(w, cfg, now);
    case Success(call) => SuccessKeeps(w, cfg, call);
    case Failure(call, now) => FailureKeeps(w, cfg, call, now);
    case Clear =>
  }

  lemma {:induction false} RunKeepsInv(w: World, cfg: Config, run: seq<Event>)
    requires Inv(w, cfg) && AllowedRun(w, cfg, run)
    ensures Inv(After(w, cfg, run), cfg)
    decreases |run|
  {
    if run != [] {
      StepKeepsInv(w, cfg, run[0]);
      RunKeepsInv(Next(w, cfg, run[0]), cfg, run[1..]);
    }
  }

  /** Whatever came before, once no call is in flight and the cooldown is over the next ask is granted. */
  lemma NeverWedges(cfg: Config, run: seq<Event>, now: real)
    requires cfg.Valid() && AllowedRun(START, cfg, run)
    requires var w := After(START, cfg, run); w.pending == {} && (w.state.mode == OPEN ==> w.state.openUntil <= now)
    ensures Granted(After(START, cfg, run).state, cfg, now)
  {
    RunKeepsInv(START, cfg, run);
    var w := After(START, cfg, run);
    assert w.episode * w.pending == {};
  }

  /** The pairing contract is needed for that: a full half-open breaker whose probes are never
      recorded refuses every ask for good. */
  lemma {:induction false} UnrecordedProbesWedge(w: World, cfg: Config, run: seq<Event>)
    requires w.state.mode == HALF_OPEN && w.state.probes >= cfg.halfOpenMax
    requires forall i :: 0 <= i < |run| ==> run[i].Ask?
    ensures Grants(w, cfg, run) == 0
    decreases |run|
  {
    if run != [] {
      assert forall i :: 0 <= i < |run[1..]| ==> run[1..][i] == run[i + 1];
      UnrecordedProbesWedge(Next(w, cfg, run[0]), cfg, run[1..]);
    }
  }

  // ----- How many calls one half-open episode grants -----

  predicate StaysHalfOpen(w: World, cfg: Config, run: seq<Event>)
    decreases |run|
  {
    run == [] || (Next(w, cfg, run[0]).state.mode == HALF_OPEN && StaysHalfOpen(Next(w, cfg, run[0]), cfg, run[1..]))
  }

  /** What an episode that is already under way may still grant. */
  function Allowance(s: State, cfg: Config): int {
    if s.mode == HALF_OPEN then cfg.halfOpenMax - s.probes + cfg.successThreshold - 1 - s.successes
    else cfg.halfOpenMax + cfg.successThreshold - 1
  }

  /** No matter which results arrive, stale or not, paired or not: one episode, counted from the
      ask that opens it, grants at most halfOpenMax + successThreshold - 1 calls. */
  lemma {:induction false} EpisodeIsBounded(w: World, cfg: Config, run: seq<Event>)
    requires cfg.Valid() && StaysHalfOpen(w, cfg, run)
    requires w.state.mode == HALF_OPEN ==>
        0 <= w.state.probes <= cfg.halfOpenMax && 0 <= w.state.successes < cfg.successThreshold
    ensures Grants(w, cfg, run) <= Allowance(w.state, cfg) <= cfg.halfOpenMax + cfg.successThreshold - 1
    decreases |run|
  {
    if run != [] {
      EpisodeIsBounded(Next(w, cfg, run[0]), cfg, run[1..]);
    }
  }

  // ----- The quiet period -----

  /** While open, before `openUntil`, nothing is granted; failures of calls admitted earlier can
      only push `openUntil` further out. */
  lemma {:induction false} QuietWhileOpen(w: World, cfg: Config, run: seq<Event>)
    requires Inv(w, cfg) && AllowedRun(w, cfg, run) && w.state.mode == OPEN
    requires forall i :: 0 <= i < |run| ==> run[i] != Clear && (run[i].Ask? ==> run[i].now < w.state.openUntil)
    ensures Grants(w, cfg, run) == 0
    ensures var t := After(w, cfg, run).state; t.mode == OPEN && t.openUntil >= w.state.openUntil
    decreases |run|
  {
    if run != [] {
      StepKeepsInv(w, cfg, run[0]);
      assert forall i :: 0 <= i < |run[1..]| ==> run[1..][i] == run[i + 1];
      QuietWhileOpen(Next(w, cfg, run[0]), cfg, run[1..]);
    }
  }

  /** What a recorded failure does, whatever the state: a failing probe, and the failure that completes
      the streak, open the breaker until exactly one cooldown later; every other one only counts. */
  lemma FailureOpens(w: World, cfg: Config, call: nat, at: real)
    requires Inv(w, cfg) && Allowed(w, Failure(call, at))
    ensures var s, t := w.state, Next(w, cfg, Failure(call, at)).state;
            if s.mode == HALF_OPEN || s.failures + 1 >= cfg.threshold then
              && t.mode == OPEN && t.openUntil == at + cfg.cooldown
              && forall now :: Granted(t, cfg, now) <==> at + cfg.cooldown <= now
            else t == s.(failures := s.failures + 1)
  {
  }

  /** A failing probe, and a failure that completes the streak, keep everything out for the whole cooldown. */
  lemma CooldownIsKept(w: World, cfg: Config, call: nat, at: real, run: seq<Event>)
    requires Inv(w, cfg) && Allowed(w, Failure(call, at))
    requires w.state.mode == HALF_OPEN || w.state.failures + 1 >= cfg.threshold
    requires AllowedRun(Next(w, cfg, Failure(call, at)), cfg, run)
    requires forall i :: 0 <= i < |run| ==> run[i] != Clear && (run[i].Ask? ==> run[i].now < at + cfg.cooldown)
    ensures Grants(Next(w, cfg, Failure(call, at)), cfg, run) == 0
    ensures var t := After(Next(w, cfg, Failure(call, at)), cfg, run).state;
            t.mode == OPEN && t.openUntil >= at + cfg.cooldown
  {
    StepKeepsInv(w, cfg, Failure(call, at));
    FailureOpens(w, cfg, call, at);
    QuietWhileOpen(Next(w, cfg, Failure(call, at)), cfg, run);
  }

  /** In every reachable half-open state any failure, stale or not, sends the breaker back to open: the
      next call is granted exactly when a whole cooldown has passed. */
  lemma FailingProbeReopens(cfg: Config, before: seq<Event>, call: nat, at: real, run: seq<Event>, now: real)
    requires cfg.Valid() && AllowedRun(START, cfg, before) && After(START, cfg, before).state.mode == HALF_OPEN
    requires Allowed(After(START, cfg, before), Failure(call, at))
    requires var w := Next(After(START, cfg, before), cfg, Failure(call, at));
             && AllowedRun(w, cfg, run) && forall i :: 0 <= i < |run| ==> run[i].Ask? && run[i].now < at + cfg.cooldown
    ensures var w := Next(After(START, cfg, before), cfg, Failure(call, at));
            && Grants(w, cfg, run) == 0
            && (Granted(After(w, cfg, run).state, cfg, now) <==> at + cfg.cooldown <= now)
  {
    var w := After(START, cfg, before);
    RunKeepsInv(START, cfg, before);
    FailureOpens(w, cfg, call, at);
    CooldownIsKept(w, cfg, call, at, run);
    AsksChangeNothing(Next(w, cfg, Failure(call, at)), cfg, run);
  }

  /** Asking too early leaves an open breaker as it is. */
  lemma {:induction false} AsksChangeNothing(w: World, cfg: Config, run: seq<Event>)
    requires w.state.mode == OPEN && forall i :: 0 <= i < |run| ==> run[i].Ask? && run[i].now < w.state.openUntil
    ensures After(w, cfg, run).state == w.state
    decreases |run|
  {
    if run != [] {
      assert forall i :: 0 <= i < |run[1..]| ==> run[1..][i] == run[i + 1];
      AsksChangeNothing(Next(w, cfg, run[0]), cfg, run[1..]);
    }
  }

  // ----- When it opens, and how it closes again -----

  /** The failures recorded since the last success or reset; asks do not count. */
  function Trailing(run: seq<Event>): nat {
    if run == [] then 0
    else
      var last := run[|run| - 1];
      if last.Ask? then Trailing(run[..|run| - 1])
      else if last.Failure? then Trailing(run[..|run| - 1]) + 1
      else 0
  }

  lemma {:induction false} AfterLast(w: World, cfg: Config, run: seq<Event>)
    requires run != []
    ensures After(w, cfg, run) == Next(After(w, cfg, run[..|run| - 1]), cfg, run[|run| - 1])
    decreases |run|
  {
    if |run| > 1 {
      AfterLast(Next(w, cfg, run[0]), cfg, run[1..]);
      assert run[1..][..|run| - 2] == run[..|run| - 1][1..];
    }
  }

  /** A breaker that has been closed so far opens exactly when the failures in a row reach the
      threshold (one, if the threshold is lower). */
  lemma {:induction false} OpensOnStreak(cfg: Config, run: seq<Event>)
    requires forall i :: 0 <= i < |run| ==> After(START, cfg, run[..i]).state.mode == CLOSED
    ensures var s := After(START, cfg, run).state;
            && (s.mode == OPEN <==> Trailing(run) >= cfg.Streak())
            && (s.mode == CLOSED <==> Trailing(run) < cfg.Streak())
            && s.failures == Trailing(run)
    decreases |run|
  {
    if run != [] {
      var init := run[..|run| - 1];
      assert forall i :: 0 <= i < |init| ==> init[..i] == run[..i];
      OpensOnStreak(cfg, init);
      AfterLast(START, cfg, run);
    }
  }

  /** `n` calls one after the other, each asked for and then successful. */
  function HealthyCalls(s: State, cfg: Config, n: nat, now: real): State
    decreases n
  {
    if n == 0 then s else HealthyCalls(Succeeded(Asked(s, cfg, now), cfg), cfg, n - 1, now)
  }

  predicate AllGranted(s: State, cfg: Config, n: nat, now: real)
    decreases n
  {
    n == 0 || (Granted(s, cfg, now) && AllGranted(Succeeded(Asked(s, cfg, now), cfg), cfg, n - 1, now))
  }

  predicate MayRecover(s: State, cfg: Config, now: real) {
    && 0 <= s.successes < cfg.successThreshold && 0 < cfg.halfOpenMax
    && ((s.mode == OPEN && s.openUntil <= now && s.successes == 0) || (s.mode == HALF_OPEN && s.probes == 0))
  }

  lemma {:induction false} HealthyCallsClose(s: State, cfg: Config, n: nat, now: real)
    requires MayRecover(s, cfg, now) && n == cfg.successThreshold - s.successes
    ensures AllGranted(s, cfg, n, now) && HealthyCalls(s, cfg, n, now) == FRESH
    ensures forall k :: 0 <= k < n ==> HealthyCalls(s, cfg, k, now).mode != CLOSED
    decreases n
  {
    var t := Succeeded(Asked(s, cfg, now), cfg);
    if n > 1 {
      HealthyCallsClose(t, cfg, n - 1, now);
      assert forall k :: 0 < k < n ==> HealthyCalls(s, cfg, k, now) == HealthyCalls(t, cfg, k - 1, now);
    }
  }

  lemma IdleHasNoProbes(cfg: Config, run: seq<Event>)
    requires cfg.Valid() && AllowedRun(START, cfg, run) && After(START, cfg, run).pending == {}
    ensures var s := After(START, cfg, run).state;
            && s.probes == 0 && 0 <= s.successes < cfg.successThreshold && (s.mode != HALF_OPEN ==> s.successes == 0)
  {
    RunKeepsInv(START, cfg, run);
    var w := After(START, cfg, run);
    assert w.episode * w.pending == {};
  }

  /** After any run, with no call in flight, a breaker that is not closed and whose cooldown is over
      closes after exactly the healthy calls still missing to successThreshold, all granted. */
  lemma Recovers(cfg: Config, run: seq<Event>, now: real)
    requires cfg.Valid() && AllowedRun(START, cfg, run)
    requires var w := After(START, cfg, run);
             w.pending == {} && w.state.mode != CLOSED && (w.state.mode == OPEN ==> w.state.openUntil <= now)
    ensures var s := After(START, cfg, run).state;
            var n := cfg.successThreshold - s.successes;
            && 0 < n && AllGranted(s, cfg, n, now) && HealthyCalls(s, cfg, n, now) == FRESH
            && forall k :: 0 <= k < n ==> HealthyCalls(s, cfg, k, now).mode != CLOSED
  {
    IdleHasNoProbes(cfg, run);
    var s := After(START, cfg, run).state;
    HealthyCallsClose(s, cfg, cfg.successThreshold - s.successes, now);
  }

  // ----- How many probes can be in flight -----

  ghost predicate Reached(w: World, cfg: Config) {
    exists run :: AllowedRun(START, cfg, run) && After(START, cfg, run) == w
  }

  lemma {:induction false} OneMore(w: World, cfg: Config, run: seq<Event>, e: Event)
    requires AllowedRun(w, cfg, run) && Allowed(After(w, cfg, run), e)
    ensures AllowedRun(w, cfg, run + [e]) && After(w, cfg, run + [e]) == Next(After(w, cfg, run), cfg, e)
    decreases |run|
  {
    if run == [] {
      assert [e][1..] == [];
    } else {
      OneMore(Next(w, cfg, run[0]), cfg, run[1..], e);
      assert (run + [e])[1..] == run[1..] + [e];
    }
  }

  lemma ReachNext(w: World, cfg: Config, e: Event) returns (t: World)
    requires Reached(w, cfg) && Allowed(w, e)
    ensures t == Next(w, cfg, e) && Reached(t, cfg)
  {
    var run :| AllowedRun(START, cfg, run) && After(START, cfg, run) == w;
    OneMore(START, cfg, run, e);
    t := Next(w, cfg, e);
  }

  /** `n` more failing calls open the breaker, while call 0 is still in flight. */
  lemma {:induction false} FailUntilOpen(w: World, cfg: Config, n: nat) returns (t: World)
    requires Reached(w, cfg) && w.state.mode == CLOSED && 1 <= n && 0 <= w.state.failures == cfg.Streak() - n
    requires w.pending == {0} && w.calls >= 1 && w.clock == 0.0
    ensures Reached(t, cfg) && t.state.mode == OPEN && t.state.openUntil == cfg.cooldown
    ensures t.pending == {0} && t.calls >= 1 && t.clock == 0.0 && t.episode == {}
    decreases n
  {
    t := ReachNext(w, cfg, Ask(0.0));
    t := ReachNext(t, cfg, Failure(w.calls, 0.0));
    assert {0} + {w.calls} - {w.calls} == {0};
    if n > 1 {
      t := FailUntilOpen(t, cfg, n - 1);
    }
  }

  /** Half-open, `probes` of the episode's calls in flight besides the stale call 0. */
  ghost predicate Probing(w: World, cfg: Config, probes: int) {
    && Reached(w, cfg) && w.state.mode == HALF_OPEN && w.state.probes == probes && w.state.successes == 0
    && 0 in w.pending && 0 !in w.episode && |w.episode * w.pending| == probes
    && (forall c :: c in w.pending ==> c < w.calls)
    && (forall c :: c in w.episode ==> c < w.calls)
  }

  lemma {:induction false} ProbeUntilFull(w: World, cfg: Config) returns (t: World)
    requires Probing(w, cfg, w.state.probes) && w.state.probes <= cfg.halfOpenMax
    ensures Probing(t, cfg, cfg.halfOpenMax)
    decreases cfg.halfOpenMax - w.state.probes
  {
    t := w;
    if w.state.probes < cfg.halfOpenMax {
      OneIn(w.episode, w.pending, w.calls);
      t := ReachNext(w, cfg, Ask(w.clock));
      t := ProbeUntilFull(t, cfg);
    }
  }

  /** A stale success frees a slot its call never took, so one probe too many gets through. */
  lemma OneProbeTooMany(w: World, cfg: Config) returns (t: World)
    requires Probing(w, cfg, cfg.halfOpenMax) && cfg.successThreshold >= 2 && cfg.halfOpenMax >= 1
    ensures Reached(t, cfg) && |t.episode * t.pending| == cfg.halfOpenMax + 1
  {
    t := ReachNext(w, cfg, Success(0));
    assert t.episode * t.pending == w.episode * w.pending;
    OneIn(t.episode, t.pending, t.calls);
    t := ReachNext(t, cfg, Ask(t.clock));
  }

  lemma TooManyProbes(cfg: Config) returns (t: World)
    requires cfg.Valid() && cfg.successThreshold >= 2
    ensures Reached(t, cfg) && |t.episode * t.pending| == cfg.halfOpenMax + 1
  {
    assert AllowedRun(START, cfg, []) && After(START, cfg, []) == START;
    t := ReachNext(START, cfg, Ask(0.0));
    t := FailUntilOpen(t, cfg, cfg.Streak());
    OneIn(t.episode, t.pending, t.calls);
    t := ReachNext(t, cfg, Ask(if cfg.cooldown > 0.0 then cfg.cooldown else 0.0));
    t := ProbeUntilFull(t, cfg);
    t := OneProbeTooMany(t, cfg);
  }

  function InFlight(w: World): nat {
    |w.episode * w.pending|
  }

  /** At most halfOpenMax probes are ever in flight at once, over all interleavings, exactly when
      one success closes the breaker. */
  lemma ProbesInFlight(cfg: Config)
    requires cfg.Valid()
    ensures cfg.successThreshold == 1
       <==> forall run :: AllowedRun(START, cfg, run) ==> InFlight(After(START, cfg, run)) <= cfg.halfOpenMax
  {
    if cfg.successThreshold == 1 {
      forall run | AllowedRun(START, cfg, run)
        ensures InFlight(After(START, cfg, run)) <= cfg.halfOpenMax
      {
        RunKeepsInv(START, cfg, run);
        var w := After(START, cfg, run);
        assert w.episode * w.pending <= w.episode;
        SubsetIsSmaller(w.episode * w.pending, w.episode);
      }
    } else {
      var t := TooManyProbes(cfg);
      var run :| AllowedRun(START, cfg, run) && After(START, cfg, run) == t;
      assert InFlight(After(START, cfg, run)) > cfg.halfOpenMax;
    }
  }

  lemma SubsetIsSmaller(a: set<nat>, b: set<nat>)
    requires a <= b
    ensures |a| <= |b|
  {
    assert b == a + (b - a);
  }
}
