/** Calls through the breaker: every interleaving of granted calls, each reporting what its retry loop
    reports, is a run of the breaker that keeps its contract. */
module ProviderCalls {
  import B = Breaker
  import R = Retry

  /** A call asks the breaker, or a running call ends with what its retry loop made of it. */
  datatype Move = Begin(now: real) | End(call: nat, verdict: R.Verdict, now: real)

  /** `running` calls were granted and have not ended; `escaped` ones ended without a report. */
  datatype Calls = Calls(world: B.World, running: set<nat>, escaped: set<nat>)

  const IDLE := Calls(B.START, {}, {})

  function EventsOf(m: Move): seq<B.Event> {
    match m
    case Begin(now) => [B.Ask(now)]
    case End(call, verdict, now) =>
      var reports := R.Reports(verdict);
      if reports == [] then [] else if reports[0] == R.ReportSuccess then [B.Success(call)] else [B.Failure(call, now)]
  }

  predicate Possible(c: Calls, m: Move) {
    c.world.clock <= m.now && (m.End? ==> m.call in c.running && !m.verdict.CircuitOpen?)
  }

  function Moved(c: Calls, cfg: B.Config, m: Move): Calls {
    var world := B.After(c.world, cfg, EventsOf(m));
    match m
    case Begin(now) =>
      Calls(world, if B.Granted(c.world.state, cfg, now) then c.running + {c.world.calls} else c.running, c.escaped)
    case End(call, verdict, _) =>
      Calls(world, c.running - {call}, if verdict.Escaped? then c.escaped + {call} else c.escaped)
  }

  predicate PossibleRun(c: Calls, cfg: B.Config, moves: seq<Move>)
    decreases |moves|
  {
    moves == [] || (Possible(c, moves[0]) && PossibleRun(Moved(c, cfg, moves[0]), cfg, moves[1..]))
  }

  function After(c: Calls, cfg: B.Config, moves: seq<Move>): Calls
    decreases |moves|
  {
    if moves == [] then c else After(Moved(c, cfg, moves[0]), cfg, moves[1..])
  }

  /** What the breaker sees of it all. */
  function Trace(moves: seq<Move>): seq<B.Event> {
    if moves == [] then [] else EventsOf(moves[0]) + Trace(moves[1..])
  }

  /** The unrecorded grants are the running calls and those whose report was lost. */
  ghost predicate Consistent(c: Calls) {
    && c.world.pending == c.running + c.escaped && c.running !! c.escaped
    && forall call :: call in c.world.pending ==> call < c.world.calls
  }

  lemma {:induction false} TracesJoin(w: B.World, cfg: B.Config, a: seq<B.Event>, b: seq<B.Event>)
    ensures B.After(w, cfg, a + b) == B.After(B.After(w, cfg, a), cfg, b)
    ensures B.AllowedRun(w, cfg, a + b) <==> B.AllowedRun(w, cfg, a) && B.AllowedRun(B.After(w, cfg, a), cfg, b)
    decreases |a|
  {
    if a == [] {
      assert a + b == b;
    } else {
      assert (a + b)[1..] == a[1..] + b;
      TracesJoin(B.Next(w, cfg, a[0]), cfg, a[1..], b);
    }
  }

  lemma OneEvent(w: B.World, cfg: B.Config, e: B.Event)
    ensures B.After(w, cfg, [e]) == B.Next(w, cfg, e)
    ensures B.AllowedRun(w, cfg, [e]) <==> B.Allowed(w, e)
  {
    assert [e][1..] == [];
  }

  lemma MoveKeeps(c: Calls, cfg: B.Config, m: Move)
    requires Consistent(c) && Possible(c, m)
    ensures Consistent(Moved(c, cfg, m)) && B.AllowedRun(c.world, cfg, EventsOf(m))
    ensures Moved(c, cfg, m).world == B.After(c.world, cfg, EventsOf(m))
  {
    if EventsOf(m) != [] {
      OneEvent(c.world, cfg, EventsOf(m)[0]);
      assert EventsOf(m) == [EventsOf(m)[0]];
    }
  }

  /** Whatever the calls do, and however they interleave, the breaker's contract is kept; the
      unrecorded grants are exactly the calls still running and those that escaped. */
  lemma {:induction false} CallsKeepTheContract(c: Calls, cfg: B.Config, moves: seq<Move>)
    requires Consistent(c) && PossibleRun(c, cfg, moves)
    ensures B.AllowedRun(c.world, cfg, Trace(moves))
    ensures B.After(c.world, cfg, Trace(moves)) == After(c, cfg, moves).world
    ensures Consistent(After(c, cfg, moves))
    decreases |moves|
  {
    if moves != [] {
      MoveKeeps(c, cfg, moves[0]);
      CallsKeepTheContract(Moved(c, cfg, moves[0]), cfg, moves[1..]);
      TracesJoin(c.world, cfg, EventsOf(moves[0]), Trace(moves[1..]));
    }
  }

  lemma {:induction false} NothingEscapes(c: Calls, cfg: B.Config, moves: seq<Move>)
    requires forall i :: 0 <= i < |moves| && moves[i].End? ==> !moves[i].verdict.Escaped?
    ensures After(c, cfg, moves).escaped == c.escaped
    decreases |moves|
  {
    if moves != [] {
      assert forall i :: 0 <= i < |moves[1..]| ==> moves[1..][i] == moves[i + 1];
      NothingEscapes(Moved(c, cfg, moves[0]), cfg, moves[1..]);
    }
  }

  /** When no exception escapes, a breaker whose calls have all ended grants again once the cooldown is over. */
  lemma {:induction false} CallsNeverWedge(cfg: B.Config, moves: seq<Move>, now: real)
    requires cfg.Valid() && PossibleRun(IDLE, cfg, moves)
    requires forall i :: 0 <= i < |moves| && moves[i].End? ==> !moves[i].verdict.Escaped?
    requires var c := After(IDLE, cfg, moves);
        c.running == {} && (c.world.state.mode == B.OPEN ==> c.world.state.openUntil <= now)
    ensures B.Granted(After(IDLE, cfg, moves).world.state, cfg, now)
  {
    CallsKeepTheContract(IDLE, cfg, moves);
    NothingEscapes(IDLE, cfg, moves);
    B.NeverWedges(cfg, Trace(moves), now);
  }

  // ----- When exceptions escape -----

  /** Half-open with every slot held by a call that will never report, and no call running. */
  ghost predicate Wedged(c: Calls, cfg: B.Config) {
    c.world.state.mode == B.HALF_OPEN && c.world.state.probes >= cfg.halfOpenMax && c.running == {}
  }

  /** Such a breaker grants nothing ever again. */
  lemma {:induction false} WedgedForGood(c: Calls, cfg: B.Config, moves: seq<Move>)
    requires Wedged(c, cfg) && PossibleRun(c, cfg, moves)
    ensures Wedged(After(c, cfg, moves), cfg) && B.Grants(c.world, cfg, Trace(moves)) == 0
    decreases |moves|
  {
    if moves != [] {
      var now := moves[0].now;
      OneEvent(c.world, cfg, B.Ask(now));
      WedgedForGood(Moved(c, cfg, moves[0]), cfg, moves[1..]);
      assert ([B.Ask(now)] + Trace(moves[1..]))[1..] == Trace(moves[1..]);
    }
  }

  /** With one success enough to close, no result has been recorded since the breaker became half-open:
      its slots are held exactly by the calls of this episode, once none is running the escaped ones. */
  lemma SlotsAreEscapes(cfg: B.Config, moves: seq<Move>)
    requires cfg.Valid() && cfg.successThreshold == 1 && PossibleRun(IDLE, cfg, moves)
    ensures var c := After(IDLE, cfg, moves);
            c.running == {} && c.world.state.mode == B.HALF_OPEN ==>
              c.world.state.probes == |c.world.episode * c.escaped|
  {
    CallsKeepTheContract(IDLE, cfg, moves);
    B.RunKeepsInv(B.START, cfg, Trace(moves));
    var c := After(IDLE, cfg, moves);
    if c.running == {} && c.world.state.mode == B.HALF_OPEN {
      assert c.world.pending == c.escaped;
      assert c.world.episode * c.escaped == c.world.episode;
    }
  }

  /** With one success enough to close, no call running and the cooldown over, the next ask is granted if
      and only if the breaker is not half-open or fewer of the episode's calls escaped than it has slots. */
  lemma GrantedUnlessEscaped(cfg: B.Config, moves: seq<Move>, now: real)
    requires cfg.Valid() && cfg.successThreshold == 1 && PossibleRun(IDLE, cfg, moves)
    requires var c := After(IDLE, cfg, moves);
        c.running == {} && (c.world.state.mode == B.OPEN ==> c.world.state.openUntil <= now)
    ensures var c := After(IDLE, cfg, moves);
            B.Granted(c.world.state, cfg, now)
            <==> c.world.state.mode != B.HALF_OPEN || |c.world.episode * c.escaped| < cfg.halfOpenMax
  {
    SlotsAreEscapes(cfg, moves);
  }

  // ----- A run that wedges -----

  lemma {:induction false} OneMove(c: Calls, cfg: B.Config, moves: seq<Move>, m: Move)
    requires PossibleRun(c, cfg, moves) && Possible(After(c, cfg, moves), m)
    ensures PossibleRun(c, cfg, moves + [m]) && After(c, cfg, moves + [m]) == Moved(After(c, cfg, moves), cfg, m)
    decreases |moves|
  {
    if moves == [] {
      assert [m][1..] == [] && moves + [m] == [m];
    } else {
      assert (moves + [m])[1..] == moves[1..] + [m];
      OneMove(Moved(c, cfg, moves[0]), cfg, moves[1..], m);
    }
  }

  /** Nothing running, at time `now`. */
  ghost predicate Paused(c: Calls, cfg: B.Config, moves: seq<Move>, now: real) {
    PossibleRun(IDLE, cfg, moves) && After(IDLE, cfg, moves) == c && c.running == {} && c.world.clock == now
  }

  /** One call from grant to end. */
  lemma CallInFull(c: Calls, cfg: B.Config, moves: seq<Move>, now: real, later: real, verdict: R.Verdict)
    returns (t: Calls, longer: seq<Move>)
    requires Paused(c, cfg, moves, now) && now <= later && B.Granted(c.world.state, cfg, later)
    requires verdict == R.Unavailable || verdict == R.Escaped
    ensures Paused(t, cfg, longer, later)
    ensures var asked := B.Asked(c.world.state, cfg, later);
            t.world.state == if verdict == R.Escaped then asked else B.Failed(asked, cfg, later)
  {
    var call := c.world.calls;
    OneMove(IDLE, cfg, moves, Begin(later));
    OneEvent(c.world, cfg, B.Ask(later));
    var begun := Moved(c, cfg, Begin(later));
    assert begun.running == {call};
    OneMove(IDLE, cfg, moves + [Begin(later)], End(call, verdict, later));
    OneEvent(begun.world, cfg, B.Failure(call, later));
    longer := moves + [Begin(later)] + [End(call, verdict, later)];
    t := Moved(begun, cfg, End(call, verdict, later));
  }

  /** `n` more failing calls open the breaker. */
  lemma {:induction false} FailUntilOpen(c: Calls, cfg: B.Config, moves: seq<Move>, n: nat)
    returns (t: Calls, longer: seq<Move>)
    requires Paused(c, cfg, moves, 0.0) && c.world.state.mode == B.CLOSED
    requires 1 <= n && 0 <= c.world.state.failures == cfg.Streak() - n
    ensures Paused(t, cfg, longer, 0.0) && t.world.state.mode == B.OPEN && t.world.state.openUntil == cfg.cooldown
    decreases n
  {
    t, longer := CallInFull(c, cfg, moves, 0.0, 0.0, R.Unavailable);
    if n > 1 {
      t, longer := FailUntilOpen(t, cfg, longer, n - 1);
    }
  }

  /** Each escaping probe keeps its slot, until none is left. */
  lemma {:induction false} EscapeUntilFull(c: Calls, cfg: B.Config, moves: seq<Move>, now: real)
    returns (t: Calls, longer: seq<Move>)
    requires Paused(c, cfg, moves, now) && c.world.state.mode == B.HALF_OPEN && c.world.state.probes <= cfg.halfOpenMax
    ensures Paused(t, cfg, longer, now) && Wedged(t, cfg)
    decreases cfg.halfOpenMax - c.world.state.probes
  {
    t, longer := c, moves;
    if c.world.state.probes < cfg.halfOpenMax {
      t, longer := CallInFull(c, cfg, moves, now, now, R.Escaped);
      t, longer := EscapeUntilFull(t, cfg, longer, now);
    }
  }

  /** For every configuration calls can wedge their breaker: enough of them fail to open it, and after
      the cooldown as many probes escape as it has slots. */
  lemma EscapesWedge(cfg: B.Config) returns (moves: seq<Move>)
    requires cfg.Valid()
    ensures PossibleRun(IDLE, cfg, moves) && Wedged(After(IDLE, cfg, moves), cfg)
  {
    var c: Calls;
    var now := if cfg.cooldown > 0.0 then cfg.cooldown else 0.0;
    c, moves := FailUntilOpen(IDLE, cfg, [], cfg.Streak());
    c, moves := CallInFull(c, cfg, moves, 0.0, now, R.Escaped);
    c, moves := EscapeUntilFull(c, cfg, moves, now);
  }
}
