/** What isolation means for the people in a conversation, what happens to it when a verification is
    interrupted, and the runs that break it. */
module CohortRuns {
  import opened Options
  import opened Membership
  import opened CohortSafety

  // ----- Who reaches whom -----

  /** Contact is mutual among enabled users, and never crosses cohorts. */
  lemma ContactIsMutual(db: Db, a: UserId, b: UserId, now: int)
    ensures db.CanMessage(a, b, now) && db.users[a].enabled <==> db.CanMessage(b, a, now) && db.users[b].enabled
    ensures db.CanMessage(a, b, now) ==> !(db.IsA(a, Adult) && (db.IsA(b, Child) || db.IsA(b, Teen)))
    ensures db.CanMessage(a, b, now) ==> db.CanParticipate(a, now) && db.CanParticipate(b, now)
  {
  }

  /** Two active members who may both speak share a cohort; an adult active among children only
      observes, and has a ward speaking there. */
  lemma WhoMeetsWhom(db: Db, c: ConvId, u: UserId, v: UserId)
    requires Inv(db) && db.InState((c, u), Active) && db.InState((c, v), Active) && u !in db.pending && v !in db.pending
    ensures db.parts[(c, u)].role != Guardian && db.parts[(c, v)].role != Guardian ==>
        db.users[u].cohort == db.users[v].cohort
    ensures db.IsA(u, Adult) && db.IsA(v, Child) ==>
              db.parts[(c, u)].role == Guardian && exists w :: w in db.Basis(u, c, db.pending)
  {
    assert RowKept(db, (c, u), db.pending, false) && RowKept(db, (c, v), db.pending, false);
    assert ObserverRowOk(db, (c, v));
  }

  /** Sending never crosses cohorts. Reading does only for an observer once proven adult; unless their
      own eviction is pending that is an adult with a ward speaking there, and once none is pending it
      is among children, with an active child. */
  lemma WhoReadsAndSends(db: Db, u: UserId, c: ConvId, now: int)
    requires Inv(db)
    ensures MaySend(db, u, c, now) ==> db.CanView(u, c, now) || !db.users[u].enabled
    ensures MaySend(db, u, c, now) ==> db.IsA(u, db.convs[c].cohort)
    ensures db.CanView(u, c, now) && db.users[u].cohort != db.convs[c].cohort ==>
              && db.Observes((c, u)) && u in db.adults && !MaySend(db, u, c, now)
              && (u !in db.pending ==> db.IsA(u, Adult) && db.Basis(u, c, db.pending) != {})
              && (db.pending == {} ==> db.convs[c].cohort == Child && db.ChildWardsIn(u, c) != {})
  {
    if db.CanView(u, c, now) {
      assert RowKept(db, (c, u), db.pending, false) && ObserverRowOk(db, (c, u));
      if db.pending == {} {
        NothingPendingIsIsolated(db);
        assert RowIsolated(db, (c, u));
      }
    }
  }

  /** Whom a wrapped key may reach: the conversation's cohort, an adult observing a ward there, or
      someone whose eviction is pending. */
  ghost predicate KeyOk(db: Db, c: ConvId, r: UserId)
    requires c in db.convs
  {
    || db.IsA(r, db.convs[c].cohort)
    || (db.IsA(r, Adult) && db.Observes((c, r)) && db.Basis(r, c, db.pending) != {})
    || r in db.pending
  }

  /** A send in a reachable state stores one key per active member and for nobody else, each for
      someone it may reach; with no eviction pending, for the conversation's cohort or an observing
      guardian of an active child. */
  lemma SentKeys(run: seq<(Step, int)>, u: UserId, c: ConvId, now: int, cap: int, m: MsgId)
    requires AllowedRun(run) && Send(After(run), u, c, now, cap, m).Done?
    ensures var db := After(run);
            var keys := Send(db, u, c, now, cap, m).db.messages[m].keys;
            && (forall r :: r in keys <==> db.InState((c, r), Active))
            && u in keys && |keys| <= cap && db.parts[(c, u)].role != Guardian && db.IsA(u, db.convs[c].cohort)
            && (forall r :: r in keys ==> KeyOk(db, c, r))
            && (db.pending == {} ==>
                  forall r :: r in keys ==>
                    db.IsA(r, db.convs[c].cohort)
                    || (db.convs[c].cohort == Child && db.IsA(r, Adult) && db.ChildWardsIn(r, c) != {}))
  {
    RunKeepsInv(run);
    var db := After(run);
    var keys := Send(db, u, c, now, cap, m).db.messages[m].keys;
    forall r ensures r in keys <==> db.InState((c, r), Active)
      ensures r in keys ==> KeyOk(db, c, r)
    {
      if db.InState((c, r), Active) {
        assert (c, r) in db.parts && r in db.Members(c);
        assert RowKept(db, (c, r), db.pending, false);
      }
    }
    if db.pending == {} {
      forall r | r in keys ensures RowIsolated(db, (c, r)) {
      }
    }
  }

  // ----- Verifications that are not interrupted -----

  /** A stored band that changes an assigned cohort. */
  predicate Displaces(db: Db, step: Step) {
    step.Store? && step.u in db.users && ChangesCohort(db, step.u, step.band)
  }

  /** Every eviction a verification calls for comes right after the band is stored. */
  ghost predicate Prompt(run: seq<(Step, int)>) {
    forall i :: 0 <= i < |run| && Displaces(After(run[..i]), run[i].0) ==>
      i + 1 < |run| && run[i + 1].0 == Pause(run[i].0.u)
  }

  /** No row becomes stray, and no eviction becomes pending. */
  ghost predicate NoWorse(a: Db, b: Db) {
    (forall k :: Stray(b, k) ==> Stray(a, k)) && b.pending <= a.pending
  }

  lemma RemovalIsNoWorse(db: Db, u: UserId)
    ensures NoWorse(db, RemoveUser(db, u)) && u !in RemoveUser(db, u).pending
  {
  }

  lemma RevocationIsNoWorse(db: Db, g: UserId, w: UserId, now: int)
    ensures NoWorse(db, RevokeGuardian(db, g, w, now))
  {
    var dropped := DropObserver(WithoutLink(db, g, w), g);
    assert NoWorse(db, dropped);
    RemovalIsNoWorse(dropped, w);
  }

  lemma {:induction false} RevokeAllIsNoWorse(db: Db, g: UserId, wards: seq<UserId>, now: int)
    ensures NoWorse(db, RevokeAll(db, g, wards, now))
    decreases |wards|
  {
    if wards != [] {
      var before := RevokeAll(db, g, wards[..|wards| - 1], now);
      RevokeAllIsNoWorse(db, g, wards[..|wards| - 1], now);
      RevocationIsNoWorse(before, g, wards[|wards| - 1], now);
    }
  }

  lemma ErasureIsNoWorse(db: Db, target: UserId, wards: seq<UserId>, now: int)
    ensures NoWorse(db, Forget(RemoveUser(RevokeAll(db, target, wards, now), target), target))
  {
    RevokeAllIsNoWorse(db, target, wards, now);
    RemovalIsNoWorse(RevokeAll(db, target, wards, now), target);
  }

  lemma ObserverIsNoWorse(db: Db, g: UserId, c: ConvId, now: int, hasKey: bool)
    requires Inv(db) && db.pending == {}
    ensures NoWorse(db, Next(db, Observe(g, c, hasKey), now))
  {
    if AddGuardianObserver(db, g, c, now, hasKey).Done? && !db.InState((c, g), Active) {
      var w :| w in db.ChildWardsIn(g, c);
      assert RowKept(db, (c, w), {}, false) && ObserverRowOk(db, (c, w));
    }
  }

  lemma DirectIsNoWorse(db: Db, a: UserId, b: UserId, now: int, rateOk: bool, c: ConvId)
    requires Inv(db) && c !in db.convs
    ensures NoWorse(db, Applied(db, StartDirect(db, a, b, now, rateOk, c)))
  {
    NobodyThere(db, c);
  }

  lemma GroupIsNoWorse(db: Db, a: UserId, targets: seq<UserId>, now: int, rateOk: bool, cap: int, c: ConvId)
    requires Inv(db) && c !in db.convs
    ensures NoWorse(db, Applied(db, StartGroup(db, a, targets, now, rateOk, cap, c)))
  {
    NobodyThere(db, c);
  }

  lemma EvictionStepIsNoWorse(db: Db, step: Step, now: int)
    requires step.Unlink? || step.Unconsenting? || step.Pause?
    ensures NoWorse(db, Next(db, step, now))
  {
    match step {
      case Unlink(g, w) => RevocationIsNoWorse(db, g, w, now);
      case Unconsenting(g, w) => RemovalIsNoWorse(WithoutConsents(db, w), w);
      case Pause(u) => RemovalIsNoWorse(db, u);
    }
  }

  lemma StepIsNoWorse(db: Db, step: Step, now: int)
    requires Inv(db) && db.pending == {} && Allowed(db, step) && !Displaces(db, step)
    ensures NoWorse(db, Next(db, step, now))
  {
    if step.Unlink? || step.Unconsenting? || step.Pause? {
      EvictionStepIsNoWorse(db, step, now);
    } else if step.Erase? {
      ErasureIsNoWorse(db, step.target, step.wards, now);
    } else if IsAccountStep(step) {
      AccountStepIsNoWorse(db, step, now);
    } else {
      match step {
        case Observe(g, c, hasKey) => ObserverIsNoWorse(db, g, c, now, hasKey);
        case OpenDirect(a, b, rateOk, c) => DirectIsNoWorse(db, a, b, now, rateOk, c);
        case OpenGroup(a, targets, rateOk, cap, c) => GroupIsNoWorse(db, a, targets, now, rateOk, cap, c);
        case _ => RowStepIsNoWorse(db, step, now);
      }
    }
  }

  lemma AccountStepIsNoWorse(db: Db, step: Step, now: int)
    requires IsAccountStep(step) && !Displaces(db, step)
    requires !step.Unlink? && !step.Unconsenting? && !step.Pause? && !step.Erase?
    ensures NoWorse(db, Next(db, step, now))
  {
  }

  lemma RowStepIsNoWorse(db: Db, step: Step, now: int)
    requires !IsAccountStep(step) && !step.OpenDirect? && !step.OpenGroup? && !step.Observe?
    ensures NoWorse(db, Next(db, step, now))
  {
  }

  predicate Quiet(db: Db) {
    db.pending == {} && NoStrays(db)
  }

  lemma QuietStep(run: seq<(Step, int)>, i: nat)
    requires i < |run| && AllowedRun(run) && Quiet(After(run[..i])) && !Displaces(After(run[..i]), run[i].0)
    ensures Quiet(After(run[..i + 1]))
  {
    AllowedPrefix(run, i);
    RunKeepsInv(run[..i]);
    assert run[..i + 1][..i] == run[..i];
    StepIsNoWorse(After(run[..i]), run[i].0, run[i].1);
  }

  lemma QuietPair(run: seq<(Step, int)>, i: nat)
    requires i + 1 < |run| && Quiet(After(run[..i]))
    requires Displaces(After(run[..i]), run[i].0) && run[i + 1].0 == Pause(run[i].0.u)
    ensures Quiet(After(run[..i + 2]))
  {
    var u, before := run[i].0.u, After(run[..i]);
    assert run[..i + 1][..i] == run[..i] && run[..i + 2][..i + 1] == run[..i + 1];
    var stored := StoreBand(before, u, run[i].0.band, run[i].0.verified);
    assert After(run[..i + 1]) == stored && stored.pending == {u} && NoStrays(stored);
    RemovalIsNoWorse(stored, u);
    assert After(run[..i + 2]) == RemoveUser(stored, u);
  }

  /** Induction in hops of one, or of two over a displaced position. */
  lemma {:induction false} Hops(quiet: nat -> bool, displaced: nat -> bool, n: nat, end: nat)
    requires n <= end && quiet(0) && (n > 0 ==> !displaced(n - 1))
    requires forall i: nat, j: nat :: i + 1 == j <= end && quiet(i) && !displaced(i) ==> quiet(j)
    requires forall i: nat, j: nat :: i + 2 == j <= end && quiet(i) && displaced(i) ==> quiet(j)
    requires forall i: nat, j: nat :: i + 1 == j < end && displaced(i) ==> !displaced(j)
    ensures quiet(n)
    decreases n
  {
    if n > 1 && displaced(n - 2) {
      assert n > 2 ==> !displaced(n - 3);
      Hops(quiet, displaced, n - 2, end);
    } else if n > 0 {
      Hops(quiet, displaced, n - 1, end);
    }
  }

  ghost predicate QuietAt(run: seq<(Step, int)>, n: nat) {
    n <= |run| && Quiet(After(run[..n]))
  }

  ghost predicate DisplacedAt(run: seq<(Step, int)>, n: nat) {
    n < |run| && Displaces(After(run[..n]), run[n].0)
  }

  lemma QuietHop(run: seq<(Step, int)>, i: nat)
    requires AllowedRun(run) && Prompt(run) && i < |run| && QuietAt(run, i)
    ensures !DisplacedAt(run, i) ==> QuietAt(run, i + 1)
    ensures DisplacedAt(run, i) && i + 2 <= |run| ==> QuietAt(run, i + 2)
  {
    if DisplacedAt(run, i) {
      QuietPair(run, i);
    } else {
      QuietStep(run, i);
    }
  }

  lemma NeverTwice(run: seq<(Step, int)>, i: nat)
    requires Prompt(run) && DisplacedAt(run, i)
    ensures i + 1 < |run| && !DisplacedAt(run, i + 1)
  {
  }

  lemma QuietEnd(run: seq<(Step, int)>, quiet: nat -> bool, displaced: nat -> bool)
    requires AllowedRun(run) && Prompt(run)
    requires forall n: nat :: quiet(n) == QuietAt(run, n)
    requires forall n: nat :: displaced(n) == DisplacedAt(run, n)
    ensures quiet(|run|)
  {
    forall i: nat, j: nat | i + 1 == j <= |run| && quiet(i) && !displaced(i) ensures quiet(j) {
      QuietHop(run, i);
    }
    forall i: nat, j: nat | i + 2 == j <= |run| && quiet(i) && displaced(i) ensures quiet(j) {
      QuietHop(run, i);
    }
    forall i: nat, j: nat | i + 1 == j < |run| && displaced(i) ensures !displaced(j) {
      NeverTwice(run, i);
    }
    assert QuietAt(run, 0);
    assert |run| > 0 ==> !DisplacedAt(run, |run| - 1);
    Hops(quiet, displaced, |run|, |run|);
  }

  /** If no verification is interrupted, isolation holds for everyone after every run. */
  lemma PromptRunIsSafe(run: seq<(Step, int)>)
    requires AllowedRun(run) && Prompt(run)
    ensures Safe(After(run))
  {
    var quiet, displaced := (n: nat) => QuietAt(run, n), (n: nat) => DisplacedAt(run, n);
    QuietEnd(run, quiet, displaced);
    assert QuietAt(run, |run|) && run[..|run|] == run;
    RunKeepsInv(run);
    NothingPendingIsSafe(After(run));
  }

  // ----- Runs that break isolation -----

  /** A run in which every step is allowed or among `also`. */
  ghost predicate RunWith(run: seq<(Step, int)>, also: set<Step>) {
    forall i :: 0 <= i < |run| ==> Allowed(After(run[..i]), run[i].0) || run[i].0 in also
  }

  ghost predicate Reached(db: Db, also: set<Step>) {
    exists run :: RunWith(run, also) && After(run) == db
  }

  lemma Extended(run: seq<(Step, int)>, also: set<Step>, step: Step, now: int)
    requires RunWith(run, also) && (Allowed(After(run), step) || step in also)
    ensures RunWith(run + [(step, now)], also) && After(run + [(step, now)]) == Next(After(run), step, now)
  {
    var longer := run + [(step, now)];
    assert longer[..|run|] == run;
    forall i | 0 <= i < |longer| ensures Allowed(After(longer[..i]), longer[i].0) || longer[i].0 in also {
      if i < |run| {
        assert longer[..i] == run[..i];
      }
    }
  }

  lemma ReachNext(db: Db, also: set<Step>, step: Step, now: int)
    requires Reached(db, also) && (Allowed(db, step) || step in also)
    ensures Reached(Next(db, step, now), also)
  {
    var run :| RunWith(run, also) && After(run) == db;
    Extended(run, also, step, now);
  }

  lemma EmptyIsReached(also: set<Step>)
    ensures Reached(EMPTY, also)
  {
    assert RunWith([], also) && After([]) == EMPTY;
  }

  lemma RunTo(db: Db, also: set<Step>) returns (run: seq<(Step, int)>)
    requires Reached(db, also)
    ensures RunWith(run, also) && After(run) == db
    ensures also == {} ==> AllowedRun(run)
  {
    run :| RunWith(run, also) && After(run) == db;
  }

  /** What the stages below know of being reached: it is closed under steps. */
  ghost predicate Closed(reached: Db -> bool, also: set<Step>) {
    forall db, step :: reached(db) && (Allowed(db, step) || step in also) ==> reached(Next(db, step, 0))
  }

  lemma ReachedIsClosed(reached: Db -> bool, also: set<Step>)
    requires forall db :: reached(db) == Reached(db, also)
    ensures Closed(reached, also) && reached(EMPTY)
  {
    EmptyIsReached(also);
    forall db, step | reached(db) && (Allowed(db, step) || step in also) ensures reached(Next(db, step, 0)) {
      ReachNext(db, also, step, 0);
    }
  }

  lemma Move(reached: Db -> bool, also: set<Step>, db: Db, step: Step, t: Db)
    requires Closed(reached, also) && reached(db) && (Allowed(db, step) || step in also) && Next(db, step, 0) == t
    ensures reached(t)
  {
  }

  function Verified(band: AgeBand): User {
    User(band, CohortOf(band), true, None, true)
  }

  const NEW := User(UnknownBand, Unassigned, false, None, true)

  function Joined(db: Db, u: UserId, band: AgeBand): Db {
    db.(users := db.users[u := Verified(band)], adults := if band == AdultBand then db.adults + {u} else db.adults)
  }

  lemma SigningUp(db: Db, u: UserId)
    requires u !in db.users
    ensures Next(db, SignUp(u), 0) == db.(users := db.users[u := NEW])
  {
  }

  lemma Storing(db: Db, u: UserId, band: AgeBand)
    requires u !in db.users && band != UnknownBand
    ensures Next(db.(users := db.users[u := NEW]), Store(u, band, true), 0) == Joined(db, u, band)
  {
    assert db.users[u := NEW][u := Verified(band)] == db.users[u := Verified(band)];
  }

  lemma SignUpAndVerify(reached: Db -> bool, also: set<Step>, db: Db, u: UserId, band: AgeBand)
    requires Closed(reached, also) && reached(db) && u !in db.users && u !in db.adults && band != UnknownBand
    ensures reached(Joined(db, u, band))
  {
    SigningUp(db, u);
    Storing(db, u, band);
    var signed := db.(users := db.users[u := NEW]);
    Move(reached, also, db, SignUp(u), signed);
    Move(reached, also, signed, Store(u, band, true), Joined(db, u, band));
  }

  // ----- An interrupted verification -----

  /** Teens 1 and 2 talk in conversation 7; adult 3 is linked to 1. */
  function TeensTalking(): Db {
    Db(map[1 := Verified(From16To17), 2 := Verified(From16To17), 3 := Verified(AdultBand)],
       map[7 := Conv(Direct, Teen)],
       map[(7, 1) := Part(Active, Admin), (7, 2) := Part(Active, Member)],
       map[(3, 1) := true], map[], {}, map[], {3}, {})
  }

  function TeensInvited(): Db {
    TeensTalking().(parts := map[(7, 1) := Part(Active, Admin), (7, 2) := Part(Invited, Member)])
  }

  function TeensApart(): Db {
    TeensTalking().(convs := map[], parts := map[])
  }

  lemma TeensLink()
    ensures Next(Joined(Joined(Joined(EMPTY, 1, From16To17), 2, From16To17), 3, AdultBand), Link(3, 1), 0)
        == TeensApart()
  {
  }

  lemma TeensOpen()
    ensures Next(TeensApart(), OpenDirect(1, 2, true, 7), 0) == TeensInvited()
  {
  }

  lemma TeensAccept()
    ensures Next(TeensInvited(), Accept(2, 7), 0) == TeensTalking()
  {
  }

  lemma TeensTalk(reached: Db -> bool)
    requires Closed(reached, {}) && reached(EMPTY)
    ensures reached(TeensTalking())
  {
    var a := Joined(EMPTY, 1, From16To17);
    var b := Joined(a, 2, From16To17);
    var c := Joined(b, 3, AdultBand);
    SignUpAndVerify(reached, {}, EMPTY, 1, From16To17);
    SignUpAndVerify(reached, {}, a, 2, From16To17);
    SignUpAndVerify(reached, {}, b, 3, AdultBand);
    TeensLink();
    Move(reached, {}, c, Link(3, 1), TeensApart());
    TeensOpen();
    Move(reached, {}, TeensApart(), OpenDirect(1, 2, true, 7), TeensInvited());
    TeensAccept();
    Move(reached, {}, TeensInvited(), Accept(2, 7), TeensTalking());
  }

  /** The band of 1 is stored, the eviction is still to come. */
  function Interrupted(band: AgeBand): Db {
    StoreBand(TeensTalking(), 1, band, true)
  }

  lemma InterruptedIsReached(band: AgeBand) returns (run: seq<(Step, int)>)
    ensures AllowedRun(run) && After(run) == Interrupted(band)
  {
    var reached: Db -> bool := (db: Db) => Reached(db, {});
    ReachedIsClosed(reached, {});
    TeensTalk(reached);
    Move(reached, {}, TeensTalking(), Store(1, band, true), Interrupted(band));
    run := RunTo(Interrupted(band), {});
  }

  lemma LeakedKey()
    ensures var db := Interrupted(AdultBand);
            && db.IsA(1, Adult) && db.convs[7].cohort == Teen && !Safe(db)
            && Send(db, 2, 7, 0, 256, 9).Done? && 1 in Send(db, 2, 7, 0, 256, 9).db.messages[9].keys
  {
    var db := Interrupted(AdultBand);
    assert !RowSafe(db, (7, 1));
    assert (7, 1) in db.parts && (7, 2) in db.parts;
    assert db.Members(7) == {1, 2};
  }

  /** An allowed run that stops between the two commits of a verification: a message sent then is
      wrapped for an adult in a TEEN conversation. */
  lemma InterruptedVerificationLeaks() returns (run: seq<(Step, int)>)
    ensures AllowedRun(run) && After(run) == Interrupted(AdultBand)
    ensures var db := Interrupted(AdultBand);
            && db.IsA(1, Adult) && db.convs[7].cohort == Teen && !Safe(db)
            && Send(db, 2, 7, 0, 256, 9).Done? && 1 in Send(db, 2, 7, 0, 256, 9).db.messages[9].keys
  {
    LeakedKey();
    run := InterruptedIsReached(AdultBand);
  }

  function Admitted(): Db {
    Put(Interrupted(Under16), (7, 3), Part(Active, Guardian))
  }

  lemma Admitting()
    ensures Next(Interrupted(Under16), Observe(3, 7, true), 0) == Admitted()
    ensures Admitted().IsA(3, Adult) && Admitted().convs[7].cohort == Teen && Admitted().CanView(3, 7, 0)
  {
    assert (3, 1) in Interrupted(Under16).links && 1 in Interrupted(Under16).ChildWardsIn(3, 7);
  }

  /** In the same window an adult comes to observe, and read, a TEEN conversation. */
  lemma InterruptedVerificationAdmits() returns (run: seq<(Step, int)>)
    ensures AllowedRun(run) && After(run) == Admitted()
    ensures Admitted().IsA(3, Adult) && Admitted().convs[7].cohort == Teen && Admitted().CanView(3, 7, 0)
  {
    Admitting();
    var reached: Db -> bool := (db: Db) => Reached(db, {});
    ReachedIsClosed(reached, {});
    TeensTalk(reached);
    Move(reached, {}, TeensTalking(), Store(1, Under16, true), Interrupted(Under16));
    Move(reached, {}, Interrupted(Under16), Observe(3, 7, true), Admitted());
    run := RunTo(Admitted(), {});
  }

  // ----- Without the hypothesis -----

  /** Accepting keeps isolation exactly when the accepted row is not an old observer row: the
      invitation keeps the row's role, and the cohort check then admits a child as observer. */
  lemma AcceptSafeIff(db: Db, u: UserId, c: ConvId, now: int)
    requires Safe(db) && AcceptInvite(db, u, c, now).Done?
    ensures Safe(AcceptInvite(db, u, c, now).db) <==> db.parts[(c, u)].role != Guardian
  {
    var k, after := (c, u), AcceptInvite(db, u, c, now).db;
    if db.parts[k].role != Guardian {
      forall j | j in after.parts ensures RowSafe(after, j) {
        assert RowSafe(db, j);
        assert db.ChildWardsIn(j.1, j.0) <= after.ChildWardsIn(j.1, j.0);
      }
    } else {
      assert !RowSafe(after, k);
    }
  }

  /** The one step outside the hypothesis: the adult who observed is proven under 16. */
  const REPROOF := Store(1, Under16, true)

  const CONSENT := Consent(true, Some(100))

  /** Children 2 and 3, whose guardians 1 and 4 consented; 4 also guards 1. */
  function Family(): Db {
    Db(map[1 := Verified(AdultBand), 2 := Verified(Under16), 3 := Verified(Under16), 4 := Verified(AdultBand)],
       map[], map[],
       map[(1, 2) := true, (4, 3) := true, (4, 1) := true],
       map[(2, 1) := CONSENT, (3, 4) := CONSENT],
       {}, map[], {1, 4}, {})
  }

  /** Child 2 opened group 7 with 3 invited. */
  function GroupOpen(): Db {
    Family().(convs := map[7 := Conv(Group, Child)],
              parts := map[(7, 2) := Part(Active, Admin), (7, 3) := Part(Invited, Member)])
  }

  /** The row of user 1 in group 7, at each point of the story. */
  function WithRow(db: Db, p: Part): Db {
    Put(db, (7, 1), p)
  }

  /** User 1 left group 7, was proven under 16 and evicted, and has a consent of their own. */
  function Reproven(): Db {
    var db := WithRow(GroupOpen(), Part(Left, Guardian));
    db.(users := db.users[1 := Verified(Under16)], consents := db.consents[(1, 4) := CONSENT])
  }

  lemma FamilyLinks()
    ensures var a := Joined(Joined(Joined(Joined(EMPTY, 1, AdultBand), 2, Under16), 3, Under16), 4, AdultBand);
            && Next(a, Link(1, 2), 0) == a.(links := map[(1, 2) := true])
            && Next(a.(links := map[(1, 2) := true]), Link(4, 3), 0) == a.(links := map[(1, 2) := true, (4, 3) := true])
            && Next(a.(links := map[(1, 2) := true, (4, 3) := true]), Link(4, 1), 0) == Family().(consents := map[])
  {
  }

  lemma FamilyConsents()
    ensures var a := Family().(consents := map[]);
            && Next(a, Consenting(1, 2, 100), 0) == a.(consents := map[(2, 1) := CONSENT])
            && Next(a.(consents := map[(2, 1) := CONSENT]), Consenting(4, 3, 100), 0) == Family()
  {
  }

  lemma FamilyIsReached(reached: Db -> bool, also: set<Step>)
    requires Closed(reached, also) && reached(EMPTY)
    ensures reached(Family())
  {
    var a := Joined(EMPTY, 1, AdultBand);
    var b := Joined(a, 2, Under16);
    var c := Joined(b, 3, Under16);
    var d := Joined(c, 4, AdultBand);
    SignUpAndVerify(reached, also, EMPTY, 1, AdultBand);
    SignUpAndVerify(reached, also, a, 2, Under16);
    SignUpAndVerify(reached, also, b, 3, Under16);
    SignUpAndVerify(reached, also, c, 4, AdultBand);
    FamilyLinks();
    Move(reached, also, d, Link(1, 2), d.(links := map[(1, 2) := true]));
    Move(reached, also, d.(links := map[(1, 2) := true]), Link(4, 3), d.(links := map[(1, 2) := true, (4, 3) := true]));
    var e := Family().(consents := map[]);
    Move(reached, also, d.(links := map[(1, 2) := true, (4, 3) := true]), Link(4, 1), e);
    FamilyConsents();
    Move(reached, also, e, Consenting(1, 2, 100), e.(consents := map[(2, 1) := CONSENT]));
    Move(reached, also, e.(consents := map[(2, 1) := CONSENT]), Consenting(4, 3, 100), Family());
  }

  lemma ConsentsHold(db: Db)
    requires Family().consents.Keys <= db.consents.Keys && forall k :: k in db.consents ==> db.consents[k] == CONSENT
    ensures db.HasValidConsent(2, 0) && db.HasValidConsent(3, 0)
    ensures (1, 4) in db.consents ==> db.HasValidConsent(1, 0)
  {
    assert (2, 1) in db.consents && (3, 4) in db.consents;
  }

  lemma ChildrenMayTalk()
    ensures Family().CanMessage(2, 3, 0)
  {
    ConsentsHold(Family());
  }

  lemma Opening()
    ensures Next(Family(), OpenGroup(2, [3], true, 256, 7), 0) == GroupOpen()
  {
    ChildrenMayTalk();
    assert Distinct([3], {2}) == {3};
    assert InviteAll(map[(7, 2) := Part(Active, Admin)], 7, {3}) == GroupOpen().parts;
    assert StartGroup(Family(), 2, [3], 0, true, 256, 7) == Done(GroupOpen());
  }

  lemma StartsObserving(db: Db, g: UserId, c: ConvId)
    requires db.IsA(g, Adult) && db.CanParticipate(g, 0) && db.ChildWardsIn(g, c) != {} && !db.InState((c, g), Active)
    ensures Next(db, Observe(g, c, true), 0) == Put(db, (c, g), Part(Active, Guardian))
  {
  }

  lemma Observing()
    ensures Next(GroupOpen(), Observe(1, 7, true), 0) == WithRow(GroupOpen(), Part(Active, Guardian))
  {
    assert (1, 2) in GroupOpen().links && 2 in GroupOpen().ChildWardsIn(1, 7);
    StartsObserving(GroupOpen(), 1, 7);
  }

  lemma NothingToPrune(db: Db, convs: set<ConvId>)
    requires forall k :: k in db.parts ==> !db.Observes(k)
    ensures PruneIn(db, convs) == db
  {
    assert PruneIn(db, convs).parts == db.parts;
  }

  lemma NothingToEnd(db: Db, u: UserId)
    requires forall k :: k in db.parts && k.1 == u ==> !db.Present(k)
    requires forall k :: k in db.parts ==> !db.Observes(k)
    ensures RemoveUser(db, u) == db.(pending := db.pending - {u})
  {
    assert Evict(db, u).parts == db.parts;
    NothingToPrune(Evict(db, u), PresentIn(db, u));
  }

  lemma RowReplaced(db: Db, p: Part, q: Part)
    ensures Put(WithRow(db, p), (7, 1), q) == WithRow(db, q)
  {
  }

  lemma Quitting()
    ensures Next(WithRow(GroupOpen(), Part(Active, Guardian)), Quit(1, 7), 0)
        == WithRow(GroupOpen(), Part(Left, Guardian))
  {
    var seen := WithRow(GroupOpen(), Part(Active, Guardian));
    RowReplaced(GroupOpen(), Part(Active, Guardian), Part(Left, Guardian));
    NothingToPrune(WithRow(GroupOpen(), Part(Left, Guardian)), {7});
    assert seen.parts[(7, 1)] == Part(Active, Guardian);
    assert Leave(seen, 1, 7) == Done(WithRow(GroupOpen(), Part(Left, Guardian)));
  }

  /** The band of user 1 is stored, before the eviction. */
  function Reproving(): Db {
    var db := WithRow(GroupOpen(), Part(Left, Guardian));
    db.(users := db.users[1 := Verified(Under16)], pending := {1})
  }

  lemma Reproofs()
    ensures Next(WithRow(GroupOpen(), Part(Left, Guardian)), REPROOF, 0) == Reproving()
  {
  }

  lemma Evicting()
    ensures Next(Reproving(), Pause(1), 0) == Reproving().(pending := {})
  {
    var db := Reproving();
    assert db.parts.Keys == {(7, 1), (7, 2), (7, 3)};
    assert db.parts[(7, 1)] == Part(Left, Guardian) && db.parts[(7, 2)].role == Admin;
    assert db.parts[(7, 3)].role == Member;
    NothingToEnd(db, 1);
    Evicts(db, 1);
  }

  lemma Evicts(db: Db, u: UserId)
    ensures Next(db, Pause(u), 0) == RemoveUser(db, u)
  {
  }

  lemma Reconsenting()
    ensures Next(Reproving().(pending := {}), Consenting(4, 1, 100), 0) == Reproven()
  {
  }

  lemma TwoPresent()
    ensures PresentCount(Reproven(), 7) == 2
  {
    var db := Reproven();
    var present := set k | k in db.parts && k.0 == 7 && db.Present(k);
    assert present == {(7, 2), (7, 3)} by {
      assert (7, 2) in present && (7, 3) in present;
    }
  }

  lemma MayContact()
    ensures Reproven().CanMessage(2, 1, 0)
  {
    ConsentsHold(Reproven());
  }

  lemma InvitesBack(db: Db, actor: UserId, c: ConvId, target: UserId, cap: int)
    requires c in db.convs && db.convs[c].kind == Group && ActiveAdmin(db, actor, c)
    requires db.CanMessage(actor, target, 0) && db.users[target].cohort == db.convs[c].cohort
    requires (c, target) in db.parts && !db.Present((c, target)) && PresentCount(db, c) < cap
    ensures Next(db, Add(actor, c, target, cap), 0) == Put(db, (c, target), db.parts[(c, target)].(state := Invited))
  {
  }

  lemma Inviting()
    ensures Next(Reproven(), Add(2, 7, 1, 256), 0) == WithRow(Reproven(), Part(Invited, Guardian))
  {
    TwoPresent();
    MayContact();
    var db := Reproven();
    assert db.parts[(7, 1)] == Part(Left, Guardian) && db.parts[(7, 2)] == Part(Active, Admin);
    InvitesBack(db, 2, 7, 1, 256);
  }

  lemma MayTakePart()
    ensures WithRow(Reproven(), Part(Invited, Guardian)).CanParticipate(1, 0)
  {
    ConsentsHold(WithRow(Reproven(), Part(Invited, Guardian)));
  }

  lemma Accepting()
    ensures Next(WithRow(Reproven(), Part(Invited, Guardian)), Accept(1, 7), 0)
        == WithRow(Reproven(), Part(Active, Guardian))
  {
    MayTakePart();
    RowReplaced(Reproven(), Part(Invited, Guardian), Part(Active, Guardian));
    var db := WithRow(Reproven(), Part(Invited, Guardian));
    assert AcceptInvite(db, 1, 7, 0) == Done(WithRow(Reproven(), Part(Active, Guardian)));
  }

  lemma GroupIsReached(reached: Db -> bool, also: set<Step>)
    requires Closed(reached, also) && reached(Family())
    ensures reached(GroupOpen())
  {
    Opening();
    Move(reached, also, Family(), OpenGroup(2, [3], true, 256, 7), GroupOpen());
  }

  lemma LeftIsReached(reached: Db -> bool, also: set<Step>)
    requires Closed(reached, also) && reached(GroupOpen())
    ensures reached(WithRow(GroupOpen(), Part(Left, Guardian)))
  {
    Observing();
    Move(reached, also, GroupOpen(), Observe(1, 7, true), WithRow(GroupOpen(), Part(Active, Guardian)));
    Quitting();
    Move(reached, also, WithRow(GroupOpen(), Part(Active, Guardian)), Quit(1, 7),
      WithRow(GroupOpen(), Part(Left, Guardian)));
  }

  lemma ReprovenIsReached(reached: Db -> bool)
    requires Closed(reached, {REPROOF}) && reached(WithRow(GroupOpen(), Part(Left, Guardian)))
    ensures reached(Reproven())
  {
    Reproofs();
    Move(reached, {REPROOF}, WithRow(GroupOpen(), Part(Left, Guardian)), REPROOF, Reproving());
    Evicting();
    Move(reached, {REPROOF}, Reproving(), Pause(1), Reproving().(pending := {}));
    Reconsenting();
    Move(reached, {REPROOF}, Reproving().(pending := {}), Consenting(4, 1, 100), Reproven());
  }

  lemma RejoinedIsReached(reached: Db -> bool)
    requires Closed(reached, {REPROOF}) && reached(Reproven())
    ensures reached(WithRow(Reproven(), Part(Active, Guardian)))
  {
    Inviting();
    Move(reached, {REPROOF}, Reproven(), Add(2, 7, 1, 256), WithRow(Reproven(), Part(Invited, Guardian)));
    Accepting();
    Move(reached, {REPROOF}, WithRow(Reproven(), Part(Invited, Guardian)), Accept(1, 7),
      WithRow(Reproven(), Part(Active, Guardian)));
  }

  lemma RejoinedIsUnsafe()
    ensures Safe(Reproven())
    ensures var db := WithRow(Reproven(), Part(Active, Guardian)); !Safe(db) && Quiet(db) && db.IsA(1, Child)
  {
    var db := Reproven();
    assert RowSafe(db, (7, 1)) && RowSafe(db, (7, 2)) && RowSafe(db, (7, 3));
    assert !RowSafe(WithRow(db, Part(Active, Guardian)), (7, 1));
  }

  /** A run whose only step outside the hypothesis is proving a former observer under 16, and in
      which the eviction follows at once, ends with a child as observer: the hypothesis is needed. */
  lemma ReprovenObserverRejoins() returns (run: seq<(Step, int)>)
    ensures RunWith(run, {REPROOF}) && After(run) == WithRow(Reproven(), Part(Active, Guardian))
    ensures var db := WithRow(Reproven(), Part(Active, Guardian)); !Safe(db) && Quiet(db) && db.IsA(1, Child)
  {
    RejoinedIsUnsafe();
    var reached: Db -> bool := (db: Db) => Reached(db, {REPROOF});
    ReachedIsClosed(reached, {REPROOF});
    FamilyIsReached(reached, {REPROOF});
    GroupIsReached(reached, {REPROOF});
    LeftIsReached(reached, {REPROOF});
    ReprovenIsReached(reached);
    RejoinedIsReached(reached);
    run := RunTo(WithRow(Reproven(), Part(Active, Guardian)), {REPROOF});
  }
}
