/** Cohort isolation over every run of the membership, guardianship, assurance and erasure steps.
    A verification stores the band and evicts in separate transactions; until the second one, which
    may never come, isolation holds for everybody but the user concerned. */
module CohortSafety {
  import opened Options
  import opened Membership

  // ----- Isolation -----

  /** What isolation promises for one membership row. */
  ghost predicate RowSafe(db: Db, k: Key) {
    && k in db.parts && k.0 in db.convs && k.1 in db.users
    && (db.Present(k) && db.parts[k].role != Guardian ==> db.users[k.1].cohort == db.convs[k.0].cohort)
    && (db.Observes(k) ==> db.IsA(k.1, Adult) && db.convs[k.0].cohort == Child && db.ChildWardsIn(k.1, k.0) != {})
  }

  ghost predicate Safe(db: Db) {
    && (forall c :: c in db.convs ==> db.convs[c].cohort != Unassigned)
    && (forall k :: k in db.parts ==> RowSafe(db, k))
  }

  /** A row an observer once got in a conversation that is not for children. */
  predicate Stray(db: Db, k: Key) {
    k in db.parts && db.parts[k].role == Guardian && k.0 in db.convs && db.convs[k.0].cohort != Child
  }

  /** Observer rows belong to people once proven adult, and in CHILD conversations never wait for an
      answer; nobody once proven adult is a child. */
  ghost predicate ObserverRowOk(db: Db, k: Key)
    requires k in db.parts
  {
    db.parts[k].role == Guardian ==>
      k.1 in db.adults && k.0 in db.convs && (db.convs[k.0].cohort == Child ==> db.parts[k].state != Invited)
  }

  ghost predicate Settled(db: Db) {
    && (forall u :: u in db.users && u in db.adults ==> db.users[u].cohort != Child)
    && (forall u :: u in db.users && db.users[u].cohort == Adult ==> u in db.adults)
    && (forall k :: k in db.parts ==> ObserverRowOk(db, k))
  }

  /** Isolation for a row, unless its user is `late` to be evicted: whoever crosses cohorts is an adult
      observing a ward, except that a `loose` observer may have lost theirs. */
  ghost predicate RowKept(db: Db, k: Key, late: set<UserId>, loose: bool) {
    && k in db.parts && k.0 in db.convs && k.1 in db.users
    && (k.1 !in late && db.Present(k) && db.parts[k].role != Guardian ==> db.users[k.1].cohort == db.convs[k.0].cohort)
    && (k.1 !in late && db.Observes(k) && db.users[k.1].cohort != db.convs[k.0].cohort ==>
          db.IsA(k.1, Adult) && (loose || db.Basis(k.1, k.0, late) != {}))
  }

  ghost predicate Kept(db: Db, late: set<UserId>, loose: set<ConvId>) {
    && Settled(db)
    && (forall c :: c in db.convs ==> db.convs[c].cohort != Unassigned)
    && (forall k :: k in db.parts ==> RowKept(db, k, late, k.0 in loose))
  }

  /** What every step keeps: isolation for everyone whose eviction is not pending. */
  ghost predicate Inv(db: Db) {
    Kept(db, db.pending, {})
  }

  predicate NoStrays(db: Db) {
    forall k :: k in db.parts ==> !Stray(db, k)
  }

  /** Nobody crosses cohorts: members share the conversation's, and so does everyone observing but an
      adult in a CHILD conversation with an active CHILD ward there. */
  ghost predicate RowIsolated(db: Db, k: Key) {
    && k in db.parts && k.0 in db.convs && k.1 in db.users
    && (db.Present(k) && db.parts[k].role != Guardian ==> db.users[k.1].cohort == db.convs[k.0].cohort)
    && (db.Observes(k) ==>
          db.users[k.1].cohort == db.convs[k.0].cohort
          || (db.IsA(k.1, Adult) && db.convs[k.0].cohort == Child && db.ChildWardsIn(k.1, k.0) != {}))
  }

  ghost predicate Isolated(db: Db) {
    && (forall c :: c in db.convs ==> db.convs[c].cohort != Unassigned)
    && (forall k :: k in db.parts ==> RowIsolated(db, k))
  }

  /** Once no eviction is pending, nobody crosses cohorts, whatever was interrupted before. */
  lemma NothingPendingIsIsolated(db: Db)
    requires Inv(db) && db.pending == {}
    ensures Isolated(db)
  {
    forall k | k in db.parts ensures RowIsolated(db, k) {
      assert RowKept(db, k, {}, false);
      if db.Observes(k) && db.users[k.1].cohort != db.convs[k.0].cohort {
        var w :| w in db.Basis(k.1, k.0, {});
        assert RowKept(db, (k.0, w), {}, false) && w in db.ChildWardsIn(k.1, k.0);
      }
    }
  }

  /** If moreover no observer row was ever got outside CHILD conversations, all observers are adults. */
  lemma NothingPendingIsSafe(db: Db)
    requires Inv(db) && db.pending == {} && NoStrays(db)
    ensures Safe(db)
  {
    NothingPendingIsIsolated(db);
    forall k | k in db.parts ensures RowSafe(db, k) {
      assert RowIsolated(db, k) && ObserverRowOk(db, k);
    }
  }

  // ----- Wards -----

  lemma ChildWardsAreBasis(db: Db, g: UserId, c: ConvId, late: set<UserId>)
    requires Settled(db)
    ensures db.ChildWardsIn(g, c) <= db.Basis(g, c, late)
  {
    forall w | w in db.ChildWardsIn(g, c) ensures w in db.Basis(g, c, late) {
      assert ObserverRowOk(db, (c, w));
    }
  }

  /** What an observer rests on survives a step that keeps the links and every such ward speaking. */
  lemma BasisKept(a: Db, b: Db, g: UserId, c: ConvId, late: set<UserId>, later: set<UserId>)
    requires forall l :: l in a.links && a.links[l] && l.0 == g ==> l in b.links && b.links[l]
    requires forall w ::
               (a.InState((c, w), Active) && a.parts[(c, w)].role != Guardian && (a.IsA(w, Child) || w in late)) ==>
               b.InState((c, w), Active) && b.parts[(c, w)].role != Guardian && (b.IsA(w, Child) || w in later)
    ensures a.Basis(g, c, late) <= b.Basis(g, c, later)
  {
  }

  ghost predicate OnlyObserversEnd(a: Db, b: Db) {
    && b == a.(parts := b.parts) && a.parts.Keys == b.parts.Keys
    && forall k :: k in a.parts && b.parts[k] != a.parts[k] ==>
       a.Observes(k) && b.parts[k] == a.parts[k].(state := Removed)
  }

  /** No active observer is a child, so ending observers takes no ward away. The services rely on it. */
  ghost predicate Grown(db: Db) {
    forall k :: k in db.parts && db.Observes(k) ==> !db.IsA(k.1, Child)
  }

  lemma SettledIsGrown(db: Db)
    requires Settled(db)
    ensures Grown(db)
  {
    forall k | k in db.parts && db.Observes(k) ensures !db.IsA(k.1, Child) {
      assert ObserverRowOk(db, k);
    }
  }

  lemma WardsUnmoved(a: Db, b: Db, g: UserId, c: ConvId)
    requires Grown(a) && OnlyObserversEnd(a, b)
    ensures b.ChildWardsIn(g, c) == a.ChildWardsIn(g, c)
  {
    forall l | l in a.links && l.0 == g && a.links[l]
      ensures b.InState((c, l.1), Active) && b.IsA(l.1, Child) <==> a.InState((c, l.1), Active) && a.IsA(l.1, Child)
    {
    }
  }

  /** Ending observers leaves every other observer something to rest on. */
  lemma StillRests(a: Db, b: Db, k: Key, late: set<UserId>)
    requires Settled(a) && OnlyObserversEnd(a, b)
    requires a.ChildWardsIn(k.1, k.0) != {} || a.Basis(k.1, k.0, late) != {}
    ensures b.Basis(k.1, k.0, late) != {}
  {
    ChildWardsAreBasis(a, k.1, k.0, late);
    BasisKept(a, b, k.1, k.0, late, late);
  }

  // ----- Pruning restores the observers' basis -----

  lemma PruneRestores(db: Db, late: set<UserId>, loose: set<ConvId>)
    requires Kept(db, late, loose)
    ensures Kept(PruneIn(db, loose), late, {})
  {
    var after := PruneIn(db, loose);
    forall k | k in after.parts ensures RowKept(after, k, late, false) && ObserverRowOk(after, k) {
      assert RowKept(db, k, late, k.0 in loose) && ObserverRowOk(db, k);
      if db.ChildWardsIn(k.1, k.0) != {} || db.Basis(k.1, k.0, late) != {} {
        StillRests(db, after, k, late);
      }
    }
  }

  // ----- Removing a user -----

  /** Whatever was wrong with a user's rows, and whoever relied on them, a removal puts it right. */
  lemma RemoveUserRestores(db: Db, u: UserId)
    requires Kept(db, db.pending + {u}, {})
    ensures Inv(RemoveUser(db, u))
  {
    var out, convs := Evict(db, u), PresentIn(db, u);
    forall k | k in out.parts ensures RowKept(out, k, out.pending, k.0 in convs) && ObserverRowOk(out, k) {
      EvictRow(db, u, k);
    }
    PruneRestores(out, out.pending, convs);
  }

  lemma EvictRow(db: Db, u: UserId, k: Key)
    requires Kept(db, db.pending + {u}, {}) && k in db.parts
    ensures RowKept(Evict(db, u), k, db.pending - {u}, k.0 in PresentIn(db, u)) && ObserverRowOk(Evict(db, u), k)
  {
    assert RowKept(db, k, db.pending + {u}, false) && ObserverRowOk(db, k);
    if k.0 !in PresentIn(db, u) {
      BasisWithout(db, u, k);
    }
  }

  lemma BasisWithout(db: Db, u: UserId, k: Key)
    requires k.0 !in PresentIn(db, u)
    ensures db.Basis(k.1, k.0, db.pending + {u}) <= Evict(db, u).Basis(k.1, k.0, db.pending - {u})
  {
    assert !db.InState((k.0, u), Active) by {
      assert db.Present((k.0, u)) ==> k.0 in PresentIn(db, u);
    }
    BasisKept(db, Evict(db, u), k.1, k.0, db.pending + {u}, db.pending - {u});
  }

  /** After the removal the user is active or invited nowhere. */
  lemma RemovedIsAbsent(db: Db, u: UserId)
    ensures forall c :: !RemoveUser(db, u).Present((c, u))
  {
    forall c ensures !RemoveUser(db, u).Present((c, u)) {
      assert !Evict(db, u).Present((c, u));
    }
  }

  lemma MoreLate(db: Db, late: set<UserId>, later: set<UserId>)
    requires Kept(db, late, {}) && late <= later
    ensures Kept(db, later, {})
  {
    forall k | k in db.parts ensures RowKept(db, k, later, false) {
      assert RowKept(db, k, late, false);
      BasisKept(db, db, k.1, k.0, late, later);
    }
  }

  lemma RemoveUserKeeps(db: Db, u: UserId)
    requires Inv(db)
    ensures Inv(RemoveUser(db, u)) && forall c :: !RemoveUser(db, u).Present((c, u))
  {
    MoreLate(db, db.pending, db.pending + {u});
    RemoveUserRestores(db, u);
    RemovedIsAbsent(db, u);
  }

  lemma WardsAfterEviction(db: Db, u: UserId, g: UserId, c: ConvId)
    ensures Evict(db, u).ChildWardsIn(g, c) == db.ChildWardsIn(g, c) - {u}
  {
    assert forall w :: Evict(db, u).InState((c, w), Active) <==> db.InState((c, w), Active) && w != u;
  }

  /** A removal ends exactly the user's own presence and, in the user's conversations, the observers
      left with no ward; where isolation holds, these are those whose only ward the user was. */
  lemma RemovalIsExact(db: Db, u: UserId, k: Key)
    requires k in db.parts
    ensures RemoveUser(db, u).parts[k]
         == if (k.1 == u && db.Present(k))
               || (k.1 != u && k.0 in PresentIn(db, u) && db.Observes(k) && db.ChildWardsIn(k.1, k.0) <= {u})
            then db.parts[k].(state := Removed) else db.parts[k]
    ensures Safe(db) && k.1 != u && db.Observes(k) ==>
              (k.0 in PresentIn(db, u) && db.ChildWardsIn(k.1, k.0) <= {u} <==> db.ChildWardsIn(k.1, k.0) == {u})
  {
    WardsAfterEviction(db, u, k.1, k.0);
    if Safe(db) && db.Observes(k) {
      assert RowSafe(db, k);
      if db.ChildWardsIn(k.1, k.0) == {u} {
        assert u in db.ChildWardsIn(k.1, k.0);
        assert (k.0, u) in db.parts && db.Present((k.0, u));
      }
    }
  }

  // ----- Changing one row -----

  /** A non-observer row moves to any state; observers of its conversation may lose their ward. */
  lemma PutMember(db: Db, k: Key, p: Part)
    requires Inv(db) && k.0 in db.convs && k.1 in db.users && p.role != Guardian
    requires p.state == Active || p.state == Invited ==> db.users[k.1].cohort == db.convs[k.0].cohort
    ensures Kept(Put(db, k, p), db.pending, {k.0})
    ensures p.state == Active || !db.InState(k, Active) ==> Inv(Put(db, k, p))
  {
    var after := Put(db, k, p);
    forall j | j in after.parts
      ensures RowKept(after, j, db.pending, j.0 == k.0) && ObserverRowOk(after, j)
      ensures p.state == Active || !db.InState(k, Active) ==> RowKept(after, j, db.pending, false)
    {
      if j != k {
        RowBeside(db, k, p, j);
      }
    }
  }

  lemma RowBeside(db: Db, k: Key, p: Part, j: Key)
    requires Inv(db) && j in db.parts && j != k
    requires p.role != Guardian || (k in db.parts && db.parts[k].role == Guardian)
    ensures RowKept(Put(db, k, p), j, db.pending, j.0 == k.0) && ObserverRowOk(Put(db, k, p), j)
    ensures p.state == Active || !db.InState(k, Active) ==> RowKept(Put(db, k, p), j, db.pending, false)
  {
    var after := Put(db, k, p);
    assert RowKept(db, j, db.pending, false) && ObserverRowOk(db, j);
    if after.Observes(j) && (j.0 != k.0 || p.state == Active || !db.InState(k, Active)) {
      BasisKept(db, after, j.1, j.0, db.pending, db.pending);
    }
  }

  /** An observer row moves: it ends, or its user now shares the conversation's cohort. */
  lemma PutObserver(db: Db, k: Key, state: State)
    requires Inv(db) && k in db.parts && db.parts[k].role == Guardian
    requires (state != Active && state != Invited)
             || (k.0 in db.convs && db.IsA(k.1, db.convs[k.0].cohort))
    ensures Inv(Put(db, k, db.parts[k].(state := state)))
  {
    var p := db.parts[k].(state := state);
    var after := Put(db, k, p);
    assert ObserverRowOk(db, k) && RowKept(db, k, db.pending, false);
    forall j | j in after.parts ensures RowKept(after, j, db.pending, false) && ObserverRowOk(after, j) {
      if j != k {
        assert RowKept(db, j, db.pending, false) && ObserverRowOk(db, j);
        if after.Observes(j) {
          BasisKept(db, after, j.1, j.0, db.pending, db.pending);
        }
      }
    }
  }

  lemma InvIsLoose(db: Db, c: ConvId)
    requires Inv(db)
    ensures Kept(db, db.pending, {c})
  {
    forall k | k in db.parts ensures RowKept(db, k, db.pending, k.0 == c) {
      assert RowKept(db, k, db.pending, false);
    }
  }

  /** Leaving, declining and being removed: the row goes, then its conversation is pruned. */
  lemma GoneThenPruned(db: Db, k: Key, state: State)
    requires Inv(db) && k in db.parts && state != Active && state != Invited
    ensures Inv(PruneIn(Put(db, k, db.parts[k].(state := state)), {k.0}))
  {
    var gone := Put(db, k, db.parts[k].(state := state));
    assert RowKept(db, k, db.pending, false);
    if db.parts[k].role == Guardian {
      PutObserver(db, k, state);
      InvIsLoose(gone, k.0);
    } else {
      PutMember(db, k, db.parts[k].(state := state));
    }
    PruneRestores(gone, db.pending, {k.0});
  }

  /** A row whose user shares the conversation's cohort comes to life. */
  lemma JoinKeeps(db: Db, k: Key, state: State)
    requires Inv(db) && k in db.parts && k.0 in db.convs && k.1 in db.users
    requires db.users[k.1].cohort == db.convs[k.0].cohort && (state == Active || !db.InState(k, Active))
    ensures Inv(Put(db, k, db.parts[k].(state := state)))
  {
    if db.parts[k].role == Guardian {
      assert ObserverRowOk(db, k);
      PutObserver(db, k, state);
    } else {
      PutMember(db, k, db.parts[k].(state := state));
    }
  }

  lemma AddParticipantKeeps(db: Db, actor: UserId, c: ConvId, target: UserId, now: int, cap: int)
    requires Inv(db) && AddParticipant(db, actor, c, target, now, cap).Done?
    ensures Inv(AddParticipant(db, actor, c, target, now, cap).db)
  {
    var k := (c, target);
    if k in db.parts && !db.Present(k) {
      JoinKeeps(db, k, Invited);
    } else if k !in db.parts {
      PutMember(db, k, Part(Invited, Member));
    }
  }

  lemma AddObserverKeeps(db: Db, g: UserId, c: ConvId, now: int, hasKey: bool)
    requires Inv(db) && AddGuardianObserver(db, g, c, now, hasKey).Done?
    ensures Inv(AddGuardianObserver(db, g, c, now, hasKey).db)
  {
    var k := (c, g);
    if !db.InState(k, Active) {
      var after := Put(db, k, Part(Active, Guardian));
      ChildWardsAreBasis(db, g, c, db.pending);
      var w :| w in db.ChildWardsIn(g, c);
      assert RowKept(db, (c, w), db.pending, false);
      forall j | j in after.parts ensures RowKept(after, j, db.pending, false) && ObserverRowOk(after, j) {
        BasisKept(db, after, j.1, j.0, db.pending, db.pending);
        if j != k {
          assert RowKept(db, j, db.pending, false) && ObserverRowOk(db, j);
        }
      }
    }
  }

  // ----- New conversations -----

  lemma NobodyThere(db: Db, c: ConvId)
    requires Inv(db) && c !in db.convs
    ensures forall k :: k in db.parts ==> k.0 != c
  {
    forall k | k in db.parts ensures k.0 != c {
      assert RowKept(db, k, db.pending, false);
    }
  }

  /** A conversation nobody had rows in opens with members of one assigned cohort. */
  lemma OpeningKeeps(db: Db, after: Db, c: ConvId)
    requires Inv(db) && c !in db.convs && c in after.convs && after.convs[c].cohort != Unassigned
    requires after == db.(convs := db.convs[c := after.convs[c]], parts := after.parts)
    requires forall k :: k in after.parts && k.0 != c ==> k in db.parts && db.parts[k] == after.parts[k]
    requires forall k :: k in db.parts && k.0 != c ==> k in after.parts && db.parts[k] == after.parts[k]
    requires forall k :: k in after.parts && k.0 == c ==>
               after.parts[k].role != Guardian && after.IsA(k.1, after.convs[c].cohort)
    ensures Inv(after)
  {
    forall j | j in after.parts ensures RowKept(after, j, db.pending, false) && ObserverRowOk(after, j) {
      if j.0 != c {
        assert RowKept(db, j, db.pending, false) && ObserverRowOk(db, j);
        BasisKept(db, after, j.1, j.0, db.pending, db.pending);
      }
    }
  }

  lemma StartDirectKeeps(db: Db, a: UserId, b: UserId, now: int, rateOk: bool, c: ConvId)
    requires Inv(db) && c !in db.convs && StartDirect(db, a, b, now, rateOk, c).Done?
    ensures Inv(StartDirect(db, a, b, now, rateOk, c).db)
  {
    NobodyThere(db, c);
    if !HaveDirect(db, a, b) {
      OpeningKeeps(db, StartDirect(db, a, b, now, rateOk, c).db, c);
    }
  }

  lemma StartGroupKeeps(db: Db, a: UserId, targets: seq<UserId>, now: int, rateOk: bool, cap: int, c: ConvId)
    requires Inv(db) && c !in db.convs && StartGroup(db, a, targets, now, rateOk, cap, c).Done?
    ensures Inv(StartGroup(db, a, targets, now, rateOk, cap, c).db)
  {
    NobodyThere(db, c);
    var others, after := Distinct(targets, {a}), StartGroup(db, a, targets, now, rateOk, cap, c).db;
    var t :| t in others;
    assert db.CanMessage(a, t, now);
    forall k | k in after.parts && k.0 == c
      ensures after.parts[k].role != Guardian && db.IsA(k.1, db.users[a].cohort)
    {
      assert k.1 == a || db.CanMessage(a, k.1, now);
    }
    OpeningKeeps(db, after, c);
  }

  // ----- Account steps -----

  /** Steps that leave cohorts, conversations and rows alone and do not end a guardianship. */
  lemma NeutralKeeps(db: Db, after: Db)
    requires Inv(db) && after.convs == db.convs && after.parts == db.parts && after.adults == db.adults
    requires after.pending == db.pending && db.users.Keys <= after.users.Keys
    requires forall u :: u in db.users ==> after.users[u].cohort == db.users[u].cohort
    requires forall u :: u in after.users && u !in db.users ==> after.users[u].cohort == Unassigned
    requires forall l :: l in db.links && db.links[l] ==> l in after.links && after.links[l]
    ensures Inv(after)
  {
    forall k | k in after.parts ensures RowKept(after, k, db.pending, false) && ObserverRowOk(after, k) {
      assert RowKept(db, k, db.pending, false) && ObserverRowOk(db, k);
      BasisKept(db, after, k.1, k.0, db.pending, db.pending);
    }
  }

  /** The hypothesis on re-verification: nobody once proven adult is later proven a child. */
  predicate NeverBackToChild(db: Db, u: UserId, band: AgeBand) {
    u in db.adults ==> CohortOf(band) != Child
  }

  lemma StoreBandRow(db: Db, u: UserId, band: AgeBand, verified: bool, k: Key)
    requires Inv(db) && u in db.users && NeverBackToChild(db, u, band) && k in db.parts
    ensures var after := StoreBand(db, u, band, verified);
            RowKept(after, k, after.pending, false) && ObserverRowOk(after, k)
  {
    var after := StoreBand(db, u, band, verified);
    assert RowKept(db, k, db.pending, false) && ObserverRowOk(db, k);
    if k.1 !in after.pending && after.Observes(k) {
      assert RowKept(db, (k.0, u), db.pending, false) || (k.0, u) !in db.parts;
      BasisKept(db, after, k.1, k.0, db.pending, after.pending);
    }
  }

  /** Storing a band puts at most its user in the wrong place, until the eviction. */
  lemma StoreBandKeeps(db: Db, u: UserId, band: AgeBand, verified: bool)
    requires Inv(db) && u in db.users && NeverBackToChild(db, u, band)
    ensures Inv(StoreBand(db, u, band, verified))
  {
    var after := StoreBand(db, u, band, verified);
    forall k | k in after.parts ensures RowKept(after, k, after.pending, false) && ObserverRowOk(after, k) {
      StoreBandRow(db, u, band, verified, k);
    }
  }

  /** Whether the stored rows already fit the new band: the user is present in no conversation of
      another cohort, observes nothing the new cohort may not, and is nobody's only ward. */
  predicate BandFits(db: Db, u: UserId, band: AgeBand) {
    && (forall k :: k in db.parts && k.1 == u && db.Present(k) && db.parts[k].role != Guardian && k.0 in db.convs ==>
          db.convs[k.0].cohort == CohortOf(band))
    && (forall k :: k in db.parts && k.1 == u && db.Observes(k) ==> CohortOf(band) == Adult)
    && (CohortOf(band) != Child ==> forall k :: k in db.parts && k.1 != u && db.Observes(k) ==>
       db.ChildWardsIn(k.1, k.0) != {u})
  }

  /** Between the two commits of a verification isolation holds exactly when the rows fit already. */
  lemma BandAloneIsSafe(db: Db, u: UserId, band: AgeBand, verified: bool)
    requires Safe(db) && u in db.users
    ensures Safe(StoreBand(db, u, band, verified)) <==> BandFits(db, u, band)
  {
    var after := StoreBand(db, u, band, verified);
    if BandFits(db, u, band) {
      forall k | k in after.parts ensures RowSafe(after, k) {
        BandRow(db, u, band, verified, k);
      }
    } else {
      forall k | k in db.parts ensures RowSafe(db, k) && (RowSafe(after, k) <==> RowFits(db, u, band, k)) {
        BandRow(db, u, band, verified, k);
      }
    }
  }

  predicate RowFits(db: Db, u: UserId, band: AgeBand, k: Key)
    requires k in db.parts
  {
    && (k.1 == u && db.Present(k) && db.parts[k].role != Guardian && k.0 in db.convs ==>
       db.convs[k.0].cohort == CohortOf(band))
    && (k.1 == u && db.Observes(k) ==> CohortOf(band) == Adult)
    && (CohortOf(band) != Child && k.1 != u && db.Observes(k) ==> db.ChildWardsIn(k.1, k.0) != {u})
  }

  lemma BandRow(db: Db, u: UserId, band: AgeBand, verified: bool, k: Key)
    requires Safe(db) && u in db.users && k in db.parts
    ensures RowSafe(db, k) && (RowSafe(StoreBand(db, u, band, verified), k) <==> RowFits(db, u, band, k))
  {
    var after := StoreBand(db, u, band, verified);
    assert RowSafe(db, k);
    BandWards(db, u, band, verified, k.1, k.0);
  }

  lemma BandWards(db: Db, u: UserId, band: AgeBand, verified: bool, g: UserId, c: ConvId)
    requires u in db.users
    ensures var after := StoreBand(db, u, band, verified).ChildWardsIn(g, c);
            && after - {u} == db.ChildWardsIn(g, c) - {u}
            && (CohortOf(band) != Child ==> u !in after)
            && (CohortOf(band) == Child && u in db.ChildWardsIn(g, c) ==> u in after)
            && (db.ChildWardsIn(g, c) != {} ==>
               (after == {} <==> db.ChildWardsIn(g, c) == {u} && CohortOf(band) != Child))
  {
    var before, after := db.ChildWardsIn(g, c), StoreBand(db, u, band, verified).ChildWardsIn(g, c);
    assert after - {u} == before - {u};
    assert before != {} && before - {u} == {} ==> before == {u};
    assert u !in after ==> after == after - {u};
  }

  /** Isolation reads nothing but cohorts, rows and links. */
  ghost predicate SameToIsolation(a: Db, b: Db) {
    && a.parts == b.parts && a.convs == b.convs && a.links == b.links && a.users.Keys == b.users.Keys
    && forall u :: u in a.users ==> a.users[u].cohort == b.users[u].cohort
  }

  lemma SafeReads(a: Db, b: Db)
    requires Safe(a) && SameToIsolation(a, b)
    ensures Safe(b)
  {
    forall k | k in b.parts ensures RowSafe(b, k) {
      assert RowSafe(a, k);
      assert a.ChildWardsIn(k.1, k.0) == b.ChildWardsIn(k.1, k.0);
    }
  }

  lemma StoringAgain(db: Db, u: UserId, band: AgeBand, verified: bool)
    requires u in db.users && db.users[u].cohort == CohortOf(band)
    ensures SameToIsolation(db, StoreBand(db, u, band, verified))
    ensures StoreBand(db, u, band, verified).pending == db.pending
  {
  }

  lemma Recording(db: Db, u: UserId, expires: Option<int>)
    requires u in db.users
    ensures SameToIsolation(db, RecordProof(db, u, expires)) && RecordProof(db, u, expires).pending == db.pending
  {
  }

  lemma RetryChangesNothing(db: Db, u: UserId, band: AgeBand, verified: bool, expires: Option<int>, commits: nat)
    requires u in db.users && db.users[u].cohort == CohortOf(band)
    ensures var after := Assured(db, u, band, verified, expires, commits);
            SameToIsolation(db, after) && after.pending == db.pending
  {
    assert !ChangesCohort(db, u, band);
    var stored := if commits >= 1 then StoreBand(db, u, band, verified) else db;
    StoringAgain(db, u, band, verified);
    Recording(stored, u, expires);
    assert Assured(db, u, band, verified, expires, commits) == if commits >= 3 then RecordProof(stored, u, expires)
      else stored;
  }

  /** Verifying again to the same cohort does not finish an interrupted verification. */
  lemma RetryRepairsNothing(db: Db, after: Db, u: UserId, band: AgeBand, verified: bool, expires: Option<int>,
      commits: nat)
    requires u in db.users && db.users[u].cohort == CohortOf(band)
    requires after == Assured(db, u, band, verified, expires, commits)
    ensures after.parts == db.parts && after.pending == db.pending && (Safe(after) <==> Safe(db))
  {
    RetryChangesNothing(db, u, band, verified, expires, commits);
    if Safe(db) {
      SafeReads(db, after);
    } else if Safe(after) {
      SafeReads(after, db);
    }
  }

  /** `Kept` but for the observer rows of `g`. */
  ghost predicate KeptBut(db: Db, g: UserId) {
    && Settled(db)
    && (forall c :: c in db.convs ==> db.convs[c].cohort != Unassigned)
    && (forall k :: k in db.parts ==> RowKept(db, k, db.pending, k.1 == g))
  }

  lemma DropRestores(db: Db, g: UserId)
    requires KeptBut(db, g)
    ensures Inv(DropObserver(db, g))
  {
    var after := DropObserver(db, g);
    forall k | k in after.parts ensures RowKept(after, k, db.pending, false) && ObserverRowOk(after, k) {
      DropRow(db, g, k);
    }
  }

  lemma DropRow(db: Db, g: UserId, k: Key)
    requires KeptBut(db, g) && k in db.parts
    ensures RowKept(DropObserver(db, g), k, db.pending, false) && ObserverRowOk(DropObserver(db, g), k)
  {
    assert RowKept(db, k, db.pending, k.1 == g) && ObserverRowOk(db, k);
    if db.ChildWardsIn(k.1, k.0) != {} || db.Basis(k.1, k.0, db.pending) != {} {
      StillRests(db, DropObserver(db, g), k, db.pending);
    }
  }

  lemma RevokeKeeps(db: Db, g: UserId, w: UserId, now: int)
    requires Inv(db)
    ensures Inv(RevokeGuardian(db, g, w, now))
  {
    var cut := WithoutLink(db, g, w);
    forall k | k in cut.parts
      ensures RowKept(cut, k, cut.pending, k.1 == g) && ObserverRowOk(cut, k)
    {
      assert RowKept(db, k, db.pending, false) && ObserverRowOk(db, k);
      if k.1 != g {
        BasisKept(db, cut, k.1, k.0, db.pending, db.pending);
      }
    }
    DropRestores(cut, g);
    RemoveUserKeeps(DropObserver(cut, g), w);
  }

  lemma {:induction false} RevokeAllKeeps(db: Db, g: UserId, wards: seq<UserId>, now: int)
    requires Inv(db)
    ensures Inv(RevokeAll(db, g, wards, now))
    decreases |wards|
  {
    if wards != [] {
      RevokeAllKeeps(db, g, wards[..|wards| - 1], now);
      RevokeKeeps(RevokeAll(db, g, wards[..|wards| - 1], now), g, wards[|wards| - 1], now);
    }
  }

  /** Once a user is present nowhere, their rows may go. */
  lemma ForgetKeeps(db: Db, u: UserId)
    requires Inv(db) && u !in db.pending && forall c :: !db.Present((c, u))
    ensures Inv(Forget(db, u))
  {
    var after := Forget(db, u);
    forall k | k in after.parts ensures RowKept(after, k, after.pending, false) && ObserverRowOk(after, k) {
      assert RowKept(db, k, db.pending, false) && ObserverRowOk(db, k);
      if db.Observes(k) {
        ForgetKeepsBasis(db, u, k);
      }
    }
  }

  lemma ForgetKeepsBasis(db: Db, u: UserId, k: Key)
    requires k.1 != u && !db.InState((k.0, u), Active)
    ensures db.Basis(k.1, k.0, db.pending) <= Forget(db, u).Basis(k.1, k.0, db.pending - {u})
  {
    var after := Forget(db, u);
    forall w | w in db.Basis(k.1, k.0, db.pending) ensures w in after.Basis(k.1, k.0, db.pending - {u}) {
      assert (k.1, w) in after.links && (k.0, w) in after.parts && w != u;
    }
  }

  lemma EraseKeeps(db: Db, actor: UserId, target: UserId, wards: seq<UserId>, now: int)
    requires Inv(db) && EraseUser(db, actor, target, wards, now).Done?
    ensures Inv(EraseUser(db, actor, target, wards, now).db)
  {
    RevokeAllKeeps(db, target, wards, now);
    RemoveUserKeeps(RevokeAll(db, target, wards, now), target);
    ForgetKeeps(RemoveUser(RevokeAll(db, target, wards, now), target), target);
  }

  // ----- Runs -----

  /** Store, Pause and Prove are the commits of a verification; Pause also stands for every other
      eviction of one user. */
  datatype Step =
    | OpenDirect(a: UserId, b: UserId, rateOk: bool, c: ConvId)
    | OpenGroup(a: UserId, targets: seq<UserId>, rateOk: bool, cap: int, c: ConvId)
    | Accept(u: UserId, c: ConvId)
    | Decline(u: UserId, c: ConvId)
    | Quit(u: UserId, c: ConvId)
    | Add(actor: UserId, c: ConvId, target: UserId, cap: int)
    | Expel(actor: UserId, c: ConvId, target: UserId)
    | Observe(g: UserId, c: ConvId, hasKey: bool)
    | SignUp(u: UserId)
    | SetEnabled(u: UserId, enabled: bool)
    | Store(u: UserId, band: AgeBand, verified: bool)
    | Prove(u: UserId, expires: Option<int>)
    | Pause(u: UserId)
    | Link(g: UserId, w: UserId)
    | Unlink(g: UserId, w: UserId)
    | Consenting(g: UserId, w: UserId, until: int)
    | Unconsenting(g: UserId, w: UserId)
    | Erase(actor: UserId, target: UserId, wards: seq<UserId>)
    | Block(a: UserId, b: UserId)
    | Unblock(a: UserId, b: UserId)
    | SendMessage(u: UserId, c: ConvId, cap: int, m: MsgId)
    | Purge(gone: set<MsgId>)

  function Try(db: Db, step: Step, now: int): Outcome {
    match step
    case OpenDirect(a, b, rateOk, c) => StartDirect(db, a, b, now, rateOk, c)
    case OpenGroup(a, targets, rateOk, cap, c) => StartGroup(db, a, targets, now, rateOk, cap, c)
    case Accept(u, c) => AcceptInvite(db, u, c, now)
    case Decline(u, c) => DeclineInvite(db, u, c)
    case Quit(u, c) => Leave(db, u, c)
    case Add(actor, c, target, cap) => AddParticipant(db, actor, c, target, now, cap)
    case Expel(actor, c, target) => RemoveParticipant(db, actor, c, target)
    case Observe(g, c, hasKey) => AddGuardianObserver(db, g, c, now, hasKey)
    case SignUp(u) => Register(db, u)
    case SetEnabled(u, enabled) => Enable(db, u, enabled)
    case Store(u, band, verified) => if u in db.users then Done(StoreBand(db, u, band, verified)) else Refused
    case Prove(u, expires) => if u in db.users then Done(RecordProof(db, u, expires)) else Refused
    case Pause(u) => Done(RemoveUser(db, u))
    case Link(g, w) => LinkGuardian(db, g, w)
    case Unlink(g, w) => Done(RevokeGuardian(db, g, w, now))
    case Consenting(g, w, expires) => GrantConsent(db, g, w, now, expires)
    case Unconsenting(g, w) => RevokeConsent(db, g, w)
    case Erase(actor, target, wards) => EraseUser(db, actor, target, wards, now)
    case Block(a, b) => if a == b then Refused else Done(db.(blocks := db.blocks + {(a, b)}))
    case Unblock(a, b) => Done(db.(blocks := db.blocks - {(a, b)}))
    case SendMessage(u, c, cap, m) => Send(db, u, c, now, cap, m)
    case Purge(gone) => Done(PurgeMessages(db, gone))
  }

  /** New rows get unused ids, and nobody once proven adult is proven a child. */
  predicate Allowed(db: Db, step: Step) {
    match step
    case OpenDirect(_, _, _, c) => c !in db.convs
    case OpenGroup(_, _, _, _, c) => c !in db.convs
    case Store(u, band, _) => NeverBackToChild(db, u, band)
    case SendMessage(_, _, _, m) => m !in db.messages
    case _ => true
  }

  function Next(db: Db, step: Step, now: int): Db {
    Applied(db, Try(db, step, now))
  }

  lemma StepKeepsInv(db: Db, step: Step, now: int)
    requires Inv(db) && Allowed(db, step)
    ensures Inv(Next(db, step, now))
  {
    if Try(db, step, now).Done? {
      if IsAccountStep(step) {
        AccountStepKeepsInv(db, step, now);
      } else {
        MembershipStepKeepsInv(db, step, now);
      }
    }
  }

  lemma MembershipStepKeepsInv(db: Db, step: Step, now: int)
    requires Inv(db) && Allowed(db, step) && !IsAccountStep(step) && Try(db, step, now).Done?
    ensures Inv(Next(db, step, now))
  {
    match step {
      case OpenDirect(a, b, rateOk, c) => StartDirectKeeps(db, a, b, now, rateOk, c);
      case OpenGroup(a, targets, rateOk, cap, c) => StartGroupKeeps(db, a, targets, now, rateOk, cap, c);
      case Accept(u, c) => JoinKeeps(db, (c, u), Active);
      case Decline(u, c) => GoneThenPruned(db, (c, u), Declined);
      case Quit(u, c) => GoneThenPruned(db, (c, u), Left);
      case Add(actor, c, target, cap) => AddParticipantKeeps(db, actor, c, target, now, cap);
      case Expel(actor, c, target) => GoneThenPruned(db, (c, target), Removed);
      case Observe(g, c, hasKey) => AddObserverKeeps(db, g, c, now, hasKey);
    }
  }

  predicate IsAccountStep(step: Step) {
    step.SignUp? || step.SetEnabled? || step.Store? || step.Prove? || step.Link? || step.Unlink? || step.Consenting?
    || step.Unconsenting? || step.Pause? || step.Erase? || step.Block? || step.Unblock? || step.SendMessage?
       || step.Purge?
  }

  lemma AccountStepKeepsInv(db: Db, step: Step, now: int)
    requires Inv(db) && Allowed(db, step) && IsAccountStep(step) && Try(db, step, now).Done?
    ensures Inv(Next(db, step, now))
  {
    match step {
      case Store(u, band, verified) => StoreBandKeeps(db, u, band, verified);
      case Unlink(g, w) => RevokeKeeps(db, g, w, now);
      case Unconsenting(g, w) =>
        NeutralKeeps(db, WithoutConsents(db, w));
        RemoveUserKeeps(WithoutConsents(db, w), w);
      case Pause(u) => RemoveUserKeeps(db, u);
      case Erase(actor, target, wards) => EraseKeeps(db, actor, target, wards, now);
      case _ => NeutralStepKeepsInv(db, step, now);
    }
  }

  lemma NeutralStepKeepsInv(db: Db, step: Step, now: int)
    requires Inv(db) && Try(db, step, now).Done?
    requires step.SignUp? || step.SetEnabled? || step.Prove? || step.Link? || step.Consenting? || step.Block?
        || step.Unblock?
             || step.SendMessage? || step.Purge?
    ensures Inv(Next(db, step, now))
  {
    NeutralKeeps(db, Next(db, step, now));
  }

  const EMPTY: Db := Db(map[], map[], map[], map[], map[], {}, map[], {}, {})

  /** The state after a run; each step carries the clock reading it sees. */
  function After(run: seq<(Step, int)>): Db {
    if run == [] then EMPTY
    else var i := |run| - 1; Next(After(run[..i]), run[i].0, run[i].1)
  }

  ghost predicate AllowedRun(run: seq<(Step, int)>) {
    forall i :: 0 <= i < |run| ==> Allowed(After(run[..i]), run[i].0)
  }

  lemma AllowedPrefix(run: seq<(Step, int)>, n: nat)
    requires AllowedRun(run) && n <= |run|
    ensures AllowedRun(run[..n])
  {
    forall i | 0 <= i < n ensures Allowed(After(run[..n][..i]), run[..n][i].0) {
      assert run[..n][..i] == run[..i];
    }
  }

  /** Every reachable state keeps isolation for everyone with no eviction pending, and as soon as none
      is pending nobody crosses cohorts, whatever was interrupted before. */
  lemma {:induction false} RunKeepsInv(run: seq<(Step, int)>)
    requires AllowedRun(run)
    ensures Inv(After(run))
    ensures Grown(After(run))
    ensures After(run).pending == {} ==> Isolated(After(run))
    decreases |run|
  {
    if run != [] {
      var i := |run| - 1;
      AllowedPrefix(run, i);
      RunKeepsInv(run[..i]);
      StepKeepsInv(After(run[..i]), run[i].0, run[i].1);
    }
    SettledIsGrown(After(run));
    if After(run).pending == {} {
      NothingPendingIsIsolated(After(run));
    }
  }
}
