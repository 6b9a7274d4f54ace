/** Who may change what. Each law reads one stored fact before and after any step of the system and
    says, in terms of the stored fields alone, when it changes and how. */
module Authority {
  import opened Options
  import opened Membership
  import opened CohortSafety

  // ----- Vocabulary -----

  predicate Runs(until: Option<int>, now: int) {
    match until
    case None => true
    case Some(end) => now < end
  }

  /** `g` consents, at this time, to `w` taking part. */
  predicate ConsentedBy(db: Db, g: UserId, w: UserId, now: int) {
    (w, g) in db.consents && db.consents[(w, g)].active && Runs(db.consents[(w, g)].expires, now)
  }

  /** Proven, not lapsed, and not under 16 without somebody's consent. */
  ghost predicate Cleared(db: Db, u: UserId, now: int) {
    && u in db.users && db.users[u].verified && Runs(db.users[u].proofExpires, now)
    && (db.users[u].band != Under16 || exists g :: ConsentedBy(db, g, u, now))
  }

  ghost predicate MayContact(db: Db, a: UserId, b: UserId, now: int) {
    && a != b && Cleared(db, a, now) && Cleared(db, b, now) && db.users[b].enabled
    && db.users[a].cohort == db.users[b].cohort != Unassigned
    && (a, b) !in db.blocks && (b, a) !in db.blocks
  }

  /** `w` is a child, active in `c`, and a ward of `g`. */
  predicate ChildWard(db: Db, g: UserId, c: ConvId, w: UserId) {
    && (g, w) in db.links && db.links[(g, w)]
    && (c, w) in db.parts && db.parts[(c, w)].state == Active
    && w in db.users && db.users[w].cohort == Child
  }

  ghost predicate HasChildWard(db: Db, g: UserId, c: ConvId) {
    exists w :: ChildWard(db, g, c, w)
  }

  lemma ClearedMayParticipate(db: Db, u: UserId, now: int)
    ensures Cleared(db, u, now) <==> db.CanParticipate(u, now)
  {
    if exists g: UserId :: ConsentedBy(db, g, u, now) {
      var g: UserId :| ConsentedBy(db, g, u, now);
      assert (u, g) in db.consents;
    }
    if db.HasValidConsent(u, now) {
      var k :| k in db.consents && k.0 == u && db.consents[k].active
               && (db.consents[k].expires.Some? ==> db.consents[k].expires.value > now);
      assert k == (u, k.1) && ConsentedBy(db, k.1, u, now);
    }
  }

  lemma ContactsMayMessage(db: Db, a: UserId, b: UserId, now: int)
    ensures MayContact(db, a, b, now) <==> db.CanMessage(a, b, now)
  {
    ClearedMayParticipate(db, a, now);
    ClearedMayParticipate(db, b, now);
  }

  lemma WardsInSet(db: Db, g: UserId, c: ConvId)
    ensures forall w :: w in db.ChildWardsIn(g, c) <==> ChildWard(db, g, c, w)
    ensures HasChildWard(db, g, c) <==> db.ChildWardsIn(g, c) != {}
  {
    forall w ensures w in db.ChildWardsIn(g, c) <==> ChildWard(db, g, c, w) {
      assert ChildWard(db, g, c, w) ==> (g, w) in db.links;
    }
    if db.ChildWardsIn(g, c) != {} {
      var w :| w in db.ChildWardsIn(g, c);
      assert ChildWard(db, g, c, w);
    }
  }

  // ----- Revoking a guardianship -----

  /** Rows only end, and nothing but rows, links and consents changes. */
  ghost predicate OnlyEnds(a: Db, b: Db) {
    && b == a.(parts := b.parts, links := b.links, consents := b.consents, pending := b.pending)
    && b.parts.Keys == a.parts.Keys && b.links.Keys == a.links.Keys && b.consents.Keys == a.consents.Keys
    && (forall l :: l in b.links && b.links[l] ==> a.links[l])
    && (forall k :: k in a.parts ==>
          b.parts[k] == a.parts[k] || (a.Present(k) && b.parts[k] == a.parts[k].(state := Removed)))
  }

  lemma OnlyEndsIsTransitive(a: Db, b: Db, c: Db)
    requires OnlyEnds(a, b) && OnlyEnds(b, c)
    ensures OnlyEnds(a, c)
  {
  }

  lemma StaysGrown(a: Db, b: Db)
    requires OnlyEnds(a, b) && Grown(a)
    ensures Grown(b)
    ensures forall g, c :: HasChildWard(b, g, c) ==> HasChildWard(a, g, c)
  {
    forall g, c | HasChildWard(b, g, c) ensures HasChildWard(a, g, c) {
      var w :| ChildWard(b, g, c, w);
      assert ChildWard(a, g, c, w);
    }
  }

  lemma EvictionOnlyEnds(db: Db, u: UserId)
    ensures OnlyEnds(db, RemoveUser(db, u))
    ensures RemoveUser(db, u).links == db.links && RemoveUser(db, u).consents == db.consents
  {
  }

  lemma WardsLeft(db: Db, u: UserId, g: UserId, c: ConvId)
    requires Grown(db)
    ensures RemoveUser(db, u).ChildWardsIn(g, c) == db.ChildWardsIn(g, c) - {u}
  {
    WardsAfterEviction(db, u, g, c);
    WardsUnmoved(Evict(db, u), RemoveUser(db, u), g, c);
  }

  /** What an eviction does, row by row: the user is present nowhere, other members stay as they were,
      and whoever observed a ward goes on exactly while a child ward is left. */
  lemma EvictionIsExact(db: Db, u: UserId, k: Key)
    requires Grown(db) && k in db.parts
    ensures var after := RemoveUser(db, u);
            && (k.1 == u ==> !after.Present(k))
            && (!db.Observes(k) ==>
                  after.parts[k] == if k.1 == u && db.Present(k) then db.parts[k].(state := Removed) else db.parts[k])
            && (k.1 != u && db.Observes(k) && HasChildWard(db, k.1, k.0) ==>
                  (after.Observes(k) <==> HasChildWard(after, k.1, k.0)))
  {
    RemovalIsExact(db, u, k);
    WardsLeft(db, u, k.1, k.0);
    WardsInSet(db, k.1, k.0);
    WardsInSet(RemoveUser(db, u), k.1, k.0);
    assert u in db.ChildWardsIn(k.1, k.0) ==> (k.0, u) in db.parts && db.Present((k.0, u));
  }

  /** A revocation ends the link and this guardian's consent, and nobody else's. */
  ghost predicate LinkEnds(db: Db, after: Db, g: UserId, w: UserId) {
    && OnlyEnds(db, after)
    && (forall l :: l in after.links ==> after.links[l] == (db.links[l] && l != (g, w)))
    && (forall k :: k in after.consents ==>
          after.consents[k] == if k == (w, g) then db.consents[k].(active := false) else db.consents[k])
  }

  lemma CutEnds(db: Db, g: UserId, w: UserId)
    ensures LinkEnds(db, WithoutLink(db, g, w), g, w) && WithoutLink(db, g, w).parts == db.parts
  {
  }

  lemma DropOnlyEnds(db: Db, g: UserId)
    ensures OnlyEnds(db, DropObserver(db, g)) && OnlyObserversEnd(db, DropObserver(db, g))
    ensures DropObserver(db, g).links == db.links && DropObserver(db, g).consents == db.consents
  {
  }

  lemma DropIsExact(db: Db, g: UserId, k: Key)
    requires Grown(db) && k in db.parts
    ensures var after := DropObserver(db, g);
            && (k.1 != g || !db.Observes(k) ==> after.parts[k] == db.parts[k])
            && (db.Observes(k) && k.1 == g ==> (after.Observes(k) <==> HasChildWard(after, k.1, k.0)))
            && (HasChildWard(after, k.1, k.0) <==> HasChildWard(db, k.1, k.0))
  {
    DropOnlyEnds(db, g);
    WardsUnmoved(db, DropObserver(db, g), k.1, k.0);
    WardsInSet(db, k.1, k.0);
    WardsInSet(DropObserver(db, g), k.1, k.0);
  }

  lemma OthersWards(db: Db, after: Db, g: UserId, w: UserId, c: ConvId, other: UserId)
    requires LinkEnds(db, after, g, w) && after.parts == db.parts && other != g
    ensures HasChildWard(after, other, c) <==> HasChildWard(db, other, c)
  {
    forall v ensures ChildWard(after, other, c, v) <==> ChildWard(db, other, c, v) {
    }
  }

  /** The link gone and the guardian's own observations reviewed; the ward is still to be looked at. */
  lemma DroppedIsExact(db: Db, g: UserId, w: UserId, k: Key)
    requires Grown(db) && k in db.parts
    ensures var after := DropObserver(WithoutLink(db, g, w), g);
            && LinkEnds(db, after, g, w) && Grown(after)
            && (k.1 != g || !db.Observes(k) ==> after.parts[k] == db.parts[k])
            && (db.Observes(k) && k.1 == g ==> (after.Observes(k) <==> HasChildWard(after, k.1, k.0)))
            && (k.1 != g ==> (HasChildWard(after, k.1, k.0) <==> HasChildWard(db, k.1, k.0)))
  {
    var cut := WithoutLink(db, g, w);
    CutEnds(db, g, w);
    StaysGrown(db, cut);
    DropOnlyEnds(cut, g);
    OnlyEndsIsTransitive(db, cut, DropObserver(cut, g));
    StaysGrown(cut, DropObserver(cut, g));
    DropIsExact(cut, g, k);
    if k.1 != g {
      OthersWards(db, cut, g, w, k.0, k.1);
    }
  }

  lemma SameClearance(a: Db, b: Db, u: UserId, now: int)
    requires b.users == a.users && b.consents == a.consents
    ensures Cleared(a, u, now) <==> Cleared(b, u, now)
  {
    forall g ensures ConsentedBy(a, g, u, now) <==> ConsentedBy(b, g, u, now) {
    }
  }

  lemma RevocationOnlyEnds(db: Db, g: UserId, w: UserId, now: int)
    requires Grown(db)
    ensures var dropped, after := DropObserver(WithoutLink(db, g, w), g), RevokeGuardian(db, g, w, now);
            && after == (if Cleared(after, w, now) then dropped else RemoveUser(dropped, w))
            && LinkEnds(db, after, g, w) && Grown(after) && OnlyEnds(dropped, after)
  {
    var dropped := DropObserver(WithoutLink(db, g, w), g);
    CutEnds(db, g, w);
    DropOnlyEnds(WithoutLink(db, g, w), g);
    OnlyEndsIsTransitive(db, WithoutLink(db, g, w), dropped);
    EvictionOnlyEnds(dropped, w);
    OnlyEndsIsTransitive(db, dropped, RemoveUser(dropped, w));
    StaysGrown(db, RevokeGuardian(db, g, w, now));
    ClearedMayParticipate(dropped, w, now);
    SameClearance(dropped, RemoveUser(dropped, w), w, now);
  }

  lemma RevocationAndMember(db: Db, g: UserId, w: UserId, now: int, k: Key)
    requires Grown(db) && k in db.parts && !db.Observes(k)
    ensures var after := RevokeGuardian(db, g, w, now);
            after.parts[k] == if k.1 == w && db.Present(k) && !Cleared(after, w, now)
                              then db.parts[k].(state := Removed) else db.parts[k]
  {
    RevocationOnlyEnds(db, g, w, now);
    DroppedIsExact(db, g, w, k);
    EvictionIsExact(DropObserver(WithoutLink(db, g, w), g), w, k);
  }

  lemma RevocationAndObserver(db: Db, g: UserId, w: UserId, now: int, k: Key)
    requires Grown(db) && db.Observes(k) && (k.1 == g || HasChildWard(db, k.1, k.0))
    ensures var after := RevokeGuardian(db, g, w, now);
            after.Observes(k) <==> HasChildWard(after, k.1, k.0) && (k.1 == w ==> Cleared(after, w, now))
  {
    var dropped, after := DropObserver(WithoutLink(db, g, w), g), RevokeGuardian(db, g, w, now);
    RevocationOnlyEnds(db, g, w, now);
    DroppedIsExact(db, g, w, k);
    if !Cleared(after, w, now) {
      EvictionIsExact(dropped, w, k);
      if !HasChildWard(dropped, k.1, k.0) {
        StaysGrown(dropped, after);
      }
    }
  }

  /** Revoking a guardianship, in terms of links, consents and rows. The ward's rows stay as they were
      if they may still take part without this guardian's consent; otherwise the ward is present
      nowhere. The guardian, and whoever else observed the ward, goes on observing exactly where they
      still have an active child ward. */
  lemma RevocationIsExact(db: Db, g: UserId, w: UserId, now: int, k: Key)
    requires Grown(db) && k in db.parts
    ensures var after := RevokeGuardian(db, g, w, now);
            && LinkEnds(db, after, g, w) && Grown(after)
            && (!db.Observes(k) ==>
                  after.parts[k] == if k.1 == w && db.Present(k) && !Cleared(after, w, now)
                                    then db.parts[k].(state := Removed) else db.parts[k])
            && (db.Observes(k) && (k.1 == g || HasChildWard(db, k.1, k.0)) ==>
                  (after.Observes(k) <==> HasChildWard(after, k.1, k.0) && (k.1 == w ==> Cleared(after, w, now))))
  {
    RevocationOnlyEnds(db, g, w, now);
    if !db.Observes(k) {
      RevocationAndMember(db, g, w, now, k);
    } else if k.1 == g || HasChildWard(db, k.1, k.0) {
      RevocationAndObserver(db, g, w, now, k);
    }
  }

  // ----- Erasing an account -----

  /** The guardianships of `g` over `wards` are gone, with the consents given as their guardian. */
  ghost predicate LinksEnd(db: Db, after: Db, g: UserId, wards: seq<UserId>) {
    && OnlyEnds(db, after)
    && (forall l :: l in after.links ==> after.links[l] == (db.links[l] && !(l.0 == g && l.1 in wards)))
    && (forall k :: k in after.consents ==>
          after.consents[k] == if k.1 == g && k.0 in wards then db.consents[k].(active := false) else db.consents[k])
  }

  lemma LinksEndOneMore(db: Db, mid: Db, after: Db, g: UserId, wards: seq<UserId>, w: UserId)
    requires LinksEnd(db, mid, g, wards) && LinkEnds(mid, after, g, w)
    ensures LinksEnd(db, after, g, wards + [w])
  {
    OnlyEndsIsTransitive(db, mid, after);
  }

  /** Later revocations do not change whether an earlier ward may still take part. */
  lemma SettledWard(mid: Db, after: Db, g: UserId, w: UserId, u: UserId, now: int)
    requires LinkEnds(mid, after, g, w) && (u != w || !ConsentedBy(mid, g, w, now))
    ensures Cleared(after, u, now) <==> Cleared(mid, u, now)
  {
    forall x ensures ConsentedBy(after, x, u, now) <==> ConsentedBy(mid, x, u, now) {
    }
  }

  lemma {:induction false} RevocationsEnd(db: Db, g: UserId, wards: seq<UserId>, now: int)
    requires Grown(db)
    ensures LinksEnd(db, RevokeAll(db, g, wards, now), g, wards) && Grown(RevokeAll(db, g, wards, now))
    decreases |wards|
  {
    if wards != [] {
      var init, w := wards[..|wards| - 1], wards[|wards| - 1];
      assert wards == init + [w];
      RevocationsEnd(db, g, init, now);
      RevocationOnlyEnds(RevokeAll(db, g, init, now), g, w, now);
      LinksEndOneMore(db, RevokeAll(db, g, init, now), RevokeAll(db, g, wards, now), g, init, w);
    }
  }

  /** One more revocation leaves the earlier wards' clearance alone. */
  lemma ClearanceStands(db: Db, g: UserId, wards: seq<UserId>, now: int, u: UserId)
    requires Grown(db) && wards != [] && u in wards[..|wards| - 1]
    ensures Cleared(RevokeAll(db, g, wards, now), u, now)
       <==> Cleared(RevokeAll(db, g, wards[..|wards| - 1], now), u, now)
  {
    var init, w := wards[..|wards| - 1], wards[|wards| - 1];
    var mid := RevokeAll(db, g, init, now);
    RevocationsEnd(db, g, init, now);
    RevocationOnlyEnds(mid, g, w, now);
    assert u == w ==> !ConsentedBy(mid, g, w, now);
    SettledWard(mid, RevokeAll(db, g, wards, now), g, w, u, now);
  }

  /** The last of the revocations, seen from one row. */
  lemma LastRevocation(db: Db, g: UserId, wards: seq<UserId>, now: int, k: Key)
    requires Grown(db) && wards != [] && k in db.parts
    ensures var w, mid, after := wards[|wards| - 1], RevokeAll(db, g, wards[..|wards| - 1], now),
                                 RevokeAll(db, g, wards, now);
            && k in mid.parts && k in after.parts
            && (!mid.Observes(k) ==>
                  after.parts[k] == if k.1 == w && mid.Present(k) && !Cleared(after, w, now)
                                    then mid.parts[k].(state := Removed) else mid.parts[k])
            && (mid.Observes(k) && HasChildWard(mid, k.1, k.0) ==>
                  (after.Observes(k) <==> HasChildWard(after, k.1, k.0) && (k.1 == w ==> Cleared(after, w, now))))
            && (HasChildWard(after, k.1, k.0) ==> HasChildWard(mid, k.1, k.0))
  {
    var mid, w := RevokeAll(db, g, wards[..|wards| - 1], now), wards[|wards| - 1];
    RevocationsEnd(db, g, wards[..|wards| - 1], now);
    RevocationIsExact(mid, g, w, now, k);
    StaysGrown(mid, RevokeGuardian(mid, g, w, now));
  }

  lemma InOrLast(wards: seq<UserId>, u: UserId)
    requires wards != []
    ensures u in wards <==> u in wards[..|wards| - 1] || u == wards[|wards| - 1]
  {
    assert wards == wards[..|wards| - 1] + [wards[|wards| - 1]];
  }

  lemma {:induction false} RevocationsAndMember(db: Db, g: UserId, wards: seq<UserId>, now: int, k: Key)
    requires Grown(db) && k in db.parts && !db.Observes(k)
    ensures var after := RevokeAll(db, g, wards, now);
            k in after.parts
            && after.parts[k] == if k.1 in wards && db.Present(k) && !Cleared(after, k.1, now)
                                 then db.parts[k].(state := Removed) else db.parts[k]
    decreases |wards|
  {
    if wards != [] {
      InOrLast(wards, k.1);
      RevocationsAndMember(db, g, wards[..|wards| - 1], now, k);
      LastRevocation(db, g, wards, now, k);
      if k.1 in wards[..|wards| - 1] {
        ClearanceStands(db, g, wards, now, k.1);
      }
    }
  }

  lemma {:induction false} RevocationsAndObserver(db: Db, g: UserId, wards: seq<UserId>, now: int, k: Key)
    requires Grown(db) && db.Observes(k) && HasChildWard(db, k.1, k.0)
    ensures var after := RevokeAll(db, g, wards, now);
            after.Observes(k) <==> HasChildWard(after, k.1, k.0) && (k.1 in wards ==> Cleared(after, k.1, now))
    decreases |wards|
  {
    if wards != [] {
      InOrLast(wards, k.1);
      RevocationsAndObserver(db, g, wards[..|wards| - 1], now, k);
      LastRevocation(db, g, wards, now, k);
      if k.1 in wards[..|wards| - 1] {
        ClearanceStands(db, g, wards, now, k.1);
      }
    }
  }

  lemma ForgottenIsExact(db: Db, u: UserId, k: Key, now: int)
    requires k.1 != u && !db.Present((k.0, u))
    ensures var after := Forget(db, u);
            && (k in after.parts <==> k in db.parts) && (k in db.parts ==> after.parts[k] == db.parts[k])
            && (HasChildWard(after, k.1, k.0) <==> HasChildWard(db, k.1, k.0))
            && (Cleared(after, k.1, now) <==> Cleared(db, k.1, now))
  {
    var after := Forget(db, u);
    forall w ensures ChildWard(after, k.1, k.0, w) <==> ChildWard(db, k.1, k.0, w) {
      assert w == u ==> !ChildWard(db, k.1, k.0, w);
    }
    forall g ensures ConsentedBy(after, g, k.1, now) <==> ConsentedBy(db, g, k.1, now) {
    }
  }

  /** An erasure takes the user's own rows, and what its revocations take; the others stay. */
  lemma ErasureIsExact(db: Db, after: Db, target: UserId, wards: seq<UserId>, now: int, k: Key)
    requires Grown(db) && k in db.parts && k.1 != target
    requires after == Forget(RemoveUser(RevokeAll(db, target, wards, now), target), target)
    ensures && k in after.parts
            && (!db.Observes(k) ==>
                  after.parts[k] == if k.1 in wards && db.Present(k) && !Cleared(after, k.1, now)
                                    then db.parts[k].(state := Removed) else db.parts[k])
            && (db.Observes(k) && HasChildWard(db, k.1, k.0) ==>
                  (after.Observes(k) <==>
                     HasChildWard(after, k.1, k.0) && (k.1 in wards ==> Cleared(after, k.1, now))))
  {
    var mid := RevokeAll(db, target, wards, now);
    var out := RemoveUser(mid, target);
    RevocationsEnd(db, target, wards, now);
    EvictionIsExact(mid, target, k);
    EvictionOnlyEnds(mid, target);
    StaysGrown(mid, out);
    RemovedIsAbsent(mid, target);
    SameClearance(mid, out, k.1, now);
    ForgottenIsExact(out, target, k, now);
    if !db.Observes(k) {
      RevocationsAndMember(db, target, wards, now, k);
    } else if HasChildWard(db, k.1, k.0) {
      RevocationsAndObserver(db, target, wards, now, k);
    }
  }

  // ----- Every step, seen from one row -----

  /** The step brings `k` to life as an active row: its own user opens the conversation, accepts an
      invitation, or starts observing. Nobody is made active by anybody else. */
  ghost predicate Joins(db: Db, step: Step, now: int, k: Key) {
    match step
    case OpenDirect(a, b, rateOk, c) => k == (c, a) && OpensDirect(db, a, b, rateOk, now)
    case OpenGroup(a, targets, rateOk, cap, c) => k == (c, a) && OpensGroup(db, a, targets, rateOk, cap, now)
    case Accept(u, c) =>
      && k == (c, u) && db.InState(k, Invited) && Cleared(db, u, now)
      && c in db.convs && db.users[u].cohort == db.convs[c].cohort != Unassigned
    case Observe(g, c, hasKey) =>
      && k == (c, g) && !db.InState(k, Active) && hasKey && Cleared(db, g, now)
      && db.users[g].cohort == Adult && HasChildWard(db, g, c)
    case _ => false
  }

  ghost predicate OpensDirect(db: Db, a: UserId, b: UserId, rateOk: bool, now: int) {
    && rateOk && MayContact(db, a, b, now)
    && forall c :: c in db.convs && db.convs[c].kind == Direct ==> (c, a) !in db.parts || (c, b) !in db.parts
  }

  function Others(a: UserId, targets: seq<UserId>): set<UserId> {
    set t | t in targets && t != a
  }

  ghost predicate OpensGroup(db: Db, a: UserId, targets: seq<UserId>, rateOk: bool, cap: int, now: int) {
    && rateOk && 1 <= |Others(a, targets)| < cap
    && forall t :: t in Others(a, targets) ==> MayContact(db, a, t, now)
  }

  predicate Administers(db: Db, u: UserId, c: ConvId) {
    (c, u) in db.parts && db.parts[(c, u)] == Part(Active, Admin)
  }

  /** The step invites `k`: somebody who may contact its user opens a conversation with them, or adds
      them to a group they administer. */
  ghost predicate Invites(db: Db, step: Step, now: int, k: Key) {
    match step
    case OpenDirect(a, b, rateOk, c) => k == (c, b) && OpensDirect(db, a, b, rateOk, now)
    case OpenGroup(a, targets, rateOk, cap, c) =>
      k.0 == c && k.1 in Others(a, targets) && OpensGroup(db, a, targets, rateOk, cap, now)
    case Add(actor, c, target, cap) =>
      && k == (c, target) && !db.Present(k) && MayContact(db, actor, target, now) && Administers(db, actor, c)
      && c in db.convs && db.convs[c] == Conv(Group, db.users[target].cohort)
      && |set j | j in db.parts && j.0 == c && db.Present(j)| < cap
    case _ => false
  }

  /** How the step ends the presence of `k`, if it does: its own user declines or leaves, an admin other
      than them removes them, or their eviction is due. */
  ghost function Ends(db: Db, after: Db, step: Step, now: int, k: Key): Option<State> {
    match step
    case Decline(u, c) => if k == (c, u) && db.InState(k, Invited) then Some(Declined) else None
    case Quit(u, c) => if k == (c, u) then Some(Left) else None
    case Expel(actor, c, target) =>
      if k == (c, target) && actor != target && Administers(db, actor, c)
         && k in db.parts && db.parts[k].role != Guardian then Some(Removed) else None
    case Pause(u) => if k.1 == u then Some(Removed) else None
    case Unlink(g, w) => if k.1 == w && !Cleared(after, w, now) then Some(Removed) else None
    case Unconsenting(g, w) => if k.1 == w && db.IsGuardianOf(g, w) then Some(Removed) else None
    case Erase(actor, target, wards) =>
      if k.1 in wards && Erases(db, actor, target) && !Cleared(after, k.1, now) then Some(Removed) else None
    case _ => None
  }

  predicate Erases(db: Db, actor: UserId, target: UserId) {
    target in db.users && (actor == target || db.IsGuardianOf(actor, target))
  }

  lemma DirectOpens(db: Db, a: UserId, b: UserId, now: int, rateOk: bool, c: ConvId)
    ensures var after := Next(db, OpenDirect(a, b, rateOk, c), now);
            if OpensDirect(db, a, b, rateOk, now) then
              after == db.(convs := db.convs[c := Conv(Direct, db.users[a].cohort)],
                           parts := db.parts[(c, a) := Part(Active, Admin)][(c, b) := Part(Invited, Member)])
            else after == db
  {
    ContactsMayMessage(db, a, b, now);
  }

  lemma AllMayContact(db: Db, a: UserId, others: set<UserId>, now: int)
    ensures (forall t :: t in others ==> MayContact(db, a, t, now)) <==>
            forall t :: t in others ==> db.CanMessage(a, t, now)
  {
    forall t ensures MayContact(db, a, t, now) <==> db.CanMessage(a, t, now) {
      ContactsMayMessage(db, a, t, now);
    }
  }

  lemma OthersAreDistinct(a: UserId, targets: seq<UserId>)
    ensures Distinct(targets, {a}) == Others(a, targets)
    ensures |Others(a, targets)| > 0 <==> Others(a, targets) != {}
  {
  }

  lemma GroupStarts(db: Db, a: UserId, targets: seq<UserId>, now: int, rateOk: bool, cap: int, c: ConvId)
    requires a in db.users
    ensures StartGroup(db, a, targets, now, rateOk, cap, c)
         == if OpensGroup(db, a, targets, rateOk, cap, now) then
              Done(db.(convs := db.convs[c := Conv(Group, db.users[a].cohort)],
                       parts := InviteAll(db.parts[(c, a) := Part(Active, Admin)], c, Others(a, targets))))
            else Refused
  {
    OthersAreDistinct(a, targets);
    AllMayContact(db, a, Others(a, targets), now);
  }

  lemma NobodyStarts(db: Db, a: UserId, targets: seq<UserId>, now: int, rateOk: bool, cap: int, c: ConvId)
    requires a !in db.users
    ensures StartGroup(db, a, targets, now, rateOk, cap, c) == Refused
    ensures !OpensGroup(db, a, targets, rateOk, cap, now)
  {
    OthersAreDistinct(a, targets);
    if t :| t in Others(a, targets) {
      assert !db.CanMessage(a, t, now) && !MayContact(db, a, t, now);
    }
  }

  lemma GroupOpens(db: Db, a: UserId, targets: seq<UserId>, now: int, rateOk: bool, cap: int, c: ConvId)
    ensures OpensGroup(db, a, targets, rateOk, cap, now) ==> a in db.users
    ensures Next(db, OpenGroup(a, targets, rateOk, cap, c), now)
         == if OpensGroup(db, a, targets, rateOk, cap, now) then
              db.(convs := db.convs[c := Conv(Group, db.users[a].cohort)],
                  parts := InviteAll(db.parts[(c, a) := Part(Active, Admin)], c, Others(a, targets)))
            else db
  {
    if a in db.users {
      GroupStarts(db, a, targets, now, rateOk, cap, c);
    } else {
      NobodyStarts(db, a, targets, now, rateOk, cap, c);
    }
  }

  lemma InvitedRow(parts: map<Key, Part>, c: ConvId, targets: set<UserId>, k: Key)
    ensures var after := InviteAll(parts, c, targets);
            && (k in after <==> k in parts || (k.0 == c && k.1 in targets))
            && (k in after ==> after[k] == if k.0 == c && k.1 in targets then Part(Invited, Member) else parts[k])
  {
  }

  function RowOf(db: Db, k: Key): Option<Part> {
    if k in db.parts then Some(db.parts[k]) else None
  }

  /** What the step leaves at `k`, unless `k` observes. An opener administers, an observer is a guardian,
      everyone else keeps the role of their row, at first that of a member. */
  ghost function Written(db: Db, after: Db, step: Step, now: int, k: Key): Option<Part> {
    if Joins(db, step, now, k) then
      Some(Part(Active, if step.Observe? then Guardian else if k in db.parts then db.parts[k].role else Admin))
    else if Invites(db, step, now, k) then Some(Part(Invited, if k in db.parts then db.parts[k].role else Member))
    else if k !in db.parts then None
    else if db.Present(k) && Ends(db, after, step, now, k).Some? then
      Some(db.parts[k].(state := Ends(db, after, step, now, k).value))
    else Some(db.parts[k])
  }

  /** The law for one step and one row. */
  ghost predicate Obeys(db: Db, step: Step, now: int, k: Key) {
    RowOf(Next(db, step, now), k) == Written(db, Next(db, step, now), step, now, k)
  }

  /** Pruning concerns observers only. */
  lemma PruneIsForObservers(db: Db, convs: set<ConvId>, k: Key)
    requires !db.Observes(k)
    ensures RowOf(PruneIn(db, convs), k) == RowOf(db, k)
  {
  }

  lemma DirectRow(db: Db, a: UserId, b: UserId, rateOk: bool, c: ConvId, now: int, k: Key)
    requires forall j :: j in db.parts ==> j.0 != c
    ensures Obeys(db, OpenDirect(a, b, rateOk, c), now, k)
  {
    DirectOpens(db, a, b, now, rateOk, c);
    assert OpensDirect(db, a, b, rateOk, now) ==> a != b;
  }

  lemma GroupWritten(db: Db, after: Db, a: UserId, targets: seq<UserId>, rateOk: bool, cap: int, c: ConvId, now: int,
      k: Key)
    requires k in db.parts ==> k.0 != c
    requires RowOf(after, k) == (
      if OpensGroup(db, a, targets, rateOk, cap, now) && k == (c, a) then Some(Part(Active, Admin))
      else if OpensGroup(db, a, targets, rateOk, cap, now) && k.0 == c && k.1 in Others(a, targets) then
        Some(Part(Invited, Member))
      else RowOf(db, k))
    ensures RowOf(after, k) == Written(db, after, OpenGroup(a, targets, rateOk, cap, c), now, k)
  {
  }

  lemma GroupRow(db: Db, a: UserId, targets: seq<UserId>, rateOk: bool, cap: int, c: ConvId, now: int, k: Key)
    requires forall j :: j in db.parts ==> j.0 != c
    ensures Obeys(db, OpenGroup(a, targets, rateOk, cap, c), now, k)
  {
    var after := Next(db, OpenGroup(a, targets, rateOk, cap, c), now);
    GroupOpens(db, a, targets, now, rateOk, cap, c);
    InvitedRow(db.parts[(c, a) := Part(Active, Admin)], c, Others(a, targets), k);
    assert a !in Others(a, targets);
    GroupWritten(db, after, a, targets, rateOk, cap, c, now, k);
  }

  lemma AcceptRow(db: Db, u: UserId, c: ConvId, now: int, k: Key)
    ensures Obeys(db, Accept(u, c), now, k)
  {
    ClearedMayParticipate(db, u, now);
  }

  lemma ObserveRow(db: Db, g: UserId, c: ConvId, hasKey: bool, now: int, k: Key)
    ensures Obeys(db, Observe(g, c, hasKey), now, k)
  {
    ClearedMayParticipate(db, g, now);
    WardsInSet(db, g, c);
  }

  lemma AddRow(db: Db, actor: UserId, c: ConvId, target: UserId, cap: int, now: int, k: Key)
    ensures Obeys(db, Add(actor, c, target, cap), now, k)
  {
    ContactsMayMessage(db, actor, target, now);
    assert PresentCount(db, c) == |set j | j in db.parts && j.0 == c && db.Present(j)|;
  }

  lemma DeclineRow(db: Db, u: UserId, c: ConvId, now: int, k: Key)
    requires !db.Observes(k)
    ensures Obeys(db, Decline(u, c), now, k)
  {
    if db.InState((c, u), Invited) {
      PruneIsForObservers(Put(db, (c, u), db.parts[(c, u)].(state := Declined)), {c}, k);
    }
  }

  lemma QuitRow(db: Db, u: UserId, c: ConvId, now: int, k: Key)
    requires !db.Observes(k)
    ensures Obeys(db, Quit(u, c), now, k)
  {
    if db.Present((c, u)) {
      PruneIsForObservers(Put(db, (c, u), db.parts[(c, u)].(state := Left)), {c}, k);
    }
  }

  lemma ExpelRow(db: Db, actor: UserId, c: ConvId, target: UserId, now: int, k: Key)
    requires !db.Observes(k)
    ensures Obeys(db, Expel(actor, c, target), now, k)
  {
    if RemoveParticipant(db, actor, c, target).Done? {
      PruneIsForObservers(Put(db, (c, target), db.parts[(c, target)].(state := Removed)), {c}, k);
    }
  }

  lemma RevocationKeepsKeys(db: Db, g: UserId, w: UserId, now: int, k: Key)
    requires Grown(db)
    ensures k in RevokeGuardian(db, g, w, now).parts <==> k in db.parts
  {
    RevocationOnlyEnds(db, g, w, now);
  }

  lemma RevocationRow(db: Db, g: UserId, w: UserId, now: int, k: Key)
    requires Grown(db) && !db.Observes(k)
    ensures Obeys(db, Unlink(g, w), now, k)
  {
    RevocationKeepsKeys(db, g, w, now, k);
    if k in db.parts {
      RevocationAndMember(db, g, w, now, k);
    }
  }

  lemma EvictionRow(db: Db, u: UserId, k: Key)
    requires Grown(db) && !db.Observes(k)
    ensures RowOf(RemoveUser(db, u), k)
         == if k in db.parts && k.1 == u && db.Present(k) then Some(db.parts[k].(state := Removed)) else RowOf(db, k)
  {
    EvictionOnlyEnds(db, u);
    if k in db.parts {
      EvictionIsExact(db, u, k);
    }
  }

  lemma ConsentRow(db: Db, g: UserId, w: UserId, now: int, k: Key)
    requires Grown(db) && !db.Observes(k)
    ensures Obeys(db, Unconsenting(g, w), now, k)
  {
    EvictionRow(WithoutConsents(db, w), w, k);
  }

  lemma ErasureKeepsKeys(db: Db, target: UserId, wards: seq<UserId>, now: int, k: Key)
    requires Grown(db) && k.1 != target
    ensures k in Forget(RemoveUser(RevokeAll(db, target, wards, now), target), target).parts <==> k in db.parts
  {
    RevocationsEnd(db, target, wards, now);
    EvictionOnlyEnds(RevokeAll(db, target, wards, now), target);
  }

  lemma ErasureWritten(db: Db, after: Db, actor: UserId, target: UserId, wards: seq<UserId>, now: int, k: Key)
    requires Erases(db, actor, target) && (k in after.parts <==> k in db.parts)
    requires k in db.parts ==>
               after.parts[k] == if k.1 in wards && db.Present(k) && !Cleared(after, k.1, now)
                                 then db.parts[k].(state := Removed) else db.parts[k]
    ensures RowOf(after, k) == Written(db, after, Erase(actor, target, wards), now, k)
  {
  }

  lemma ErasureRow(db: Db, after: Db, actor: UserId, target: UserId, wards: seq<UserId>, now: int, k: Key)
    requires Grown(db) && !db.Observes(k) && k.1 != target && Erases(db, actor, target)
    requires after == Forget(RemoveUser(RevokeAll(db, target, wards, now), target), target)
    ensures RowOf(after, k) == Written(db, after, Erase(actor, target, wards), now, k)
  {
    ErasureKeepsKeys(db, target, wards, now, k);
    if k in db.parts {
      ErasureIsExact(db, after, target, wards, now, k);
    }
    ErasureWritten(db, after, actor, target, wards, now, k);
  }

  lemma ErasureStep(db: Db, actor: UserId, target: UserId, wards: seq<UserId>, now: int)
    ensures Next(db, Erase(actor, target, wards), now)
         == if Erases(db, actor, target) then Forget(RemoveUser(RevokeAll(db, target, wards, now), target), target)
            else db
  {
  }

  lemma ErasureObeys(db: Db, actor: UserId, target: UserId, wards: seq<UserId>, now: int, k: Key)
    requires Grown(db) && !db.Observes(k) && k.1 != target
    ensures Obeys(db, Erase(actor, target, wards), now, k)
  {
    ErasureStep(db, actor, target, wards, now);
    if Erases(db, actor, target) {
      ErasureRow(db, Next(db, Erase(actor, target, wards), now), actor, target, wards, now, k);
    }
  }

  lemma OtherRow(db: Db, step: Step, now: int, k: Key)
    requires IsAccountStep(step) && !step.Unlink? && !step.Unconsenting? && !step.Pause? && !step.Erase?
    ensures Obeys(db, step, now, k)
  {
  }

  lemma AccountRow(db: Db, step: Step, now: int, k: Key)
    requires Grown(db) && IsAccountStep(step) && !db.Observes(k) && !(step.Erase? && k.1 == step.target)
    ensures Obeys(db, step, now, k)
  {
    match step
    case Unlink(g, w) => RevocationRow(db, g, w, now, k);
    case Unconsenting(g, w) => ConsentRow(db, g, w, now, k);
    case Pause(u) => EvictionRow(db, u, k);
    case Erase(actor, target, wards) => ErasureObeys(db, actor, target, wards, now, k);
    case _ => OtherRow(db, step, now, k);
  }

  /** Every step, seen from any row that does not observe: it comes to life only by its own user's act,
      is invited only by somebody who may contact its user, ends only as `Ends` says, keeps its role,
      and otherwise stays exactly as it was. */
  lemma MembersChange(db: Db, step: Step, now: int, k: Key)
    requires Inv(db) && Allowed(db, step) && !db.Observes(k) && !(step.Erase? && k.1 == step.target)
    ensures Obeys(db, step, now, k)
  {
    SettledIsGrown(db);
    if IsAccountStep(step) {
      AccountRow(db, step, now, k);
    } else {
      match step {
        case Accept(u, c) => AcceptRow(db, u, c, now, k);
        case Decline(u, c) => DeclineRow(db, u, c, now, k);
        case Quit(u, c) => QuitRow(db, u, c, now, k);
        case Add(actor, c, target, cap) => AddRow(db, actor, c, target, cap, now, k);
        case Expel(actor, c, target) => ExpelRow(db, actor, c, target, now, k);
        case Observe(g, c, hasKey) => ObserveRow(db, g, c, hasKey, now, k);
        case OpenDirect(a, b, rateOk, c) =>
          NobodyThere(db, c);
          DirectRow(db, a, b, rateOk, c, now, k);
        case OpenGroup(a, targets, rateOk, cap, c) =>
          NobodyThere(db, c);
          GroupRow(db, a, targets, rateOk, cap, c, now, k);
      }
    }
  }

  // ----- Every step, seen from an observer -----

  lemma PrunedObserver(db: Db, convs: set<ConvId>, k: Key)
    requires Grown(db) && db.Observes(k)
    ensures var after := PruneIn(db, convs);
            && (HasChildWard(after, k.1, k.0) <==> HasChildWard(db, k.1, k.0))
            && (k.0 in convs || HasChildWard(db, k.1, k.0) ==>
                  (after.Observes(k) <==> HasChildWard(after, k.1, k.0)))
  {
    var after := PruneIn(db, convs);
    assert OnlyObserversEnd(db, after);
    WardsUnmoved(db, after, k.1, k.0);
    WardsInSet(db, k.1, k.0);
    WardsInSet(after, k.1, k.0);
  }

  lemma WardsElsewhere(db: Db, j: Key, p: Part, k: Key)
    requires j != k && k.0 != j.0
    ensures HasChildWard(Put(db, j, p), k.1, k.0) <==> HasChildWard(db, k.1, k.0)
  {
    forall w ensures ChildWard(Put(db, j, p), k.1, k.0, w) <==> ChildWard(db, k.1, k.0, w) {
    }
  }

  /** Another row of the conversation ends, and the conversation is pruned. */
  lemma EndsBeside(db: Db, j: Key, state: State, k: Key)
    requires Grown(db) && db.Observes(k) && HasChildWard(db, k.1, k.0) && j in db.parts && state != Active
    ensures var after := PruneIn(Put(db, j, db.parts[j].(state := state)), {j.0});
            if j == k then !after.Observes(k) else after.Observes(k) <==> HasChildWard(after, k.1, k.0)
  {
    var gone := Put(db, j, db.parts[j].(state := state));
    if j != k {
      PrunedObserver(gone, {j.0}, k);
      if k.0 != j.0 {
        WardsElsewhere(db, j, db.parts[j].(state := state), k);
      }
    }
  }

  /** The law for one step and one observer. */
  ghost predicate StaysWithWard(db: Db, step: Step, now: int, k: Key) {
    var after := Next(db, step, now);
    after.Observes(k) <==> HasChildWard(after, k.1, k.0) && Ends(db, after, step, now, k).None?
  }

  ghost predicate KeepsLinksAndCohorts(db: Db, after: Db) {
    && (forall l :: l in db.links && db.links[l] ==> l in after.links && after.links[l])
    && (forall u :: u in db.users ==> u in after.users && after.users[u].cohort == db.users[u].cohort)
  }

  /** A step that ends no row and takes neither links nor cohorts leaves every observer their ward. */
  lemma WardRemains(db: Db, after: Db, k: Key)
    requires db.Observes(k) && HasChildWard(db, k.1, k.0)
    requires KeepsLinksAndCohorts(db, after) && forall j :: db.InState(j, Active) ==> RowOf(after, j) == RowOf(db, j)
    ensures after.Observes(k) && HasChildWard(after, k.1, k.0)
  {
    var w :| ChildWard(db, k.1, k.0, w);
    assert db.InState((k.0, w), Active) && db.InState(k, Active);
    assert ChildWard(after, k.1, k.0, w);
  }

  predicate EndsNothing(step: Step) {
    !step.Decline? && !step.Quit? && !step.Expel? && !step.Pause? && !step.Unlink? && !step.Unconsenting?
    && !step.Erase? && !step.Store?
  }

  lemma DirectEndsNothing(db: Db, a: UserId, b: UserId, rateOk: bool, c: ConvId, now: int, j: Key)
    requires j in db.parts && j.0 != c
    ensures RowOf(Next(db, OpenDirect(a, b, rateOk, c), now), j) == RowOf(db, j)
  {
    DirectOpens(db, a, b, now, rateOk, c);
  }

  lemma GroupEndsNothing(db: Db, a: UserId, targets: seq<UserId>, rateOk: bool, cap: int, c: ConvId, now: int, j: Key)
    requires j in db.parts && j.0 != c
    ensures RowOf(Next(db, OpenGroup(a, targets, rateOk, cap, c), now), j) == RowOf(db, j)
  {
    GroupOpens(db, a, targets, now, rateOk, cap, c);
    InvitedRow(db.parts[(c, a) := Part(Active, Admin)], c, Others(a, targets), j);
  }

  lemma OtherEndsNothing(db: Db, step: Step, now: int, j: Key)
    requires EndsNothing(step) && !step.OpenDirect? && !step.OpenGroup? && db.InState(j, Active)
    ensures RowOf(Next(db, step, now), j) == RowOf(db, j)
  {
  }

  lemma NothingEnds(db: Db, step: Step, now: int, j: Key)
    requires Inv(db) && Allowed(db, step) && EndsNothing(step) && db.InState(j, Active)
    ensures RowOf(Next(db, step, now), j) == RowOf(db, j)
  {
    match step
    case OpenDirect(a, b, rateOk, c) =>
      NobodyThere(db, c);
      DirectEndsNothing(db, a, b, rateOk, c, now, j);
    case OpenGroup(a, targets, rateOk, cap, c) =>
      NobodyThere(db, c);
      GroupEndsNothing(db, a, targets, rateOk, cap, c, now, j);
    case _ => OtherEndsNothing(db, step, now, j);
  }

  /** The messaging services touch conversations and membership rows only. */
  lemma MembershipTouchesRows(db: Db, step: Step, now: int)
    requires !IsAccountStep(step)
    ensures var after := Next(db, step, now); after == db.(convs := after.convs, parts := after.parts)
  {
  }

  lemma AccountsTakeNoWard(db: Db, step: Step, now: int)
    requires IsAccountStep(step) && EndsNothing(step)
    ensures KeepsLinksAndCohorts(db, Next(db, step, now))
  {
  }

  lemma NoWardGoes(db: Db, step: Step, now: int)
    requires EndsNothing(step)
    ensures KeepsLinksAndCohorts(db, Next(db, step, now))
  {
    if IsAccountStep(step) {
      AccountsTakeNoWard(db, step, now);
    } else {
      MembershipTouchesRows(db, step, now);
    }
  }

  lemma QuietObserver(db: Db, step: Step, now: int, k: Key)
    requires Inv(db) && Allowed(db, step) && EndsNothing(step) && db.Observes(k) && HasChildWard(db, k.1, k.0)
    ensures StaysWithWard(db, step, now, k)
  {
    NoWardGoes(db, step, now);
    forall j | db.InState(j, Active) ensures RowOf(Next(db, step, now), j) == RowOf(db, j) {
      NothingEnds(db, step, now, j);
    }
    WardRemains(db, Next(db, step, now), k);
  }

  lemma EndedObserver(db: Db, step: Step, now: int, k: Key)
    requires Grown(db) && (step.Decline? || step.Quit? || step.Expel?) && db.Observes(k) && HasChildWard(db, k.1, k.0)
    ensures StaysWithWard(db, step, now, k)
  {
    match step
    case Decline(u, c) =>
      if db.InState((c, u), Invited) {
        EndsBeside(db, (c, u), Declined, k);
      }
    case Quit(u, c) =>
      if db.Present((c, u)) {
        EndsBeside(db, (c, u), Left, k);
      }
    case Expel(actor, c, target) =>
      if RemoveParticipant(db, actor, c, target).Done? {
        EndsBeside(db, (c, target), Removed, k);
      }
  }

  lemma EvictedObserver(db: Db, u: UserId, k: Key)
    requires Grown(db) && db.Observes(k) && HasChildWard(db, k.1, k.0)
    ensures RemoveUser(db, u).Observes(k) <==> HasChildWard(RemoveUser(db, u), k.1, k.0) && k.1 != u
  {
    EvictionIsExact(db, u, k);
  }

  lemma PausedObserver(db: Db, u: UserId, now: int, k: Key)
    requires Grown(db) && db.Observes(k) && HasChildWard(db, k.1, k.0)
    ensures StaysWithWard(db, Pause(u), now, k)
  {
    EvictedObserver(db, u, k);
  }

  lemma UnlinkEnds(db: Db, after: Db, g: UserId, w: UserId, now: int, k: Key)
    ensures Ends(db, after, Unlink(g, w), now, k).None? <==> (k.1 == w ==> Cleared(after, w, now))
  {
  }

  lemma UnlinkStep(db: Db, g: UserId, w: UserId, now: int)
    ensures Next(db, Unlink(g, w), now) == RevokeGuardian(db, g, w, now)
  {
  }

  lemma UnlinkedObserver(db: Db, g: UserId, w: UserId, now: int, k: Key)
    requires Grown(db) && db.Observes(k) && HasChildWard(db, k.1, k.0)
    ensures StaysWithWard(db, Unlink(g, w), now, k)
  {
    UnlinkStep(db, g, w, now);
    RevocationAndObserver(db, g, w, now, k);
    UnlinkEnds(db, RevokeGuardian(db, g, w, now), g, w, now, k);
  }

  lemma ConsentsAndWards(db: Db, w: UserId, k: Key)
    requires Grown(db)
    ensures Grown(WithoutConsents(db, w))
    ensures HasChildWard(WithoutConsents(db, w), k.1, k.0) <==> HasChildWard(db, k.1, k.0)
  {
    forall v ensures ChildWard(WithoutConsents(db, w), k.1, k.0, v) <==> ChildWard(db, k.1, k.0, v) {
    }
  }

  lemma WithdrawalEnds(db: Db, after: Db, g: UserId, w: UserId, now: int, k: Key)
    ensures Ends(db, after, Unconsenting(g, w), now, k).None? <==> !(k.1 == w && db.IsGuardianOf(g, w))
  {
  }

  lemma WithdrawalStep(db: Db, g: UserId, w: UserId, now: int)
    ensures Next(db, Unconsenting(g, w), now)
         == if db.IsGuardianOf(g, w) then RemoveUser(WithoutConsents(db, w), w) else db
  {
  }

  lemma ConsentAndObserver(db: Db, g: UserId, w: UserId, now: int, k: Key)
    requires Grown(db) && db.Observes(k) && HasChildWard(db, k.1, k.0)
    ensures StaysWithWard(db, Unconsenting(g, w), now, k)
  {
    WithdrawalStep(db, g, w, now);
    WithdrawalEnds(db, Next(db, Unconsenting(g, w), now), g, w, now, k);
    if db.IsGuardianOf(g, w) {
      ConsentsAndWards(db, w, k);
      EvictedObserver(WithoutConsents(db, w), w, k);
    }
  }

  lemma ErasureAndObserver(db: Db, after: Db, target: UserId, wards: seq<UserId>, now: int, k: Key)
    requires Grown(db) && db.Observes(k) && HasChildWard(db, k.1, k.0) && k.1 != target
    requires after == Forget(RemoveUser(RevokeAll(db, target, wards, now), target), target)
    ensures after.Observes(k) <==> HasChildWard(after, k.1, k.0) && (k.1 in wards ==> Cleared(after, k.1, now))
  {
    ErasureIsExact(db, after, target, wards, now, k);
  }

  lemma ErasureEnds(db: Db, after: Db, actor: UserId, target: UserId, wards: seq<UserId>, now: int, k: Key)
    requires Erases(db, actor, target)
    ensures Ends(db, after, Erase(actor, target, wards), now, k).None? <==> (k.1 in wards ==> Cleared(after, k.1, now))
  {
  }

  lemma ErasedBeside(db: Db, actor: UserId, target: UserId, wards: seq<UserId>, now: int, k: Key)
    requires Grown(db) && db.Observes(k) && HasChildWard(db, k.1, k.0) && k.1 != target
    ensures StaysWithWard(db, Erase(actor, target, wards), now, k)
  {
    ErasureStep(db, actor, target, wards, now);
    if Erases(db, actor, target) {
      ErasureAndObserver(db, Next(db, Erase(actor, target, wards), now), target, wards, now, k);
      ErasureEnds(db, Next(db, Erase(actor, target, wards), now), actor, target, wards, now, k);
    }
  }

  /** Every step, seen from whoever observes a ward: they go on observing exactly as long as some child
      ward of theirs is active there and their own presence has not ended. Only the first commit of a
      verification is excepted: the eviction it calls for comes later. */
  lemma ObserversChange(db: Db, step: Step, now: int, k: Key)
    requires Inv(db) && Allowed(db, step) && db.Observes(k) && HasChildWard(db, k.1, k.0)
    requires !step.Store? && !(step.Erase? && k.1 == step.target)
    ensures StaysWithWard(db, step, now, k)
  {
    SettledIsGrown(db);
    match step
    case Pause(u) => PausedObserver(db, u, now, k);
    case Unlink(g, w) => UnlinkedObserver(db, g, w, now, k);
    case Unconsenting(g, w) => ConsentAndObserver(db, g, w, now, k);
    case Erase(actor, target, wards) => ErasedBeside(db, actor, target, wards, now, k);
    case Decline(_, _) => EndedObserver(db, step, now, k);
    case Quit(_, _) => EndedObserver(db, step, now, k);
    case Expel(_, _, _) => EndedObserver(db, step, now, k);
    case _ => QuietObserver(db, step, now, k);
  }
}
