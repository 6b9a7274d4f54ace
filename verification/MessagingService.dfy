/** The messaging and account services over the stored rows, with the loops they run. Rows a
    query returns are visited in an arbitrary order. */
module MessagingService {
  import opened Options
  import opened Membership
  import opened CohortSafety

  function EndRows(db: Db, rows: set<Key>): Db {
    db.(parts := map k | k in db.parts :: if k in rows then db.parts[k].(state := Removed) else db.parts[k])
  }

  ghost function OrphansAmong(db: Db, rows: set<Key>): set<Key> {
    set k | k in rows && Orphaned(db, k)
  }

  lemma EndOneMore(db: Db, orphans: set<Key>, todo: set<Key>, k: Key)
    requires k in db.parts && k in todo
    ensures var mid := EndRows(db, orphans - todo);
            && mid.parts[k] == db.parts[k]
            && EndRows(db, orphans - (todo - {k})) == if k in orphans then Put(mid, k, db.parts[k].(state := Removed))
               else mid
  {
    var mid := EndRows(db, orphans - todo);
    var next := if k in orphans then Put(mid, k, db.parts[k].(state := Removed)) else mid;
    assert EndRows(db, orphans - (todo - {k})).parts == next.parts;
  }

  /** Ending some of the orphans leaves every verdict as it was. */
  ghost predicate VerdictsStand(db: Db, rows: set<Key>, orphans: set<Key>) {
    forall k, ended :: k in rows && ended <= orphans ==>
      (k in orphans <==> EndRows(db, ended).ChildWardsIn(k.1, k.0) == {})
  }

  lemma VerdictsOf(db: Db, rows: set<Key>)
    requires Grown(db) && forall k :: k in rows ==> db.Observes(k)
    ensures VerdictsStand(db, rows, OrphansAmong(db, rows))
  {
    forall k, ended | k in rows && ended <= OrphansAmong(db, rows)
      ensures k in OrphansAmong(db, rows) <==> EndRows(db, ended).ChildWardsIn(k.1, k.0) == {}
    {
      WardsWhileEnding(db, rows, ended, k);
    }
  }

  lemma WardsWhileEnding(db: Db, rows: set<Key>, ended: set<Key>, k: Key)
    requires Grown(db) && ended <= OrphansAmong(db, rows) && k in rows && db.Observes(k)
    ensures k in OrphansAmong(db, rows) <==> EndRows(db, ended).ChildWardsIn(k.1, k.0) == {}
  {
    WardsUnmoved(db, EndRows(db, ended), k.1, k.0);
  }

  lemma EndInConversation(db: Db, c: ConvId, rows: set<Key>)
    requires forall k :: k in rows <==> k in db.parts && k.0 == c && db.Observes(k)
    ensures EndRows(db, OrphansAmong(db, rows)) == PruneIn(db, {c})
  {
    assert EndRows(db, OrphansAmong(db, rows)).parts == PruneIn(db, {c}).parts;
  }

  lemma EndOfGuardian(db: Db, g: UserId, rows: set<Key>)
    requires forall k :: k in rows <==> k in db.parts && k.1 == g && db.Observes(k)
    ensures EndRows(db, OrphansAmong(db, rows)) == DropObserver(db, g)
  {
    assert EndRows(db, OrphansAmong(db, rows)).parts == DropObserver(db, g).parts;
  }

  lemma PruneNothing(db: Db)
    ensures EndRows(db, {}) == db && PruneIn(db, {}) == db
  {
    assert EndRows(db, {}).parts == db.parts && PruneIn(db, {}).parts == db.parts;
  }

  lemma PruneOneMoreConversation(db: Db, convs: set<ConvId>, c: ConvId)
    requires Grown(db)
    ensures PruneIn(PruneIn(db, convs), {c}) == PruneIn(db, convs + {c})
    ensures Grown(PruneIn(db, convs))
  {
    var mid := PruneIn(db, convs);
    forall k | k in db.parts
      ensures PruneIn(mid, {c}).parts[k] == PruneIn(db, convs + {c}).parts[k]
    {
      PruneRowTwice(db, convs, c, k);
    }
    assert PruneIn(mid, {c}).parts == PruneIn(db, convs + {c}).parts;
  }

  lemma PruneRowTwice(db: Db, convs: set<ConvId>, c: ConvId, k: Key)
    requires Grown(db) && k in db.parts
    ensures PruneIn(PruneIn(db, convs), {c}).parts[k] == PruneIn(db, convs + {c}).parts[k]
  {
    var mid := PruneIn(db, convs);
    assert OnlyObserversEnd(db, mid);
    WardsUnmoved(db, mid, k.1, k.0);
    if k.0 in convs && Orphaned(db, k) {
      assert !mid.Observes(k);
    } else {
      assert mid.parts[k] == db.parts[k];
      assert Orphaned(mid, k) <==> Orphaned(db, k);
    }
  }

  /** `Grown` but for the rows of `u`, who is about to be evicted. */
  ghost predicate GrownBut(db: Db, u: UserId) {
    forall k :: k in db.parts && k.1 != u && db.Observes(k) ==> !db.IsA(k.1, Child)
  }

  lemma RemovalIsGrown(db: Db, u: UserId)
    requires GrownBut(db, u)
    ensures Grown(RemoveUser(db, u))
  {
  }

  // ----- The recipients of a message -----

  /** A wrapped key as the client supplies it; an address that names nobody is nobody's id. */
  datatype RecipientKey = RecipientKey(user: UserId, complete: bool)

  ghost predicate ExactKeys(rks: seq<RecipientKey>, members: set<UserId>) {
    && (forall i :: 0 <= i < |rks| ==> rks[i].complete && rks[i].user in members)
    && (forall i, j :: 0 <= i < j < |rks| ==> rks[i].user != rks[j].user)
    && (forall u :: u in members ==> exists i :: 0 <= i < |rks| && rks[i].user == u)
  }

  /** An exact key set holds one key per member. */
  lemma {:induction false} OneKeyEach(rks: seq<RecipientKey>, members: set<UserId>)
    requires ExactKeys(rks, members)
    ensures |rks| == |members|
    decreases |rks|
  {
    if rks != [] {
      var last := rks[|rks| - 1].user;
      var front := rks[..|rks| - 1];
      forall u | u in members - {last} ensures exists i :: 0 <= i < |front| && front[i].user == u {
        var i :| 0 <= i < |rks| && rks[i].user == u;
        assert front[i].user == u;
      }
      OneKeyEach(front, members - {last});
    } else {
      assert members == {};
    }
  }

  class Service {
    var users: map<UserId, User>
    var convs: map<ConvId, Conv>
    var parts: map<Key, Part>
    var links: map<(UserId, UserId), bool>
    var consents: map<(UserId, UserId), Consent>
    var blocks: set<(UserId, UserId)>
    var messages: map<MsgId, Message>
    ghost var adults: set<UserId>
    ghost var pending: set<UserId>

    constructor ()
      ensures State() == EMPTY
    {
      users, convs, parts, links, consents := map[], map[], map[], map[], map[];
      blocks, messages, adults, pending := {}, map[], {}, {};
    }

    ghost function State(): Db
      reads this
    {
      Db(users, convs, parts, links, consents, blocks, messages, adults, pending)
    }

    method ChildWardsIn(g: UserId, c: ConvId) returns (wards: set<UserId>)
      ensures wards == State().ChildWardsIn(g, c)
    {
      wards := set l | l in links && l.0 == g && links[l]
                       && (c, l.1) in parts && parts[(c, l.1)].state == Active
                       && l.1 in users && users[l.1].cohort == Child :: l.1;
    }

    method CanParticipate(u: UserId, now: int) returns (ok: bool)
      ensures ok == State().CanParticipate(u, now)
    {
      if u !in users || !users[u].verified {
        return false;
      }
      if users[u].proofExpires.Some? && users[u].proofExpires.value <= now {
        return false;
      }
      if users[u].band == Under16 {
        ok := exists k :: k in consents && k.0 == u && consents[k].active
                          && (consents[k].expires.Some? ==> consents[k].expires.value > now);
        return;
      }
      ok := true;
    }

    /** End this observer if no active CHILD ward is left in the conversation. */
    method EndIfOrphaned(k: Key, ghost before: Db, ghost rows: set<Key>, ghost orphans: set<Key>, ghost todo: set<Key>)
      requires k in before.parts && k in todo && k in rows && VerdictsStand(before, rows, orphans)
      requires State() == EndRows(before, orphans - todo)
      modifies `parts
      ensures State() == EndRows(before, orphans - (todo - {k}))
    {
      EndOneMore(before, orphans, todo, k);
      var wards := ChildWardsIn(k.1, k.0);
      if wards == {} {
        parts := parts[k := parts[k].(state := Removed)];
      }
    }

    /** The loop over observers, in whatever order the query returned them. */
    method PruneListed(rows: set<Key>, ghost orphans: set<Key>)
      requires rows <= parts.Keys && orphans <= rows && VerdictsStand(State(), rows, orphans)
      modifies `parts
      ensures State() == EndRows(old(State()), orphans)
    {
      ghost var before := State();
      var todo := rows;
      PruneNothing(before);
      assert orphans - todo == {};
      while todo != {}
        invariant todo <= rows
        invariant State() == EndRows(before, orphans - todo)
        decreases todo
      {
        var k :| k in todo;
        EndIfOrphaned(k, before, rows, orphans, todo);
        todo := todo - {k};
      }
      assert orphans - todo == orphans;
    }

    method PruneOrphanedGuardians(c: ConvId)
      requires Grown(State())
      modifies `parts
      ensures State() == PruneIn(old(State()), {c})
    {
      var rows := set k | k in parts && k.0 == c && parts[k].role == Guardian && parts[k].state == Active;
      EndInConversation(State(), c, rows);
      VerdictsOf(State(), rows);
      PruneListed(rows, OrphansAmong(State(), rows));
    }

    method DropGuardianObserversFor(g: UserId)
      requires Grown(State())
      modifies `parts
      ensures State() == DropObserver(old(State()), g)
    {
      var rows := set k | k in parts && k.1 == g && parts[k].role == Guardian && parts[k].state == Active;
      EndOfGuardian(State(), g, rows);
      VerdictsOf(State(), rows);
      PruneListed(rows, OrphansAmong(State(), rows));
    }

    method EvictEverywhere(u: UserId) returns (convsOf: set<ConvId>)
      requires GrownBut(State(), u)
      modifies `parts, `pending
      ensures State() == Evict(old(State()), u) && Grown(State())
      ensures convsOf == PresentIn(old(State()), u)
    {
      convsOf := set k | k in parts && k.1 == u && (parts[k].state == Active || parts[k].state == Invited) :: k.0;
      ghost var evicted := Evict(State(), u);
      parts := map k | k in parts ::
        if k.1 == u && (parts[k].state == Active || parts[k].state == Invited) then parts[k].(state := Removed)
          else parts[k];
      pending := pending - {u};
      assert parts == evicted.parts;
    }

    /** End a user's presence everywhere, then prune each conversation they were in. */
    method RemoveUserFromConversations(u: UserId) returns (affected: nat)
      requires GrownBut(State(), u)
      modifies `parts, `pending
      ensures State() == RemoveUser(old(State()), u)
      ensures affected == |PresentIn(old(State()), u)|
    {
      var convsOf := EvictEverywhere(u);
      affected := |convsOf|;
      ghost var evicted := State();
      var todo := convsOf;
      PruneNothing(evicted);
      while todo != {}
        invariant todo <= convsOf
        invariant State() == PruneIn(evicted, convsOf - todo)
        decreases todo
      {
        var c :| c in todo;
        PruneOneMoreConversation(evicted, convsOf - todo, c);
        assert convsOf - (todo - {c}) == convsOf - todo + {c};
        PruneOrphanedGuardians(c);
        todo := todo - {c};
      }
      assert convsOf - todo == convsOf;
    }

    method CanMessage(a: UserId, b: UserId, now: int) returns (ok: bool)
      ensures ok == State().CanMessage(a, b, now)
      ensures ok ==> users[a].cohort == users[b].cohort != Unassigned && State().CanParticipate(b, now)
    {
      if a == b || a !in users || b !in users || !users[b].enabled {
        return false;
      }
      if users[a].cohort == Unassigned || users[a].cohort != users[b].cohort {
        return false;
      }
      ok := CanParticipate(a, now);
      if ok {
        ok := CanParticipate(b, now);
      }
      ok := ok && (a, b) !in blocks && (b, a) !in blocks;
    }

    method StartDirect(a: UserId, b: UserId, now: int, rateOk: bool, c: ConvId) returns (ok: bool)
      modifies `convs, `parts
      ensures ok == Membership.StartDirect(old(State()), a, b, now, rateOk, c).Done?
      ensures State() == Applied(old(State()), Membership.StartDirect(old(State()), a, b, now, rateOk, c))
    {
      ok := CanMessage(a, b, now);
      if !ok {
        return;
      }
      var existing := exists x :: x in convs && convs[x].kind == Direct && (x, a) in parts && (x, b) in parts;
      if existing {
        return true;
      }
      ok := rateOk;
      if ok {
        convs := convs[c := Conv(Direct, users[a].cohort)];
        parts := parts[(c, a) := Part(Active, Admin)];
        parts := parts[(c, b) := Part(Invited, Member)];
      }
    }

    /** The distinct targets other than the initiator. */
    method UniqueTargets(a: UserId, targets: seq<UserId>) returns (others: set<UserId>)
      ensures others == Distinct(targets, {a})
    {
      others := {};
      for i := 0 to |targets|
        invariant others == (set t | t in targets[..i]) - {a}
      {
        assert targets[..i + 1] == targets[..i] + [targets[i]];
        if targets[i] != a && targets[i] !in others {
          others := others + {targets[i]};
        }
      }
      assert targets[..|targets|] == targets;
    }

    method AllContactable(a: UserId, others: set<UserId>, now: int) returns (ok: bool)
      ensures ok <==> forall t :: t in others ==> State().CanMessage(a, t, now)
    {
      var todo := others;
      while todo != {}
        invariant todo <= others
        invariant forall t :: t in others && t !in todo ==> State().CanMessage(a, t, now)
        decreases todo
      {
        var t :| t in todo;
        ok := CanMessage(a, t, now);
        if !ok {
          return;
        }
        todo := todo - {t};
      }
      ok := true;
    }

    /** Open a group: the initiator administers it, every other distinct target is invited. */
    method StartGroup(a: UserId, targets: seq<UserId>, now: int, rateOk: bool, cap: int, c: ConvId) returns (ok: bool)
      modifies `convs, `parts
      ensures ok == Membership.StartGroup(old(State()), a, targets, now, rateOk, cap, c).Done?
      ensures State() == Applied(old(State()), Membership.StartGroup(old(State()), a, targets, now, rateOk, cap, c))
    {
      var others := UniqueTargets(a, targets);
      if others == {} || |others| + 1 > cap {
        return false;
      }
      ok := AllContactable(a, others, now);
      ok := ok && rateOk;
      if ok {
        CreateGroup(a, others, now, c);
      }
    }

    method CreateGroup(a: UserId, others: set<UserId>, ghost now: int, c: ConvId)
      requires others != {} && forall t :: t in others ==> State().CanMessage(a, t, now)
      modifies `convs, `parts
      ensures a in users && convs == old(convs)[c := Conv(Group, users[a].cohort)]
      ensures parts == InviteAll(old(parts)[(c, a) := Part(Active, Admin)], c, others)
    {
      ghost var t :| t in others;
      assert State().CanMessage(a, t, now);
      convs := convs[c := Conv(Group, users[a].cohort)];
      parts := parts[(c, a) := Part(Active, Admin)];
      InviteEach(c, others);
    }

    method InviteEach(c: ConvId, others: set<UserId>)
      modifies `parts
      ensures parts == InviteAll(old(parts), c, others)
    {
      var todo := others;
      assert parts == InviteAll(parts, c, others - todo);
      while todo != {}
        invariant todo <= others
        invariant parts == InviteAll(old(parts), c, others - todo)
        decreases todo
      {
        var t :| t in todo;
        var rest := todo - {t};
        assert InviteAll(old(parts), c, others - rest) == parts[(c, t) := Part(Invited, Member)];
        parts := parts[(c, t) := Part(Invited, Member)];
        todo := rest;
      }
      assert others - todo == others;
    }

    method AddParticipant(actor: UserId, c: ConvId, target: UserId, now: int, cap: int) returns (ok: bool)
      modifies `parts
      ensures ok == Membership.AddParticipant(old(State()), actor, c, target, now, cap).Done?
      ensures State() == Applied(old(State()), Membership.AddParticipant(old(State()), actor, c, target, now, cap))
    {
      if c !in convs || convs[c].kind != Group || (c, actor) !in parts || parts[(c, actor)] != Part(Active, Admin) {
        return false;
      }
      ok := CanMessage(actor, target, now);
      if !ok || users[target].cohort != convs[c].cohort {
        return false;
      }
      var k := (c, target);
      if k in parts && (parts[k].state == Active || parts[k].state == Invited) {
        return true;
      }
      var current := |set j | j in parts && j.0 == c && (parts[j].state == Active || parts[j].state == Invited)|;
      assert current == PresentCount(State(), c) by {
        assert (set j | j in parts && j.0 == c && (parts[j].state == Active || parts[j].state == Invited))
            == (set j | j in parts && j.0 == c && State().Present(j));
      }
      if current >= cap {
        return false;
      }
      parts := if k in parts then parts[k := parts[k].(state := Invited)] else parts[k := Part(Invited, Member)];
    }

    /** Store a message and its wrapped keys. It is accepted exactly when the sender may send and
        the supplied keys address exactly the active members, each once. */
    method PostMessage(u: UserId, c: ConvId, rks: seq<RecipientKey>, hasContent: bool, size: nat, maxSize: nat,
                       now: int, cap: nat, rateOk: bool, m: MsgId) returns (ok: bool)
      modifies `messages
      ensures ok <==> MaySend(old(State()), u, c, now) && hasContent && size <= maxSize && |rks| <= cap && rateOk
                      && |old(State()).Members(c)| <= cap && ExactKeys(rks, old(State()).Members(c))
      ensures State() == (if ok then Applied(old(State()), Send(old(State()), u, c, now, cap, m)) else old(State()))
      ensures ok ==> |rks| == |old(State()).Members(c)| && messages[m].keys == set rk | rk in rks :: rk.user
    {
      if (c, u) !in parts || parts[(c, u)].state != Active || parts[(c, u)].role == Guardian || u !in users
        || c !in convs {
        return false;
      }
      if users[u].cohort == Unassigned || users[u].cohort != convs[c].cohort {
        return false;
      }
      ok := CanParticipate(u, now);
      if !ok || !hasContent || size > maxSize || |rks| > cap || !rateOk {
        return false;
      }
      var active := set k | k in parts && k.0 == c && parts[k].state == Active :: k.1;
      if |active| > cap {
        return false;
      }
      ok := CheckKeys(rks, active);
      if ok {
        OneKeyEach(rks, active);
        assert active == set rk | rk in rks :: rk.user;
        messages := messages[m := Message(c, u, active)];
      }
    }

    method CheckKeys(rks: seq<RecipientKey>, active: set<UserId>) returns (ok: bool)
      ensures ok <==> ExactKeys(rks, active)
    {
      var provided: set<UserId> := {};
      for i := 0 to |rks|
        invariant forall j :: 0 <= j < i ==> rks[j].complete && rks[j].user in active && rks[j].user in provided
        invariant forall j, l :: 0 <= j < l < i ==> rks[j].user != rks[l].user
        invariant forall x :: x in provided ==> exists j :: 0 <= j < i && rks[j].user == x
      {
        if rks[i].user !in active || rks[i].user in provided || !rks[i].complete {
          return false;
        }
        provided := provided + {rks[i].user};
      }
      ok := provided == active;
    }

    method AcceptInvite(u: UserId, c: ConvId, now: int) returns (ok: bool)
      modifies `parts
      ensures ok == Membership.AcceptInvite(old(State()), u, c, now).Done?
      ensures State() == Applied(old(State()), Membership.AcceptInvite(old(State()), u, c, now))
    {
      if (c, u) !in parts || parts[(c, u)].state != Invited || u !in users || c !in convs {
        return false;
      }
      if users[u].cohort == Unassigned || users[u].cohort != convs[c].cohort {
        return false;
      }
      ok := CanParticipate(u, now);
      if ok {
        parts := parts[(c, u) := parts[(c, u)].(state := Active)];
      }
    }

    lemma StillGrown(k: Key, p: Part)
      requires Grown(State()) && k in parts && p.state != Active
      ensures Grown(Put(State(), k, p))
    {
    }

    method DeclineInvite(u: UserId, c: ConvId) returns (ok: bool)
      requires Grown(State())
      modifies `parts
      ensures ok == Membership.DeclineInvite(old(State()), u, c).Done?
      ensures State() == Applied(old(State()), Membership.DeclineInvite(old(State()), u, c))
    {
      if (c, u) !in parts || parts[(c, u)].state != Invited {
        return false;
      }
      StillGrown((c, u), parts[(c, u)].(state := Declined));
      parts := parts[(c, u) := parts[(c, u)].(state := Declined)];
      PruneOrphanedGuardians(c);
      ok := true;
    }

    method Leave(u: UserId, c: ConvId) returns (ok: bool)
      requires Grown(State())
      modifies `parts
      ensures ok == Membership.Leave(old(State()), u, c).Done?
      ensures State() == Applied(old(State()), Membership.Leave(old(State()), u, c))
    {
      if (c, u) !in parts || (parts[(c, u)].state != Active && parts[(c, u)].state != Invited) {
        return false;
      }
      StillGrown((c, u), parts[(c, u)].(state := Left));
      parts := parts[(c, u) := parts[(c, u)].(state := Left)];
      PruneOrphanedGuardians(c);
      ok := true;
    }

    method RemoveParticipant(actor: UserId, c: ConvId, target: UserId) returns (ok: bool)
      requires Grown(State())
      modifies `parts
      ensures ok == Membership.RemoveParticipant(old(State()), actor, c, target).Done?
      ensures State() == Applied(old(State()), Membership.RemoveParticipant(old(State()), actor, c, target))
    {
      var k := (c, target);
      if (c, actor) !in parts || parts[(c, actor)] != Part(Active, Admin) || actor == target {
        return false;
      }
      if k !in parts || (parts[k].state != Active && parts[k].state != Invited) || parts[k].role == Guardian {
        return false;
      }
      StillGrown(k, parts[k].(state := Removed));
      parts := parts[k := parts[k].(state := Removed)];
      PruneOrphanedGuardians(c);
      ok := true;
    }

    method AddGuardianObserver(g: UserId, c: ConvId, now: int, hasKey: bool) returns (ok: bool)
      modifies `parts
      ensures ok == Membership.AddGuardianObserver(old(State()), g, c, now, hasKey).Done?
      ensures State() == Applied(old(State()), Membership.AddGuardianObserver(old(State()), g, c, now, hasKey))
    {
      var eligible := CanParticipate(g, now);
      if g !in users || users[g].cohort != Adult || !eligible {
        return false;
      }
      var wards := ChildWardsIn(g, c);
      if wards == {} || !hasKey {
        return false;
      }
      if (c, g) !in parts || parts[(c, g)].state != Active {
        parts := parts[(c, g) := Part(Active, Guardian)];
      }
      ok := true;
    }

    method StoreBand(u: UserId, band: AgeBand, verified: bool)
      requires u in users
      modifies `users, `adults, `pending
      ensures State() == Membership.StoreBand(old(State()), u, band, verified)
    {
      if CohortOf(band) != users[u].cohort && users[u].cohort != Unassigned {
        pending := pending + {u};
      }
      if CohortOf(band) == Adult {
        adults := adults + {u};
      }
      users := users[u := users[u].(band := band, cohort := CohortOf(band), verified := verified)];
    }

    /** Three transactions, and no more than the first `commits` of them: store the band, evict a user
        whose cohort changed, record the proof. */
    method ApplyAssurance(u: UserId, band: AgeBand, verified: bool, expires: Option<int>, commits: nat)
      requires u in users && GrownBut(State(), u)
      modifies `users, `parts, `adults, `pending
      ensures State() == Assured(old(State()), u, band, verified, expires, commits)
    {
      var was := users[u].cohort;
      if commits < 1 {
        return;
      }
      StoreBand(u, band, verified);
      if users[u].cohort != was && was != Unassigned {
        if commits < 2 {
          return;
        }
        var _ := RemoveUserFromConversations(u);
      }
      if commits < 3 {
        return;
      }
      users := users[u := users[u].(proofExpires := expires)];
    }

    method Unlink(g: UserId, w: UserId)
      modifies `links, `consents
      ensures State() == WithoutLink(old(State()), g, w)
    {
      if (g, w) in links {
        links := links[(g, w) := false];
      }
      if (w, g) in consents {
        consents := consents[(w, g) := consents[(w, g)].(active := false)];
      }
    }

    method RevokeGuardian(g: UserId, w: UserId, now: int)
      requires Grown(State())
      modifies `parts, `links, `consents, `pending
      ensures State() == Membership.RevokeGuardian(old(State()), g, w, now) && Grown(State())
    {
      Unlink(g, w);
      DropGuardianObserversFor(g);
      var eligible := CanParticipate(w, now);
      if !eligible {
        RemovalIsGrown(State(), w);
        var _ := RemoveUserFromConversations(w);
      }
    }

    /** Erase an account: its guardianships one by one, its presence, its messages, its rows. */
    method EraseUser(actor: UserId, target: UserId, wards: seq<UserId>, now: int) returns (ok: bool)
      requires Grown(State())
      requires forall w :: w in wards <==> State().IsGuardianOf(target, w)
      modifies this
      ensures ok == Membership.EraseUser(old(State()), actor, target, wards, now).Done?
      ensures State() == Applied(old(State()), Membership.EraseUser(old(State()), actor, target, wards, now))
      ensures old(Inv(State())) ==> Inv(State())
    {
      ghost var before := State();
      if Inv(before) {
        StepKeepsInv(before, Erase(actor, target, wards), now);
      }
      if target !in users || (actor != target && ((actor, target) !in links || !links[(actor, target)])) {
        return false;
      }
      for i := 0 to |wards|
        invariant State() == RevokeAll(before, target, wards[..i], now) && Grown(State())
      {
        assert wards[..i + 1][..i] == wards[..i];
        RevokeGuardian(target, wards[i], now);
      }
      assert wards[..|wards|] == wards;
      var _ := RemoveUserFromConversations(target);
      Forget(target);
      ok := true;
    }

    method ForgetMessages(u: UserId)
      modifies `messages
      ensures messages == Membership.Forget(old(State()), u).messages
    {
      messages := map m | m in messages && messages[m].sender != u :: messages[m].(keys := messages[m].keys - {u});
    }

    method ForgetPeople(u: UserId)
      modifies `users, `links, `consents, `blocks
      ensures users == Membership.Forget(old(State()), u).users && links == Membership.Forget(old(State()), u).links
      ensures consents == Membership.Forget(old(State()), u).consents
      ensures blocks == Membership.Forget(old(State()), u).blocks
    {
      users := map x | x in users && x != u :: users[x];
      links := map l | l in links && l.0 != u && l.1 != u :: links[l];
      consents := map k | k in consents && k.0 != u :: consents[k];
      blocks := set b | b in blocks && b.0 != u && b.1 != u;
    }

    /** The user's row with everything that cascades from it. */
    method Forget(u: UserId)
      modifies this
      ensures State() == Membership.Forget(old(State()), u)
    {
      ForgetMessages(u);
      ForgetPeople(u);
      parts := map k | k in parts && k.1 != u :: parts[k];
      pending := pending - {u};
    }
  }
}
