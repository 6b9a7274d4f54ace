/** Users, cohorts, guardianships and conversation membership: the stored rows and what each
    service does to them. A service that raises leaves the rows as they were. */
module Membership {
  import opened Options

  type UserId = nat
  type ConvId = nat
  type MsgId = nat

  datatype AgeBand = UnknownBand | Under16 | From16To17 | AdultBand
  datatype Cohort = Unassigned | Child | Teen | Adult
  datatype Kind = Direct | Group
  datatype State = Invited | Active | Declined | Left | Removed
  datatype Role = Admin | Member | Guardian

  datatype User = User(band: AgeBand, cohort: Cohort, verified: bool, proofExpires: Option<int>, enabled: bool)
  datatype Conv = Conv(kind: Kind, cohort: Cohort)
  datatype Part = Part(state: State, role: Role)
  datatype Consent = Consent(active: bool, expires: Option<int>)
  datatype Message = Message(conv: ConvId, sender: UserId, keys: set<UserId>)

  type Key = (ConvId, UserId)

  /** The last two fields are history that no service reads: everyone ever proven adult, and everyone
      whose stored cohort changed and whose old rows have not been ended since. */
  datatype Db = Db(
    users: map<UserId, User>,
    convs: map<ConvId, Conv>,
    parts: map<Key, Part>,
    links: map<(UserId, UserId), bool>,
    consents: map<(UserId, UserId), Consent>,
    blocks: set<(UserId, UserId)>,
    messages: map<MsgId, Message>,
    adults: set<UserId>,
    pending: set<UserId>)
  {
    predicate InState(k: Key, state: State) {
      k in parts && parts[k].state == state
    }

    predicate Present(k: Key) {
      InState(k, Active) || InState(k, Invited)
    }

    predicate Observes(k: Key) {
      InState(k, Active) && parts[k].role == Guardian
    }

    predicate IsA(u: UserId, cohort: Cohort) {
      u in users && users[u].cohort == cohort
    }

    predicate IsGuardianOf(g: UserId, w: UserId) {
      (g, w) in links && links[(g, w)]
    }

    /** The CHILD wards of `g` who are active in `c`. */
    function ChildWardsIn(g: UserId, c: ConvId): set<UserId> {
      set l | l in links && l.0 == g && links[l] && InState((c, l.1), Active) && IsA(l.1, Child) :: l.1
    }

    /** The wards of `g` speaking in `c` who are children, or whose old rows are late to be ended. */
    function Basis(g: UserId, c: ConvId, late: set<UserId>): set<UserId> {
      set l | l in links && l.0 == g && links[l] && InState((c, l.1), Active) && parts[(c, l.1)].role != Guardian
              && (IsA(l.1, Child) || l.1 in late) :: l.1
    }

    predicate CanParticipate(u: UserId, now: int) {
      && u in users
      && users[u].verified
      && (users[u].proofExpires.Some? ==> users[u].proofExpires.value > now)
      && (users[u].band == Under16 ==> HasValidConsent(u, now))
    }

    predicate HasValidConsent(u: UserId, now: int) {
      exists k :: k in consents && k.0 == u && consents[k].active
                  && (consents[k].expires.Some? ==> consents[k].expires.value > now)
    }

    predicate CanMessage(a: UserId, b: UserId, now: int) {
      && a != b && a in users && b in users && users[b].enabled
      && users[a].cohort != Unassigned && users[a].cohort == users[b].cohort
      && CanParticipate(a, now) && CanParticipate(b, now)
      && (a, b) !in blocks && (b, a) !in blocks
    }

    predicate CanView(u: UserId, c: ConvId, now: int) {
      && u in users && users[u].enabled && c in convs
      && InState((c, u), Active)
      && (parts[(c, u)].role == Guardian || (users[u].cohort == convs[c].cohort && CanParticipate(u, now)))
    }

    function Members(c: ConvId): set<UserId> {
      set k | k in parts && k.0 == c && parts[k].state == Active :: k.1
    }
  }

  function CohortOf(band: AgeBand): Cohort {
    match band
    case Under16 => Child
    case From16To17 => Teen
    case AdultBand => Adult
    case UnknownBand => Unassigned
  }

  datatype Outcome = Done(db: Db) | Refused

  /** A refused request leaves the rows as they were. */
  function Applied(db: Db, r: Outcome): Db {
    if r.Done? then r.db else db
  }

  function Put(db: Db, k: Key, p: Part): Db {
    db.(parts := db.parts[k := p])
  }

  // ----- The cascades -----

  predicate Orphaned(db: Db, k: Key) {
    db.Observes(k) && db.ChildWardsIn(k.1, k.0) == {}
  }

  /** End every observer in `convs` who has no active CHILD ward there. */
  function PruneIn(db: Db, convs: set<ConvId>): Db {
    db.(parts := map k | k in db.parts ::
      if k.0 in convs && Orphaned(db, k) then db.parts[k].(state := Removed) else db.parts[k])
  }

  /** The same for one guardian, wherever they observe. */
  function DropObserver(db: Db, g: UserId): Db {
    db.(parts := map k | k in db.parts ::
      if k.1 == g && Orphaned(db, k) then db.parts[k].(state := Removed) else db.parts[k])
  }

  function Evict(db: Db, u: UserId): Db {
    db.(parts := map k | k in db.parts ::
      if k.1 == u && db.Present(k) then db.parts[k].(state := Removed) else db.parts[k],
      pending := db.pending - {u})
  }

  function PresentIn(db: Db, u: UserId): set<ConvId> {
    set k | k in db.parts && k.1 == u && db.Present(k) :: k.0
  }

  function RemoveUser(db: Db, u: UserId): Db {
    PruneIn(Evict(db, u), PresentIn(db, u))
  }

  // ----- Messaging services -----

  predicate HaveDirect(db: Db, a: UserId, b: UserId) {
    exists c :: c in db.convs && db.convs[c].kind == Direct && (c, a) in db.parts && (c, b) in db.parts
  }

  /** `c` is the id the database would give a new conversation. */
  function StartDirect(db: Db, a: UserId, b: UserId, now: int, rateOk: bool, c: ConvId): Outcome {
    if !db.CanMessage(a, b, now) then Refused
    else if HaveDirect(db, a, b) then Done(db)
    else if !rateOk then Refused
    else
      Done(db.(convs := db.convs[c := Conv(Direct, db.users[a].cohort)],
               parts := db.parts[(c, a) := Part(Active, Admin)][(c, b) := Part(Invited, Member)]))
  }

  function Distinct(targets: seq<UserId>, seen: set<UserId>): (r: set<UserId>)
    ensures r == (set t | t in targets) - seen
  {
    if targets == [] then {}
    else
      assert targets == [targets[0]] + targets[1..];
      (if targets[0] in seen then {} else {targets[0]}) + Distinct(targets[1..], seen + {targets[0]})
  }

  function InviteAll(parts: map<Key, Part>, c: ConvId, targets: set<UserId>): map<Key, Part> {
    map k | k in parts.Keys + (set t | t in targets :: (c, t)) ::
      if k.0 == c && k.1 in targets then Part(Invited, Member) else parts[k]
  }

  function StartGroup(db: Db, a: UserId, targets: seq<UserId>, now: int, rateOk: bool, cap: int, c: ConvId): Outcome {
    var others := Distinct(targets, {a});
    if others == {} || |others| + 1 > cap then Refused
    else if !(forall t :: t in others ==> db.CanMessage(a, t, now)) || !rateOk then Refused
    else
      Done(db.(convs := db.convs[c := Conv(Group, db.users[a].cohort)],
               parts := InviteAll(db.parts[(c, a) := Part(Active, Admin)], c, others)))
  }

  function AcceptInvite(db: Db, u: UserId, c: ConvId, now: int): Outcome {
    if !db.InState((c, u), Invited) then Refused
    else if u !in db.users || c !in db.convs then Refused
    else if db.users[u].cohort == Unassigned || db.users[u].cohort != db.convs[c].cohort then Refused
    else if !db.CanParticipate(u, now) then Refused
    else Done(Put(db, (c, u), db.parts[(c, u)].(state := Active)))
  }

  function DeclineInvite(db: Db, u: UserId, c: ConvId): Outcome {
    if !db.InState((c, u), Invited) then Refused
    else Done(PruneIn(Put(db, (c, u), db.parts[(c, u)].(state := Declined)), {c}))
  }

  function Leave(db: Db, u: UserId, c: ConvId): Outcome {
    if !db.Present((c, u)) then Refused
    else Done(PruneIn(Put(db, (c, u), db.parts[(c, u)].(state := Left)), {c}))
  }

  predicate ActiveAdmin(db: Db, u: UserId, c: ConvId) {
    db.InState((c, u), Active) && db.parts[(c, u)].role == Admin
  }

  function PresentCount(db: Db, c: ConvId): nat {
    |set k | k in db.parts && k.0 == c && db.Present(k)|
  }

  function AddParticipant(db: Db, actor: UserId, c: ConvId, target: UserId, now: int, cap: int): Outcome {
    if c !in db.convs || db.convs[c].kind != Group || !ActiveAdmin(db, actor, c) then Refused
    else if !db.CanMessage(actor, target, now) || db.users[target].cohort != db.convs[c].cohort then Refused
    else if db.Present((c, target)) then Done(db)
    else if PresentCount(db, c) >= cap then Refused
    else if (c, target) in db.parts then Done(Put(db, (c, target), db.parts[(c, target)].(state := Invited)))
    else Done(Put(db, (c, target), Part(Invited, Member)))
  }

  function RemoveParticipant(db: Db, actor: UserId, c: ConvId, target: UserId): Outcome {
    if !ActiveAdmin(db, actor, c) || actor == target || !db.Present((c, target)) then Refused
    else if db.parts[(c, target)].role == Guardian then Refused
    else Done(PruneIn(Put(db, (c, target), db.parts[(c, target)].(state := Removed)), {c}))
  }

  function AddGuardianObserver(db: Db, g: UserId, c: ConvId, now: int, hasKey: bool): Outcome {
    if !db.IsA(g, Adult) || !db.CanParticipate(g, now) then Refused
    else if db.ChildWardsIn(g, c) == {} || !hasKey then Refused
    else if db.InState((c, g), Active) then Done(db)
    else Done(Put(db, (c, g), Part(Active, Guardian)))
  }

  // ----- Account services -----

  function Register(db: Db, u: UserId): Outcome {
    if u in db.users then Refused
    else Done(db.(users := db.users[u := User(UnknownBand, Unassigned, false, None, true)]))
  }

  function Enable(db: Db, u: UserId, enabled: bool): Outcome {
    if u !in db.users then Refused
    else Done(db.(users := db.users[u := db.users[u].(enabled := enabled)]))
  }

  predicate ChangesCohort(db: Db, u: UserId, band: AgeBand)
    requires u in db.users
  {
    CohortOf(band) != db.users[u].cohort && db.users[u].cohort != Unassigned
  }

  /** The first commit of a verification. */
  function StoreBand(db: Db, u: UserId, band: AgeBand, verified: bool): Db
    requires u in db.users
  {
    db.(users := db.users[u := db.users[u].(band := band, cohort := CohortOf(band), verified := verified)],
        adults := if CohortOf(band) == Adult then db.adults + {u} else db.adults,
        pending := if ChangesCohort(db, u, band) then db.pending + {u} else db.pending)
  }

  /** The last commit of a verification. */
  function RecordProof(db: Db, u: UserId, expires: Option<int>): Db
    requires u in db.users
  {
    db.(users := db.users[u := db.users[u].(proofExpires := expires)])
  }

  /** A verification that got as far as `commits` of its three commits: the band is stored, the user is
      evicted if their cohort changed, the proof is recorded. */
  function Assured(db: Db, u: UserId, band: AgeBand, verified: bool, expires: Option<int>, commits: nat): Db
    requires u in db.users
  {
    var stored := if commits >= 1 then StoreBand(db, u, band, verified) else db;
    var evicted := if commits >= 2 && ChangesCohort(db, u, band) then RemoveUser(stored, u) else stored;
    if commits >= 3 then RecordProof(evicted, u, expires) else evicted
  }

  function LinkGuardian(db: Db, g: UserId, w: UserId): Outcome {
    if g == w || !db.IsA(g, Adult) || w !in db.users then Refused
    else Done(db.(links := db.links[(g, w) := true]))
  }

  function WithoutLink(db: Db, g: UserId, w: UserId): Db {
    db.(links := if (g, w) in db.links then db.links[(g, w) := false] else db.links,
        consents := if (w, g) in db.consents then db.consents[(w, g) := db.consents[(w, g)].(active := false)]
          else db.consents)
  }

  function RevokeGuardian(db: Db, g: UserId, w: UserId, now: int): Db {
    var dropped := DropObserver(WithoutLink(db, g, w), g);
    if dropped.CanParticipate(w, now) then dropped else RemoveUser(dropped, w)
  }

  function GrantConsent(db: Db, g: UserId, w: UserId, now: int, expires: int): Outcome {
    if w !in db.users || db.users[w].band != Under16 then Refused
    else if !db.IsA(g, Adult) || !db.CanParticipate(g, now) || !db.IsGuardianOf(g, w) then Refused
    else Done(db.(consents := db.consents[(w, g) := Consent(true, Some(expires))]))
  }

  function WithoutConsents(db: Db, w: UserId): Db {
    db.(consents := map k | k in db.consents :: if k.0 == w then db.consents[k].(active := false) else db.consents[k])
  }

  function RevokeConsent(db: Db, g: UserId, w: UserId): Outcome {
    if !db.IsGuardianOf(g, w) then Refused
    else Done(RemoveUser(WithoutConsents(db, w), w))
  }

  /** Revoke the guardianships of `g` over `wards`, in this order. */
  function RevokeAll(db: Db, g: UserId, wards: seq<UserId>, now: int): Db {
    if wards == [] then db
    else RevokeGuardian(RevokeAll(db, g, wards[..|wards| - 1], now), g, wards[|wards| - 1], now)
  }

  /** The row and everything that cascades from it; messages of the user are deleted outright. */
  function Forget(db: Db, u: UserId): Db {
    db.(users := map x | x in db.users && x != u :: db.users[x],
        parts := map k | k in db.parts && k.1 != u :: db.parts[k],
        links := map l | l in db.links && l.0 != u && l.1 != u :: db.links[l],
        consents := map k | k in db.consents && k.0 != u :: db.consents[k],
        blocks := (set b | b in db.blocks && b.0 != u && b.1 != u),
        messages := (map m | m in db.messages && db.messages[m].sender != u ::
          db.messages[m].(keys := db.messages[m].keys - {u})),
        pending := db.pending - {u})
  }

  /** `wards` lists the wards `target` actively guards, in any order. */
  function EraseUser(db: Db, actor: UserId, target: UserId, wards: seq<UserId>, now: int): Outcome {
    if target !in db.users || (actor != target && !db.IsGuardianOf(actor, target)) then Refused
    else Done(Forget(RemoveUser(RevokeAll(db, target, wards, now), target), target))
  }

  // ----- Sending -----

  predicate MaySend(db: Db, u: UserId, c: ConvId, now: int) {
    && db.InState((c, u), Active) && db.parts[(c, u)].role != Guardian
    && u in db.users && c in db.convs
    && db.users[u].cohort != Unassigned && db.users[u].cohort == db.convs[c].cohort
    && db.CanParticipate(u, now)
  }

  /** A stored message carries one wrapped key for each member active at that moment. */
  function Send(db: Db, u: UserId, c: ConvId, now: int, cap: int, m: MsgId): Outcome {
    if !MaySend(db, u, c, now) || |db.Members(c)| > cap then Refused
    else Done(db.(messages := db.messages[m := Message(c, u, db.Members(c))]))
  }

  function PurgeMessages(db: Db, gone: set<MsgId>): Db {
    db.(messages := map m | m in db.messages && m !in gone :: db.messages[m])
  }
}
