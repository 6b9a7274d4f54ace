/** What every step does to accounts, guardianships, consents, blocks, conversations and messages, in terms
    of the stored fields, and what follows for whole runs. */
module Records {
  import opened Options
  import opened Membership
  import opened CohortSafety
  import opened Authority

  // ----- Messages -----

  predicate ActiveMember(db: Db, c: ConvId, u: UserId) {
    (c, u) in db.parts && db.parts[(c, u)].state == Active
  }

  /** Who may send: an active member, not an observer, of the conversation's cohort and cleared. */
  ghost predicate Sends(db: Db, u: UserId, c: ConvId, now: int, cap: int) {
    && ActiveMember(db, c, u) && db.parts[(c, u)].role != Guardian && Cleared(db, u, now)
    && c in db.convs && db.users[u].cohort == db.convs[c].cohort != Unassigned
    && |set k | k in db.parts && k.0 == c && ActiveMember(db, c, k.1) :: k.1| <= cap
  }

  ghost predicate IsSent(db: Db, u: UserId, c: ConvId, msg: Message) {
    msg.conv == c && msg.sender == u && forall r :: r in msg.keys <==> ActiveMember(db, c, r)
  }

  lemma MembersAreActive(db: Db, c: ConvId)
    ensures db.Members(c) == set k | k in db.parts && k.0 == c && ActiveMember(db, c, k.1) :: k.1
    ensures forall r :: r in db.Members(c) <==> ActiveMember(db, c, r)
  {
    forall r ensures r in db.Members(c) <==> ActiveMember(db, c, r) {
      assert ActiveMember(db, c, r) ==> (c, r) in db.parts;
    }
    var active := set k | k in db.parts && k.0 == c && ActiveMember(db, c, k.1) :: k.1;
    forall r: UserId ensures r in active <==> ActiveMember(db, c, r) {
      assert ActiveMember(db, c, r) ==> (c, r) in db.parts;
    }
  }

  /** Sending is acceptance by `Sends`, and stores exactly one message: under the conversation it was
      sent in, with its sender, wrapped for whoever is active there. */
  lemma SendIsExact(db: Db, u: UserId, c: ConvId, now: int, cap: int, m: MsgId)
    ensures var after := Next(db, SendMessage(u, c, cap, m), now);
            if Sends(db, u, c, now, cap) then
              && m in after.messages && IsSent(db, u, c, after.messages[m])
              && after == db.(messages := db.messages[m := after.messages[m]])
            else after == db
  {
    MembersAreActive(db, c);
    ClearedMayParticipate(db, u, now);
  }

  /** Reading is being able to send there, or observing, by an account that is enabled. */
  lemma ReadersSendOrObserve(db: Db, u: UserId, c: ConvId, now: int)
    requires Inv(db)
    ensures db.CanView(u, c, now) <==>
              && u in db.users && db.users[u].enabled && c in db.convs
              && (MaySend(db, u, c, now) || db.Observes((c, u)))
  {
  }

  function MessageOf(db: Db, m: MsgId): Option<Message> {
    if m in db.messages then Some(db.messages[m]) else None
  }

  /** What a step other than a send leaves of a message: a purge takes the listed ones, an erasure those
      the user sent and the user's keys. */
  function Remains(db: Db, step: Step, m: MsgId): Option<Message> {
    if m !in db.messages || (step.Purge? && m in step.gone) then None
    else if step.Erase? && Erases(db, step.actor, step.target) then
      if db.messages[m].sender == step.target then None
      else Some(db.messages[m].(keys := db.messages[m].keys - {step.target}))
    else Some(db.messages[m])
  }

  lemma {:induction false} RevocationsKeepMessages(db: Db, g: UserId, wards: seq<UserId>, now: int)
    ensures RevokeAll(db, g, wards, now).messages == db.messages
    decreases |wards|
  {
    if wards != [] {
      var mid := RevokeAll(db, g, wards[..|wards| - 1], now);
      RevocationsKeepMessages(db, g, wards[..|wards| - 1], now);
      EvictionOnlyEnds(DropObserver(WithoutLink(mid, g, wards[|wards| - 1]), g), wards[|wards| - 1]);
    }
  }

  lemma ErasureAndMessages(db: Db, actor: UserId, target: UserId, wards: seq<UserId>, now: int, m: MsgId)
    ensures var step := Erase(actor, target, wards); MessageOf(Next(db, step, now), m) == Remains(db, step, m)
  {
    ErasureStep(db, actor, target, wards, now);
    RevocationsKeepMessages(db, target, wards, now);
    EvictionOnlyEnds(RevokeAll(db, target, wards, now), target);
  }

  lemma EvictionAndMessages(db: Db, step: Step, now: int)
    requires step.Unlink? || step.Unconsenting? || step.Pause?
    ensures Next(db, step, now).messages == db.messages
  {
    match step
    case Unlink(g, w) => EvictionOnlyEnds(DropObserver(WithoutLink(db, g, w), g), w);
    case Unconsenting(g, w) => EvictionOnlyEnds(WithoutConsents(db, w), w);
    case Pause(u) => EvictionOnlyEnds(db, u);
  }

  lemma QuietAndMessages(db: Db, step: Step, now: int, m: MsgId)
    requires IsAccountStep(step) && !step.SendMessage? && !step.Erase?
    requires !step.Unlink? && !step.Unconsenting? && !step.Pause?
    ensures MessageOf(Next(db, step, now), m) == Remains(db, step, m)
  {
  }

  /** Every step, seen from one message. */
  lemma MessagesChange(db: Db, step: Step, now: int, m: MsgId)
    requires !(step.SendMessage? && step.m == m)
    ensures MessageOf(Next(db, step, now), m) == Remains(db, step, m)
  {
    if step.SendMessage? {
      SendIsExact(db, step.u, step.c, now, step.cap, step.m);
    } else if step.Erase? {
      ErasureAndMessages(db, step.actor, step.target, step.wards, now, m);
    } else if step.Unlink? || step.Unconsenting? || step.Pause? {
      EvictionAndMessages(db, step, now);
    } else if IsAccountStep(step) {
      QuietAndMessages(db, step, now, m);
    } else {
      MembershipTouchesRows(db, step, now);
    }
  }

  /** `u` was erased by one of the steps from `i` on. */
  ghost predicate ErasedSince(run: seq<(Step, int)>, i: nat, u: UserId) {
    exists j :: i <= j < |run| && run[j].0.Erase? && run[j].0.target == u
                && Erases(After(run[..j]), run[j].0.actor, u)
  }

  /** Step `i` of the run is the accepted send of this message: it is of that conversation and sender,
      and its keys are those of the members active then who were not erased since. */
  ghost predicate SentAt(run: seq<(Step, int)>, i: nat, m: MsgId, msg: Message)
    requires i < |run|
  {
    var step, db := run[i].0, After(run[..i]);
    && step.SendMessage? && step.m == m && Sends(db, step.u, step.c, run[i].1, step.cap)
    && msg.conv == step.c && msg.sender == step.u
    && forall r :: r in msg.keys <==> ActiveMember(db, step.c, r) && !ErasedSince(run, i + 1, r)
  }

  lemma ErasedOneMore(run: seq<(Step, int)>, i: nat, u: UserId)
    requires run != [] && i <= |run| - 1
    ensures var n := |run| - 1;
            ErasedSince(run, i, u) <==>
              ErasedSince(run[..n], i, u)
              || (run[n].0.Erase? && run[n].0.target == u && Erases(After(run[..n]), run[n].0.actor, u))
  {
    var n := |run| - 1;
    forall j | i <= j < n ensures run[..n][..j] == run[..j] && run[..n][j] == run[j] {
    }
  }

  lemma SentEarlier(run: seq<(Step, int)>, i: nat, m: MsgId, was: Message, msg: Message)
    requires run != [] && i < |run| - 1 && SentAt(run[..|run| - 1], i, m, was)
    requires var n := |run| - 1; Remains(After(run[..n]), run[n].0, m) == Some(msg)
    requires After(run[..|run| - 1]).messages.Keys >= {m} && After(run[..|run| - 1]).messages[m] == was
    ensures SentAt(run, i, m, msg)
  {
    var n := |run| - 1;
    assert run[..n][..i] == run[..i] && run[..n][i] == run[i];
    forall r ensures r in msg.keys <==> ActiveMember(After(run[..i]), run[i].0.c, r) && !ErasedSince(run, i + 1, r) {
      ErasedOneMore(run, i + 1, r);
    }
  }

  lemma JustSent(run: seq<(Step, int)>, m: MsgId)
    requires run != [] && run[|run| - 1].0.SendMessage? && run[|run| - 1].0.m == m
    requires m !in After(run[..|run| - 1]).messages && m in After(run).messages
    ensures SentAt(run, |run| - 1, m, After(run).messages[m])
  {
    var n := |run| - 1;
    var step := run[n].0;
    SendIsExact(After(run[..n]), step.u, step.c, run[n].1, step.cap, m);
  }

  /** After any run every stored message is the one an accepted send stored: still under that conversation
      and with that sender, its keys those of the members active then, less whoever was erased since. */
  lemma {:induction false} MessagesHaveOrigin(run: seq<(Step, int)>, m: MsgId) returns (i: nat)
    requires AllowedRun(run) && m in After(run).messages
    ensures i < |run| && SentAt(run, i, m, After(run).messages[m])
    decreases |run|
  {
    var n := |run| - 1;
    var step, db := run[n].0, After(run[..n]);
    AllowedPrefix(run, n);
    if step.SendMessage? && step.m == m {
      JustSent(run, m);
      i := n;
    } else {
      MessagesChange(db, step, run[n].1, m);
      i := MessagesHaveOrigin(run[..n], m);
      SentEarlier(run, i, m, db.messages[m], After(run).messages[m]);
    }
  }

  /** Keys are handed out at the send alone: no later step adds one, or moves the message. */
  lemma KeysOnlyShrink(db: Db, step: Step, now: int, m: MsgId)
    requires Allowed(db, step) && m in db.messages && m in Next(db, step, now).messages
    ensures Next(db, step, now).messages[m].keys <= db.messages[m].keys
    ensures Next(db, step, now).messages[m].conv == db.messages[m].conv
    ensures Next(db, step, now).messages[m].sender == db.messages[m].sender
  {
    MessagesChange(db, step, now, m);
  }

  // ----- Accounts, links, consents, blocks -----

  /** The steps whose effect runs through evictions. */
  predicate Evicting(step: Step) {
    step.Unlink? || step.Unconsenting? || step.Pause? || step.Erase?
  }

  /** What an evicting step does beside rows: which links and consents it ends, and for whom. */
  lemma EvictionsBeside(db: Db, step: Step, now: int)
    requires Grown(db) && Evicting(step) && !step.Erase?
    ensures var after := Next(db, step, now);
            && after.users == db.users && after.convs == db.convs && after.blocks == db.blocks
            && after.links.Keys == db.links.Keys && after.consents.Keys == db.consents.Keys
            && (forall l :: l in db.links ==>
                  after.links[l] == (db.links[l] && !(step.Unlink? && l == (step.g, step.w))))
            && (forall k :: k in db.consents ==>
                  after.consents[k] == if (step.Unlink? && k == (step.w, step.g))
                                          || (step.Unconsenting? && k.0 == step.w && db.IsGuardianOf(step.g, step.w))
                                       then db.consents[k].(active := false) else db.consents[k])
  {
    match step
    case Unlink(g, w) => RevocationOnlyEnds(db, g, w, now);
    case Unconsenting(g, w) => EvictionOnlyEnds(WithoutConsents(db, w), w);
    case Pause(u) => EvictionOnlyEnds(db, u);
  }

  lemma ErasuresBeside(db: Db, step: Step, now: int)
    requires Grown(db) && step.Erase? && Erases(db, step.actor, step.target)
    ensures var after, u := Next(db, step, now), step.target;
            && (forall x :: x in after.users <==> x in db.users && x != u)
            && (forall x :: x in after.users ==> after.users[x] == db.users[x])
            && after.convs == db.convs
            && (forall b :: b in after.blocks <==> b in db.blocks && b.0 != u && b.1 != u)
            && (forall l :: l in after.links <==> l in db.links && l.0 != u && l.1 != u)
            && (forall l :: l in after.links ==> after.links[l] == db.links[l])
            && (forall k :: k in after.consents <==> k in db.consents && k.0 != u)
            && (forall k :: k in after.consents ==>
                  after.consents[k] == if k.1 == u && k.0 in step.wards then db.consents[k].(active := false)
                                       else db.consents[k])
  {
    ErasureStep(db, step.actor, step.target, step.wards, now);
    RevocationsEnd(db, step.target, step.wards, now);
    EvictionOnlyEnds(RevokeAll(db, step.target, step.wards, now), step.target);
  }

  predicate ErasesUser(db: Db, step: Step, u: UserId) {
    step.Erase? && step.target == u && Erases(db, step.actor, u)
  }

  function AccountOf(db: Db, u: UserId): Option<User> {
    if u in db.users then Some(db.users[u]) else None
  }

  /** The cohort a stored band stands for. */
  function Suited(band: AgeBand): Cohort {
    if band == AdultBand then Adult
    else if band == From16To17 then Teen
    else if band == Under16 then Child
    else Unassigned
  }

  /** Accounts start unproven and enabled; only the steps that name the user touch the account. */
  function AccountAfter(db: Db, step: Step, u: UserId): Option<User> {
    if step == SignUp(u) && u !in db.users then Some(User(UnknownBand, Unassigned, false, None, true))
    else if u !in db.users || ErasesUser(db, step, u) then None
    else if step.SetEnabled? && step.u == u then Some(db.users[u].(enabled := step.enabled))
    else if step.Store? && step.u == u then
      Some(db.users[u].(band := step.band, cohort := Suited(step.band), verified := step.verified))
    else if step.Prove? && step.u == u then Some(db.users[u].(proofExpires := step.expires))
    else Some(db.users[u])
  }

  lemma UnerasedStays(db: Db, actor: UserId, target: UserId, wards: seq<UserId>, now: int)
    requires !Erases(db, actor, target)
    ensures Next(db, Erase(actor, target, wards), now) == db
  {
  }

  lemma EvictingAccounts(db: Db, step: Step, now: int, u: UserId)
    requires Grown(db) && Evicting(step)
    ensures AccountOf(Next(db, step, now), u) == AccountAfter(db, step, u)
  {
    if !step.Erase? {
      EvictionsBeside(db, step, now);
    } else if Erases(db, step.actor, step.target) {
      ErasuresBeside(db, step, now);
    } else {
      UnerasedStays(db, step.actor, step.target, step.wards, now);
    }
  }

  lemma QuietAccounts(db: Db, step: Step, now: int, u: UserId)
    requires IsAccountStep(step) && !Evicting(step)
    ensures AccountOf(Next(db, step, now), u) == AccountAfter(db, step, u)
  {
  }

  /** Every step, seen from one account. */
  lemma AccountsChange(db: Db, step: Step, now: int, u: UserId)
    requires Grown(db)
    ensures AccountOf(Next(db, step, now), u) == AccountAfter(db, step, u)
  {
    if !IsAccountStep(step) {
      MembershipTouchesRows(db, step, now);
    } else if Evicting(step) {
      EvictingAccounts(db, step, now, u);
    } else {
      QuietAccounts(db, step, now, u);
    }
  }

  /** A link comes from linking an adult to somebody else's account, and ends with its revocation or
      either account's erasure. */
  predicate LinkAfter(db: Db, step: Step, g: UserId, w: UserId) {
    || (step == Link(g, w) && g != w && g in db.users && db.users[g].cohort == Adult && w in db.users)
    || ((g, w) in db.links && db.links[(g, w)] && step != Unlink(g, w)
        && !ErasesUser(db, step, g) && !ErasesUser(db, step, w))
  }

  lemma EvictingLinks(db: Db, step: Step, now: int, g: UserId, w: UserId)
    requires Grown(db) && Evicting(step)
    ensures Next(db, step, now).IsGuardianOf(g, w) <==> LinkAfter(db, step, g, w)
  {
    if !step.Erase? {
      EvictionsBeside(db, step, now);
    } else if Erases(db, step.actor, step.target) {
      ErasuresBeside(db, step, now);
    } else {
      UnerasedStays(db, step.actor, step.target, step.wards, now);
    }
  }

  lemma QuietLinks(db: Db, step: Step, now: int, g: UserId, w: UserId)
    requires IsAccountStep(step) && !Evicting(step)
    ensures Next(db, step, now).IsGuardianOf(g, w) <==> LinkAfter(db, step, g, w)
  {
  }

  /** Every step, seen from one guardianship. */
  lemma LinksChange(db: Db, step: Step, now: int, g: UserId, w: UserId)
    requires Grown(db)
    ensures Next(db, step, now).IsGuardianOf(g, w) <==> LinkAfter(db, step, g, w)
  {
    if !IsAccountStep(step) {
      MembershipTouchesRows(db, step, now);
    } else if Evicting(step) {
      EvictingLinks(db, step, now, g, w);
    } else {
      QuietLinks(db, step, now, g, w);
    }
  }

  function ConsentOf(db: Db, w: UserId, g: UserId): Option<Consent> {
    if (w, g) in db.consents then Some(db.consents[(w, g)]) else None
  }

  /** Consent is given by a cleared adult guardian for a ward under 16. */
  ghost predicate Gives(db: Db, step: Step, now: int, w: UserId, g: UserId) {
    && step.Consenting? && step.g == g && step.w == w
    && w in db.users && db.users[w].band == Under16
    && Cleared(db, g, now) && db.users[g].cohort == Adult && (g, w) in db.links && db.links[(g, w)]
  }

  /** It ends with the guardianship, and when any guardian of the ward withdraws consent. */
  predicate Withdraws(db: Db, step: Step, w: UserId, g: UserId) {
    || step == Unlink(g, w)
    || (step.Unconsenting? && step.w == w && db.IsGuardianOf(step.g, w))
    || (ErasesUser(db, step, g) && w in step.wards)
  }

  ghost function ConsentAfter(db: Db, step: Step, now: int, w: UserId, g: UserId): Option<Consent> {
    if Gives(db, step, now, w, g) then Some(Consent(true, Some(step.until)))
    else if (w, g) !in db.consents || ErasesUser(db, step, w) then None
    else if Withdraws(db, step, w, g) then Some(db.consents[(w, g)].(active := false))
    else Some(db.consents[(w, g)])
  }

  lemma EvictingConsents(db: Db, step: Step, now: int, w: UserId, g: UserId)
    requires Grown(db) && Evicting(step)
    ensures ConsentOf(Next(db, step, now), w, g) == ConsentAfter(db, step, now, w, g)
  {
    if !step.Erase? {
      EvictionsBeside(db, step, now);
    } else if Erases(db, step.actor, step.target) {
      ErasuresBeside(db, step, now);
    } else {
      UnerasedStays(db, step.actor, step.target, step.wards, now);
    }
  }

  lemma QuietConsents(db: Db, step: Step, now: int, w: UserId, g: UserId)
    requires IsAccountStep(step) && !Evicting(step)
    ensures ConsentOf(Next(db, step, now), w, g) == ConsentAfter(db, step, now, w, g)
  {
    ClearedMayParticipate(db, g, now);
  }

  /** Every step, seen from one guardian's consent. */
  lemma ConsentsChange(db: Db, step: Step, now: int, w: UserId, g: UserId)
    requires Grown(db)
    ensures ConsentOf(Next(db, step, now), w, g) == ConsentAfter(db, step, now, w, g)
  {
    if !IsAccountStep(step) {
      MembershipTouchesRows(db, step, now);
    } else if Evicting(step) {
      EvictingConsents(db, step, now, w, g);
    } else {
      QuietConsents(db, step, now, w, g);
    }
  }

  predicate BlockAfter(db: Db, step: Step, a: UserId, b: UserId) {
    || (step == Block(a, b) && a != b)
    || ((a, b) in db.blocks && step != Unblock(a, b) && !ErasesUser(db, step, a) && !ErasesUser(db, step, b))
  }

  lemma EvictingBlocks(db: Db, step: Step, now: int, a: UserId, b: UserId)
    requires Grown(db) && Evicting(step)
    ensures (a, b) in Next(db, step, now).blocks <==> BlockAfter(db, step, a, b)
  {
    if !step.Erase? {
      EvictionsBeside(db, step, now);
    } else if Erases(db, step.actor, step.target) {
      ErasuresBeside(db, step, now);
    } else {
      UnerasedStays(db, step.actor, step.target, step.wards, now);
    }
  }

  lemma NoBlockMoves(db: Db, step: Step, now: int)
    requires IsAccountStep(step) && !Evicting(step) && !step.Block? && !step.Unblock?
    ensures Next(db, step, now).blocks == db.blocks
  {
  }

  lemma QuietBlocks(db: Db, step: Step, now: int, a: UserId, b: UserId)
    requires IsAccountStep(step) && !Evicting(step)
    ensures (a, b) in Next(db, step, now).blocks <==> BlockAfter(db, step, a, b)
  {
    if !step.Block? && !step.Unblock? {
      NoBlockMoves(db, step, now);
    }
  }

  /** Every step, seen from one block: only the blocker's own acts set and lift it. */
  lemma BlocksChange(db: Db, step: Step, now: int, a: UserId, b: UserId)
    requires Grown(db)
    ensures (a, b) in Next(db, step, now).blocks <==> BlockAfter(db, step, a, b)
  {
    if !IsAccountStep(step) {
      MembershipTouchesRows(db, step, now);
    } else if Evicting(step) {
      EvictingBlocks(db, step, now, a, b);
    } else {
      QuietBlocks(db, step, now, a, b);
    }
  }

  // ----- Conversations -----

  function ConvOf(db: Db, c: ConvId): Option<Conv> {
    if c in db.convs then Some(db.convs[c]) else None
  }

  /** A conversation is of its opener's cohort; nothing changes it afterwards. */
  ghost function ConvAfter(db: Db, step: Step, now: int, c: ConvId): Option<Conv> {
    if step.OpenDirect? && step.c == c && OpensDirect(db, step.a, step.b, step.rateOk, now) then
      Some(Conv(Direct, db.users[step.a].cohort))
    else if step.OpenGroup? && step.c == c && step.a in db.users
            && OpensGroup(db, step.a, step.targets, step.rateOk, step.cap, now) then
      Some(Conv(Group, db.users[step.a].cohort))
    else ConvOf(db, c)
  }

  lemma QuietConvs(db: Db, step: Step, now: int)
    requires !step.OpenDirect? && !step.OpenGroup? && !Evicting(step)
    ensures Next(db, step, now).convs == db.convs
  {
  }

  lemma EvictingConvs(db: Db, step: Step, now: int)
    requires Grown(db) && Evicting(step)
    ensures Next(db, step, now).convs == db.convs
  {
    if !step.Erase? {
      EvictionsBeside(db, step, now);
    } else if Erases(db, step.actor, step.target) {
      ErasuresBeside(db, step, now);
    } else {
      UnerasedStays(db, step.actor, step.target, step.wards, now);
    }
  }

  /** Every step, seen from one conversation. */
  lemma ConvsChange(db: Db, step: Step, now: int, c: ConvId)
    requires Grown(db)
    ensures ConvOf(Next(db, step, now), c) == ConvAfter(db, step, now, c)
  {
    if step.OpenDirect? {
      DirectOpens(db, step.a, step.b, now, step.rateOk, step.c);
    } else if step.OpenGroup? {
      GroupOpens(db, step.a, step.targets, now, step.rateOk, step.cap, step.c);
    } else if Evicting(step) {
      EvictingConvs(db, step, now);
    } else {
      QuietConvs(db, step, now);
    }
  }

  // ----- What follows -----

  ghost predicate ConsentsMatter(db: Db, step: Step, now: int, u: UserId, t: int) {
    exists g :: Gives(db, step, now, u, g) || (ConsentedBy(db, g, u, t) && Withdraws(db, step, u, g))
  }

  lemma SameConsents(db: Db, step: Step, now: int, u: UserId, t: int)
    requires Grown(db) && !ErasesUser(db, step, u) && !ConsentsMatter(db, step, now, u, t)
    ensures forall g :: ConsentedBy(Next(db, step, now), g, u, t) <==> ConsentedBy(db, g, u, t)
  {
    forall g ensures ConsentedBy(Next(db, step, now), g, u, t) <==> ConsentedBy(db, g, u, t) {
      ConsentsChange(db, step, now, u, g);
      assert !Gives(db, step, now, u, g);
      assert ConsentedBy(db, g, u, t) ==> !Withdraws(db, step, u, g);
    }
  }

  /** Whether a user may take part at some time changes only by proving their age, by a guardian giving
      consent, by consent being withdrawn, or by erasing the account. */
  lemma ClearanceIsGiven(db: Db, step: Step, now: int, u: UserId, t: int)
    requires Grown(db)
    requires !((step.Store? || step.Prove? || step.SignUp?) && step.u == u) && !ErasesUser(db, step, u)
    requires !ConsentsMatter(db, step, now, u, t)
    ensures Cleared(Next(db, step, now), u, t) <==> Cleared(db, u, t)
  {
    AccountsChange(db, step, now, u);
    SameConsents(db, step, now, u, t);
  }

  /** Nothing of an erased account is left: no row, link, block or consent, no message sent, no key. */
  lemma ErasedIsGone(db: Db, actor: UserId, u: UserId, wards: seq<UserId>, now: int)
    requires Erases(db, actor, u)
    ensures var after := Next(db, Erase(actor, u, wards), now);
            && u !in after.users
            && (forall k :: k in after.parts ==> k.1 != u)
            && (forall l :: l in after.links ==> l.0 != u && l.1 != u)
            && (forall b :: b in after.blocks ==> b.0 != u && b.1 != u)
            && (forall k :: k in after.consents ==> k.0 != u)
            && (forall m :: m in after.messages ==> after.messages[m].sender != u && u !in after.messages[m].keys)
  {
    ErasureStep(db, actor, u, wards, now);
  }

  predicate IsAdmin(db: Db, k: Key) {
    k in db.parts && db.parts[k].role == Admin
  }

  /** No two people administer one conversation. */
  ghost predicate OneAdmin(db: Db) {
    forall j, k :: IsAdmin(db, j) && IsAdmin(db, k) && j.0 == k.0 ==> j == k
  }

  lemma RevocationKeepsRole(db: Db, g: UserId, w: UserId, now: int, k: Key)
    requires Grown(db) && k in RevokeGuardian(db, g, w, now).parts
    ensures k in db.parts && RevokeGuardian(db, g, w, now).parts[k].role == db.parts[k].role
  {
    RevocationOnlyEnds(db, g, w, now);
  }

  lemma EvictionKeepsRole(db: Db, u: UserId, k: Key)
    requires k in RemoveUser(db, u).parts
    ensures k in db.parts && RemoveUser(db, u).parts[k].role == db.parts[k].role
  {
    EvictionOnlyEnds(db, u);
  }

  lemma ErasureKeepsRole(db: Db, actor: UserId, target: UserId, wards: seq<UserId>, now: int, k: Key)
    requires Grown(db) && k in Next(db, Erase(actor, target, wards), now).parts
    ensures k in db.parts && Next(db, Erase(actor, target, wards), now).parts[k].role == db.parts[k].role
  {
    ErasureStep(db, actor, target, wards, now);
    RevocationsEnd(db, target, wards, now);
    EvictionOnlyEnds(RevokeAll(db, target, wards, now), target);
  }

  lemma EndingKeepsRole(db: Db, step: Step, now: int, k: Key)
    requires (step.Decline? || step.Quit? || step.Expel?) && k in db.parts
    ensures k in Next(db, step, now).parts && Next(db, step, now).parts[k].role == db.parts[k].role
  {
  }

  lemma ObserverKeepsRole(db: Db, step: Step, now: int, k: Key)
    requires Inv(db) && Allowed(db, step) && db.Observes(k) && !Evicting(step)
    ensures k in Next(db, step, now).parts && Next(db, step, now).parts[k].role == Guardian
  {
    if EndsNothing(step) {
      NothingEnds(db, step, now, k);
    } else if !step.Store? {
      EndingKeepsRole(db, step, now, k);
    }
  }

  lemma EvictionsKeepRole(db: Db, step: Step, now: int, k: Key)
    requires Grown(db) && Evicting(step) && k in Next(db, step, now).parts
    ensures k in db.parts && Next(db, step, now).parts[k].role == db.parts[k].role
  {
    match step
    case Unlink(g, w) => RevocationKeepsRole(db, g, w, now, k);
    case Unconsenting(g, w) =>
      if db.IsGuardianOf(g, w) {
        EvictionKeepsRole(WithoutConsents(db, w), w, k);
      }
    case Pause(u) => EvictionKeepsRole(db, u, k);
    case Erase(actor, target, wards) => ErasureKeepsRole(db, actor, target, wards, now, k);
  }

  lemma MemberBecomesAdmin(db: Db, step: Step, now: int, k: Key)
    requires Inv(db) && Allowed(db, step) && !db.Observes(k) && !Evicting(step)
    requires IsAdmin(Next(db, step, now), k) && !IsAdmin(db, k)
    ensures (step.OpenDirect? || step.OpenGroup?) && k == (step.c, step.a)
  {
    MembersChange(db, step, now, k);
  }

  /** Only opening a conversation makes an admin. */
  lemma AdminsOpen(db: Db, step: Step, now: int, k: Key)
    requires Inv(db) && Allowed(db, step) && IsAdmin(Next(db, step, now), k) && !IsAdmin(db, k)
    ensures (step.OpenDirect? || step.OpenGroup?) && k == (step.c, step.a) && step.c !in db.convs
  {
    SettledIsGrown(db);
    if Evicting(step) {
      EvictionsKeepRole(db, step, now, k);
    } else if db.Observes(k) {
      ObserverKeepsRole(db, step, now, k);
    } else {
      MemberBecomesAdmin(db, step, now, k);
    }
  }

  lemma StepKeepsOneAdmin(db: Db, step: Step, now: int)
    requires Inv(db) && Allowed(db, step) && OneAdmin(db)
    ensures OneAdmin(Next(db, step, now))
  {
    var after := Next(db, step, now);
    forall j, k | IsAdmin(after, j) && IsAdmin(after, k) && j.0 == k.0 ensures j == k {
      BothAdmins(db, step, now, j, k);
    }
  }

  lemma BothAdmins(db: Db, step: Step, now: int, j: Key, k: Key)
    requires Inv(db) && Allowed(db, step) && OneAdmin(db)
    requires IsAdmin(Next(db, step, now), j) && IsAdmin(Next(db, step, now), k) && j.0 == k.0
    ensures j == k
  {
    if !IsAdmin(db, j) {
      AdminsOpen(db, step, now, j);
      NobodyThere(db, j.0);
    }
    if !IsAdmin(db, k) {
      AdminsOpen(db, step, now, k);
      NobodyThere(db, k.0);
    }
  }

  /** After any run a conversation has at most one administrator ever: whoever opened it. */
  lemma {:induction false} RunKeepsOneAdmin(run: seq<(Step, int)>)
    requires AllowedRun(run)
    ensures OneAdmin(After(run))
    decreases |run|
  {
    if run != [] {
      var n := |run| - 1;
      AllowedPrefix(run, n);
      RunKeepsOneAdmin(run[..n]);
      RunKeepsInv(run[..n]);
      StepKeepsOneAdmin(After(run[..n]), run[n].0, run[n].1);
    }
  }

  // ----- A verification -----

  lemma BandStep(db: Db, u: UserId, band: AgeBand, verified: bool, now: int)
    requires u in db.users
    ensures Next(db, Store(u, band, verified), now) == StoreBand(db, u, band, verified)
    ensures ChangesCohort(db, u, band) <==> db.users[u].cohort != Unassigned && Suited(band) != db.users[u].cohort
  {
  }

  lemma PauseStep(db: Db, u: UserId, now: int)
    ensures Next(db, Pause(u), now) == RemoveUser(db, u) && RemoveUser(db, u).users == db.users
  {
    EvictionOnlyEnds(db, u);
  }

  lemma ProofStep(db: Db, u: UserId, expires: Option<int>, now: int)
    requires u in db.users
    ensures Next(db, Prove(u, expires), now) == RecordProof(db, u, expires)
  {
  }

  /** The commits of a verification are steps of their own: the band, the eviction of a user whose
      assigned cohort changed, the proof. */
  lemma VerificationIsSteps(db: Db, u: UserId, band: AgeBand, verified: bool, expires: Option<int>, now: int)
    requires u in db.users
    ensures var stored := Next(db, Store(u, band, verified), now);
            var moved := db.users[u].cohort != Unassigned && Suited(band) != db.users[u].cohort;
            var evicted := if moved then Next(stored, Pause(u), now) else stored;
            && Assured(db, u, band, verified, expires, 0) == db
            && Assured(db, u, band, verified, expires, 1) == stored
            && Assured(db, u, band, verified, expires, 2) == evicted
            && Assured(db, u, band, verified, expires, 3) == Next(evicted, Prove(u, expires), now)
  {
    var stored := StoreBand(db, u, band, verified);
    BandStep(db, u, band, verified, now);
    PauseStep(stored, u, now);
    ProofStep(if ChangesCohort(db, u, band) then RemoveUser(stored, u) else stored, u, expires, now);
  }
}
