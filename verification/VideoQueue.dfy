/** The video worker and the purge job: claims, the frame scan, the drain loop, the purge loop. */
module VideoQueue {
  import opened Options
  import opened VideoHistory
  import opened VideoLifecycle

  /** What happened to one claimed row; `poster` is scanned before the sampled frames. */
  datatype Work =
    | Rejected
    | Hiccup(stored: set<Key>)
    | Sampled(poster: Frame, frames: seq<Frame>, blocklist: set<Frame>)

  datatype ClaimResult = Nothing | Exhausted(id: AttId) | Claimed(id: AttId)

  /** The claims all rows below `n` have left: what a drain can still spend. */
  function Budget(rows: map<AttId, Row>, cfg: Config, n: nat): nat {
    if n == 0 then 0
    else
      var left := if n - 1 in rows then ClaimsLeft(rows[n - 1], cfg) else 0;
      Budget(rows, cfg, n - 1) + if left > 0 then left else 0
  }

  lemma {:induction false} BudgetDrops(a: map<AttId, Row>, b: map<AttId, Row>, cfg: Config, id: AttId, n: nat)
    requires a.Keys == b.Keys && id in a && forall i :: i in a && i != id ==> b[i] == a[i]
    requires ClaimsLeft(b[id], cfg) < ClaimsLeft(a[id], cfg) && 0 < ClaimsLeft(a[id], cfg)
    ensures Budget(b, cfg, n) + (if id < n then 1 else 0) <= Budget(a, cfg, n)
  {
    if n > 0 {
      BudgetDrops(a, b, cfg, id, n - 1);
    }
  }

  lemma {:induction false} BudgetNotRaised(a: map<AttId, Row>, b: map<AttId, Row>, cfg: Config, n: nat)
    requires a.Keys == b.Keys && forall i :: i in a ==> ClaimsLeft(b[i], cfg) <= ClaimsLeft(a[i], cfg)
    ensures Budget(b, cfg, n) <= Budget(a, cfg, n)
  {
    if n > 0 {
      BudgetNotRaised(a, b, cfg, n - 1);
    }
  }

  method ScanFrames(frames: seq<Frame>, blocklist: set<Frame>) returns (clean: bool)
    ensures clean <==> AllClean(frames, blocklist)
  {
    for i := 0 to |frames|
      invariant AllClean(frames[..i], blocklist)
    {
      if frames[i] in blocklist {
        return false;
      }
    }
    clean := true;
  }

  /** The poster and the sampled frames are clean together when each of them is. */
  lemma CleanMeans(poster: Frame, sampled: seq<Frame>, blocklist: set<Frame>)
    ensures AllClean([poster] + sampled, blocklist) <==>
              poster !in blocklist && forall f :: f in sampled ==> f !in blocklist
  {
    var all := [poster] + sampled;
    assert all[0] == poster && forall i :: 0 <= i < |sampled| ==> all[i + 1] == sampled[i];
  }

  function PurgedRow(row: Row, now: int): Row {
    row.(purged := Some(now), main := None, poster := None, source := None)
  }

  /** The rows after the purge has been through `ids`. */
  function PurgedRows(rows: map<AttId, Row>, ids: seq<AttId>, now: int, exempt: set<AttId>,
      failing: map<AttId, nat>): map<AttId, Row> {
    map i | i in rows :: if i in ids then AfterPurge(rows[i], i, now, exempt, failing) else rows[i]
  }

  function AfterPurge(row: Row, id: AttId, now: int, exempt: set<AttId>, failing: map<AttId, nat>): Row {
    if Reclaimed(row, id, now, exempt, failing) then PurgedRow(row, now) else row
  }

  /** Retention does not spare the row, and none of its deletions fails. */
  predicate Reclaimed(row: Row, id: AttId, now: int, exempt: set<AttId>, failing: map<AttId, nat>) {
    !Spared(row, now, id in exempt) && !(id in failing && failing[id] < Blobs(row))
  }

  /** How many of the first `n` of `ids` are reclaimed. */
  function CountReclaimed(rows: map<AttId, Row>, ids: seq<AttId>, n: nat, now: int, exempt: set<AttId>,
      failing: map<AttId, nat>): nat
    requires n <= |ids|
  {
    if n == 0 then 0
    else
      CountReclaimed(rows, ids, n - 1, now, exempt, failing)
      + if ids[n - 1] in rows && Reclaimed(rows[ids[n - 1]], ids[n - 1], now, exempt, failing) then 1 else 0
  }

  /** A row waits or was left behind, and no other transaction has it locked. */
  predicate Open(rows: map<AttId, Row>, id: AttId, now: int, stale: int, locked: set<AttId>) {
    id in rows && rows[id].Due(now, stale) && id !in locked
  }

  predicate IsOldestDue(rows: map<AttId, Row>, id: AttId, now: int, stale: int, locked: set<AttId>) {
    && Open(rows, id, now, stale, locked)
    && forall i :: i in rows && Open(rows, i, now, stale, locked) ==> rows[id].created <= rows[i].created
  }

  predicate NothingOpen(rows: map<AttId, Row>, now: int, stale: int, locked: set<AttId>) {
    forall id :: id in rows ==> !Open(rows, id, now, stale, locked)
  }

  function FailureAt(failing: map<AttId, nat>, id: AttId): Option<nat> {
    if id in failing then Some(failing[id]) else None
  }

  /** The purge of the first `n` of `ids`, one transaction after the other. */
  function PurgeRun(s: Site, ids: seq<AttId>, n: nat, now: int, exempt: set<AttId>, failing: map<AttId, nat>): Site
    requires n <= |ids|
  {
    if n == 0 then s
    else Purge(PurgeRun(s, ids, n - 1, now, exempt, failing), ids[n - 1], now, ids[n - 1] in exempt,
      FailureAt(failing, ids[n - 1]))
  }

  lemma PurgeTouchesOne(s: Site, id: AttId, now: int, exempt: set<AttId>, failing: map<AttId, nat>)
    requires id in s.rows
    ensures Purge(s, id, now, id in exempt, FailureAt(failing, id)).rows
         == s.rows[id := AfterPurge(s.rows[id], id, now, exempt, failing)]
  {
    KeysAreNamed(s.rows[id]);
    assert s.rows == s.rows[id := s.rows[id]];
  }

  lemma PurgedRowsGrow(rows: map<AttId, Row>, done: seq<AttId>, id: AttId, now: int, exempt: set<AttId>,
      failing: map<AttId, nat>)
    requires id in rows && id !in done
    ensures PurgedRows(rows, done + [id], now, exempt, failing)
         == PurgedRows(rows, done, now, exempt, failing)[id := AfterPurge(rows[id], id, now, exempt, failing)]
  {
  }

  /** Exactly the candidates that may be purged and whose deletion succeeds are, the rest stay. */
  lemma {:induction false} PurgeRunRows(s: Site, ids: seq<AttId>, n: nat, now: int, exempt: set<AttId>,
      failing: map<AttId, nat>)
    requires n <= |ids| && forall i :: 0 <= i < |ids| ==> ids[i] in s.rows
    requires forall i, j :: 0 <= i < j < |ids| ==> ids[i] != ids[j]
    ensures PurgeRun(s, ids, n, now, exempt, failing).rows == PurgedRows(s.rows, ids[..n], now, exempt, failing)
  {
    if n > 0 {
      var t := PurgeRun(s, ids, n - 1, now, exempt, failing);
      PurgeRunRows(s, ids, n - 1, now, exempt, failing);
      assert ids[..n] == ids[..n - 1] + [ids[n - 1]];
      assert ids[n - 1] !in ids[..n - 1];
      assert t.rows[ids[n - 1]] == s.rows[ids[n - 1]];
      PurgeTouchesOne(t, ids[n - 1], now, exempt, failing);
      PurgedRowsGrow(s.rows, ids[..n - 1], ids[n - 1], now, exempt, failing);
    }
  }

  lemma UnvisitedIsUntouched(s: Site, ids: seq<AttId>, n: nat, now: int, exempt: set<AttId>, failing: map<AttId, nat>)
    requires n < |ids| && forall i :: 0 <= i < |ids| ==> ids[i] in s.rows
    requires forall i, j :: 0 <= i < j < |ids| ==> ids[i] != ids[j]
    ensures var rows := PurgeRun(s, ids, n, now, exempt, failing).rows; ids[n] in rows && rows[ids[n]] == s.rows[ids[n]]
  {
    PurgeRunRows(s, ids, n, now, exempt, failing);
    assert ids[n] !in ids[..n];
  }

  lemma {:induction false} BytesOutsidePurge(s: Site, cfg: Config, ids: seq<AttId>, n: nat, now: int,
      exempt: set<AttId>, failing: map<AttId, nat>, id: AttId, k: Key)
    requires Inv(s, cfg) && n <= |ids| && id in s.rows && Named(s.rows[id], k) && k in s.storage
    requires id !in ids[..n] || Spared(s.rows[id], now, id in exempt)
    ensures var t := PurgeRun(s, ids, n, now, exempt, failing);
            Inv(t, cfg) && id in t.rows && t.rows[id] == s.rows[id] && k in t.storage
  {
    if n > 0 {
      assert ids[..n] == ids[..n - 1] + [ids[n - 1]];
      BytesOutsidePurge(s, cfg, ids, n - 1, now, exempt, failing, id, k);
      OneItemSpares(PurgeRun(s, ids, n - 1, now, exempt, failing), cfg, ids[n - 1], now, exempt, failing, id, k);
    }
  }

  lemma OneItemSpares(s: Site, cfg: Config, item: AttId, now: int, exempt: set<AttId>, failing: map<AttId, nat>,
      id: AttId, k: Key)
    requires Inv(s, cfg) && id in s.rows && Named(s.rows[id], k) && k in s.storage
    requires item != id || Spared(s.rows[id], now, id in exempt)
    ensures var t := Purge(s, item, now, item in exempt, FailureAt(failing, item));
            Inv(t, cfg) && id in t.rows && t.rows[id] == s.rows[id] && k in t.storage
  {
    PurgeKeeps(s, cfg, item, now, item in exempt, FailureAt(failing, item));
    if item in s.rows {
      PurgeIsExact(s, item, now, item in exempt, FailureAt(failing, item));
      if item != id && Named(s.rows[item], k) {
        HeldOnce(s, cfg, k, item, id);
      }
    }
  }

  ghost predicate LeavesSpared(s: Site, t: Site, now: int, exempt: set<AttId>) {
    forall id :: id in s.rows && Spared(s.rows[id], now, id in exempt) ==> id in t.rows && t.rows[id] == s.rows[id]
  }

  ghost predicate KeepsSparedBytes(s: Site, t: Site, now: int, exempt: set<AttId>) {
    forall id, k ::
      id in s.rows && Spared(s.rows[id], now, id in exempt) && Named(s.rows[id], k) && k in s.storage ==> k in t.storage
  }

  /** However far the purge gets, it changes no row that retention spares, and keeps its bytes. */
  lemma SparedStay(s: Site, ids: seq<AttId>, now: int, exempt: set<AttId>, failing: map<AttId, nat>)
    requires forall i :: 0 <= i < |ids| ==> ids[i] in s.rows
    requires forall i, j :: 0 <= i < j < |ids| ==> ids[i] != ids[j]
    ensures forall n: nat :: n <= |ids| ==> LeavesSpared(s, PurgeRun(s, ids, n, now, exempt, failing), now, exempt)
    ensures forall cfg, n: nat :: Inv(s, cfg) && n <= |ids| ==>
              KeepsSparedBytes(s, PurgeRun(s, ids, n, now, exempt, failing), now, exempt)
  {
    forall n: nat | n <= |ids| ensures LeavesSpared(s, PurgeRun(s, ids, n, now, exempt, failing), now, exempt) {
      PurgeRunRows(s, ids, n, now, exempt, failing);
    }
    forall cfg, n: nat | Inv(s, cfg) && n <= |ids|
      ensures KeepsSparedBytes(s, PurgeRun(s, ids, n, now, exempt, failing), now, exempt)
    {
      SpareBytes(s, cfg, ids, n, now, exempt, failing);
    }
  }

  lemma SpareBytes(s: Site, cfg: Config, ids: seq<AttId>, n: nat, now: int, exempt: set<AttId>,
      failing: map<AttId, nat>)
    requires Inv(s, cfg) && n <= |ids|
    ensures KeepsSparedBytes(s, PurgeRun(s, ids, n, now, exempt, failing), now, exempt)
  {
    forall id, k | id in s.rows && Spared(s.rows[id], now, id in exempt) && Named(s.rows[id], k) && k in s.storage
      ensures k in PurgeRun(s, ids, n, now, exempt, failing).storage
    {
      BytesOutsidePurge(s, cfg, ids, n, now, exempt, failing, id, k);
    }
  }

  lemma {:induction false} PurgeRunKeepsInv(s: Site, cfg: Config, ids: seq<AttId>, n: nat, now: int,
      exempt: set<AttId>, failing: map<AttId, nat>)
    requires Inv(s, cfg) && n <= |ids|
    ensures Inv(PurgeRun(s, ids, n, now, exempt, failing), cfg)
  {
    if n > 0 {
      PurgeRunKeepsInv(s, cfg, ids, n - 1, now, exempt, failing);
      PurgeKeeps(PurgeRun(s, ids, n - 1, now, exempt, failing), cfg, ids[n - 1], now, ids[n - 1] in exempt,
        FailureAt(failing, ids[n - 1]));
    }
  }

  class Queue {
    const cfg: Config
    var rows: map<AttId, Row>
    var storage: set<Key>
    var nextId: nat
    ghost var live: set<AttId>
    ghost var digests: map<AttId, (Digest, set<Digest>)>
    ghost var frames: map<AttId, (seq<Frame>, set<Frame>)>

    ghost function State(): Site
      reads this
    {
      Site(rows, storage, live, digests, frames)
    }

    ghost predicate Valid()
      reads this
    {
      Inv(State(), cfg) && forall id :: id in rows ==> id < nextId
    }

    /** The first due row in order of creation, passing over locked ones. */
    method OldestDue(now: int, locked: set<AttId>) returns (found: Option<AttId>)
      ensures found.None? ==> NothingOpen(rows, now, cfg.stale, locked)
      ensures found.Some? ==> IsOldestDue(rows, found.value, now, cfg.stale, locked)
    {
      var due := set id | id in rows && Open(rows, id, now, cfg.stale, locked);
      assert forall i :: i in rows && Open(rows, i, now, cfg.stale, locked) ==> i in due;
      if due == {} {
        return None;
      }
      var id :| id in due;
      var todo := due - {id};
      while todo != {}
        invariant todo <= due && id in due
        invariant forall i :: i in due && i !in todo ==> rows[id].created <= rows[i].created
        decreases todo
      {
        var i :| i in todo;
        if rows[i].created < rows[id].created {
          id := i;
        }
        todo := todo - {i};
      }
      found := Some(id);
    }

    /** Take the oldest due row: start an attempt, or fail it if its attempts are used up. */
    method ClaimNextVideo(now: int, locked: set<AttId>, deleted: bool) returns (r: ClaimResult)
      modifies this
      ensures nextId == old(nextId)
      ensures r.Nothing? ==> State() == old(State()) && NothingOpen(rows, now, cfg.stale, locked)
      ensures r.Nothing? ==> forall i :: i in rows && i !in locked ==> !rows[i].Due(now, cfg.stale)
      ensures !r.Nothing? ==>
                && IsOldestDue(old(rows), r.id, now, cfg.stale, locked)
                && State() == Claim(old(State()), cfg, r.id, now, deleted)
                && (r.Exhausted? <==> old(rows)[r.id].attempts >= cfg.maxAttempts)
                && r.id !in locked && forall i :: i in old(rows) && i !in locked && old(rows)[i].Due(now, cfg.stale) ==>
                     old(rows)[r.id].created <= old(rows)[i].created
    {
      var found := OldestDue(now, locked);
      if found.None? {
        return Nothing;
      }
      var id := found.value;
      if rows[id].attempts >= cfg.maxAttempts {
        FailLocked(id, deleted);
        return Exhausted(id);
      }
      rows := rows[id := rows[id].(status := Processing, started := now, attempts := rows[id].attempts + 1)];
      live := live + {id};
      r := Claimed(id);
    }

    method FailLocked(id: AttId, deleted: bool)
      requires id in rows
      modifies this
      ensures State() == Fail(old(State()), id, deleted) && nextId == old(nextId)
    {
      var source := rows[id].source;
      rows := rows[id := rows[id].(status := Failed, main := None, source := None)];
      if source.Some? && deleted {
        storage := storage - {source.value};
      }
      live := live - {id};
    }

    /** The step the outcome of the work amounts to. */
    ghost function StepFor(id: AttId, work: Work, deleted: bool): Step {
      match work
      case Rejected => RejectStep(id, deleted)
      case Hiccup(stored) => DropStep(id, stored)
      case Sampled(poster, sampled, blocklist) => ScanStep(id, [poster] + sampled, blocklist, deleted)
    }

    /** Finish a claimed row, which may have been deleted in the meantime. */
    method ProcessOneVideo(id: AttId, work: Work, deleted: bool)
      requires id in live
      modifies this
      ensures State() == Next(old(State()), cfg, StepFor(id, work, deleted)) && nextId == old(nextId)
      ensures live == old(live) - {id} && (id in rows <==> id in old(rows))
      ensures work.Sampled? && id in rows ==>
                rows[id].status ==
                  if work.poster in work.blocklist || exists f :: f in work.frames && f in work.blocklist then Blocked
                  else Ready
      ensures work.Rejected? && id in rows ==> rows[id].status == Failed
      ensures work.Hiccup? ==> rows == old(rows)
    {
      match work {
        case Rejected =>
          if id in rows {
            FailLocked(id, deleted);
          }
          live := live - {id};
        case Hiccup(stored) =>
          storage := storage + (stored * {Output(id), Poster(id)});
          live := live - {id};
        case Sampled(poster, sampled, blocklist) =>
          CleanMeans(poster, sampled, blocklist);
          var clean := ScanFrames([poster] + sampled, blocklist);
          if !clean {
            FinalizeBlocked(id);
          } else {
            FinalizeReady(id, [poster] + sampled, blocklist, deleted);
          }
      }
    }

    method FinalizeBlocked(id: AttId)
      modifies this
      ensures State() == Block(old(State()), id) && nextId == old(nextId)
    {
      if id in rows {
        rows := rows[id := rows[id].(status := Blocked, main := None)];
      }
      live := live - {id};
    }

    /** The outputs are stored; the row is published, or, if it is gone, they are reclaimed. */
    method FinalizeReady(id: AttId, ghost scanned: seq<Frame>, ghost blocklist: set<Frame>, deleted: bool)
      modifies this
      ensures State() == Publish(old(State()), id, scanned, blocklist, deleted) && nextId == old(nextId)
    {
      storage := storage + {Output(id), Poster(id)};
      live := live - {id};
      if id !in rows {
        if deleted {
          storage := storage - {Output(id), Poster(id)};
          assert storage == old(storage) - {Output(id), Poster(id)};
        }
        return;
      }
      var source := rows[id].source;
      rows := rows[id := rows[id].(status := Ready, main := Some(Output(id)), poster := Some(Poster(id)),
        source := None)];
      if source.Some? && deleted {
        storage := storage - {source.value};
      }
      frames := frames[id := (scanned, blocklist)];
    }

    /** No row another worker is on looks abandoned at this time. */
    ghost predicate OthersFresh(now: int)
      reads this
    {
      forall id :: id in live && id in rows ==> !rows[id].Due(now, cfg.stale)
    }

    /** Drain the queue one row at a time, beside workers on other rows. It ends even without a limit,
        because every claim spends budget, and it ends only when the limit is reached or nothing is open. */
    method ProcessPendingVideos(limit: Option<nat>, able: bool, clock: nat -> int, locked: nat -> set<AttId>,
                                outcome: (nat, AttId) -> Work, deleted: bool)
      returns (processed: nat)
      requires Valid() && forall turn :: OthersFresh(clock(turn))
      modifies this
      ensures Valid() && live == old(live) && nextId == old(nextId)
      ensures forall id :: id in live && id in rows ==> id in old(rows) && rows[id] == old(rows)[id]
      ensures !able ==> processed == 0 && State() == old(State())
      ensures limit.Some? ==> processed <= limit.value
      ensures able && (limit.Some? ==> processed < limit.value) ==>
                NothingOpen(rows, clock(processed), cfg.stale, locked(processed))
      ensures processed + Budget(rows, cfg, nextId) <= old(Budget(rows, cfg, nextId))
    {
      processed := 0;
      if !able {
        return;
      }
      while limit.None? || processed < limit.value
        invariant Valid() && live == old(live) && nextId == old(nextId)
        invariant forall id :: id in live && id in rows ==> id in old(rows) && rows[id] == old(rows)[id]
        invariant limit.Some? ==> processed <= limit.value
        invariant processed + Budget(rows, cfg, nextId) <= old(Budget(rows, cfg, nextId))
        decreases Budget(rows, cfg, nextId)
      {
        var turn: nat := processed;
        assert old(OthersFresh(clock(turn)));
        var any := ProcessNext(clock(turn), locked(turn), (id: AttId) => outcome(turn, id), deleted);
        if !any {
          return;
        }
        processed := processed + 1;
      }
    }

    /** One turn of the drain loop. */
    method ProcessNext(now: int, locked: set<AttId>, outcome: AttId -> Work, deleted: bool) returns (any: bool)
      requires Valid() && OthersFresh(now)
      modifies this
      ensures Valid() && live == old(live) && nextId == old(nextId)
      ensures forall id :: id in live && id in rows ==> id in old(rows) && rows[id] == old(rows)[id]
      ensures !any ==> State() == old(State()) && NothingOpen(rows, now, cfg.stale, locked)
      ensures any ==> Budget(rows, cfg, nextId) < old(Budget(rows, cfg, nextId))
    {
      ghost var before := State();
      var r := TakeTurn(now, locked, outcome, deleted);
      any := !r.Nothing?;
      if any {
        TurnSpends(before, r.id, now, outcome(r.id), deleted);
      }
    }

    method TakeTurn(now: int, locked: set<AttId>, outcome: AttId -> Work, deleted: bool) returns (r: ClaimResult)
      modifies this
      ensures nextId == old(nextId)
      ensures r.Nothing? ==> State() == old(State()) && NothingOpen(rows, now, cfg.stale, locked)
      ensures !r.Nothing? ==>
                && IsOldestDue(old(rows), r.id, now, cfg.stale, locked)
                && State() == Turn(old(State()), r.id, now, outcome(r.id), deleted)
    {
      r := ClaimNextVideo(now, locked, deleted);
      if r.Claimed? {
        ProcessOneVideo(r.id, outcome(r.id), deleted);
      }
    }

    /** A claim and, if it started an attempt, the end of the work. */
    ghost function Turn(s: Site, id: AttId, now: int, work: Work, deleted: bool): Site
      requires id in s.rows
    {
      var claimed := Claim(s, cfg, id, now, deleted);
      if s.rows[id].attempts >= cfg.maxAttempts then claimed else Next(claimed, cfg, StepFor(id, work, deleted))
    }

    lemma TurnSpends(s: Site, id: AttId, now: int, work: Work, deleted: bool)
      requires Inv(s, cfg) && id in s.rows && id < nextId && Allowed(s, cfg, ClaimStep(id, now, deleted))
      ensures Inv(Turn(s, id, now, work, deleted), cfg) && OnlyTouches(s, Turn(s, id, now, work, deleted), id, false)
      ensures Budget(Turn(s, id, now, work, deleted).rows, cfg, nextId) < Budget(s.rows, cfg, nextId)
    {
      ClaimSpends(s, id, now, deleted);
      ClaimTouchesOne(s, id, now, deleted);
      if s.rows[id].attempts < cfg.maxAttempts {
        WorkSpends(s, Claim(s, cfg, id, now, deleted), id, work, deleted);
      }
    }

    lemma WorkSpends(s: Site, claimed: Site, id: AttId, work: Work, deleted: bool)
      requires id in s.rows && OnlyTouches(s, claimed, id, true)
      requires Inv(claimed, cfg) && Budget(claimed.rows, cfg, nextId) < Budget(s.rows, cfg, nextId)
      ensures var t := Next(claimed, cfg, StepFor(id, work, deleted));
              Inv(t, cfg) && OnlyTouches(s, t, id, false) && Budget(t.rows, cfg, nextId) < Budget(s.rows, cfg, nextId)
    {
      FinishSpendsNothing(claimed, id, work, deleted);
      FinishTouchesOne(claimed, id, work, deleted);
    }

    /** Everything but row `id` and the bytes stays; `id` ends up live or not. */
    ghost predicate OnlyTouches(s: Site, t: Site, id: AttId, isLive: bool) {
      && t.rows.Keys == s.rows.Keys && (forall i :: i in s.rows && i != id ==> t.rows[i] == s.rows[i])
      && t.live == (s.live - {id}) + (if isLive then {id} else {})
    }

    lemma ClaimTouchesOne(s: Site, id: AttId, now: int, deleted: bool)
      requires id in s.rows
      ensures OnlyTouches(s, Claim(s, cfg, id, now, deleted), id, s.rows[id].attempts < cfg.maxAttempts)
    {
    }

    lemma FinishTouchesOne(s: Site, id: AttId, work: Work, deleted: bool)
      requires id in s.rows && id in s.live
      ensures OnlyTouches(s, Next(s, cfg, StepFor(id, work, deleted)), id, false)
    {
    }

    lemma ClaimSpends(s: Site, id: AttId, now: int, deleted: bool)
      requires Inv(s, cfg) && id in s.rows && id < nextId && Allowed(s, cfg, ClaimStep(id, now, deleted))
      ensures Inv(Claim(s, cfg, id, now, deleted), cfg)
      ensures Budget(Claim(s, cfg, id, now, deleted).rows, cfg, nextId) < Budget(s.rows, cfg, nextId)
    {
      StepKeepsInv(s, cfg, ClaimStep(id, now, deleted));
      StepSpendsClaim(s, cfg, ClaimStep(id, now, deleted), id);
      BudgetDrops(s.rows, Claim(s, cfg, id, now, deleted).rows, cfg, id, nextId);
    }

    lemma FinishSpendsNothing(s: Site, id: AttId, work: Work, deleted: bool)
      requires Inv(s, cfg) && id in s.rows && id in s.live
      ensures var t := Next(s, cfg, StepFor(id, work, deleted));
              Inv(t, cfg) && Budget(t.rows, cfg, nextId) <= Budget(s.rows, cfg, nextId)
    {
      var step := StepFor(id, work, deleted);
      StepKeepsInv(s, cfg, step);
      FinishTouchesOne(s, id, work, deleted);
      StepSpendsClaim(s, cfg, step, id);
      BudgetNotRaised(s.rows, Next(s, cfg, step).rows, cfg, nextId);
    }

    /** Purge the listed candidates in order until the limit: each in its own transaction, a failing
        item is skipped. A limit of zero still reclaims one item before it is noticed. */
    method PurgeExpired(ids: seq<AttId>, now: int, exempt: set<AttId>, failing: map<AttId, nat>, limit: Option<nat>)
      returns (purged: nat, ghost visited: nat)
      requires forall i :: 0 <= i < |ids| ==> ids[i] in rows
      requires forall i, j :: 0 <= i < j < |ids| ==> ids[i] != ids[j]
      modifies `rows, `storage
      ensures visited <= |ids| && (purged == 0 || limit.None? || purged < limit.value ==> visited == |ids|)
      ensures State() == PurgeRun(old(State()), ids, visited, now, exempt, failing)
      ensures purged == CountReclaimed(old(rows), ids, visited, now, exempt, failing)
      ensures limit.Some? ==> purged <= if limit.value == 0 then 1 else limit.value
      ensures LeavesSpared(old(State()), State(), now, exempt)
      ensures old(Inv(State(), cfg)) ==> KeepsSparedBytes(old(State()), State(), now, exempt)
    {
      ghost var before := State();
      SparedStay(before, ids, now, exempt, failing);
      purged, visited := 0, 0;
      for n := 0 to |ids|
        invariant visited == n && State() == PurgeRun(old(State()), ids, n, now, exempt, failing)
        invariant purged == CountReclaimed(old(rows), ids, n, now, exempt, failing)
        invariant limit.Some? ==> purged == 0 || purged < limit.value
      {
        UnvisitedIsUntouched(before, ids, n, now, exempt, failing);
        var done := PurgeItem(ids[n], now, exempt, failing);
        visited := n + 1;
        if done {
          purged := purged + 1;
          if limit.Some? && purged >= limit.value {
            return;
          }
        }
      }
    }

    method PurgeItem(id: AttId, now: int, exempt: set<AttId>, failing: map<AttId, nat>) returns (done: bool)
      requires id in rows
      modifies `rows, `storage
      ensures State() == Purge(old(State()), id, now, id in exempt, FailureAt(failing, id))
      ensures done <==> Reclaimed(old(rows[id]), id, now, exempt, failing)
    {
      if !Purgeable(rows[id], now, id in exempt) {
        return false;
      }
      KeysAreNamed(rows[id]);
      var failAt := FailureAt(failing, id);
      var keys := rows[id].Keys();
      ghost var gone := {};
      for i := 0 to |keys|
        invariant storage == old(storage) - gone && gone == set k | k in keys[..i]
        invariant rows == old(rows)
        invariant failAt.Some? ==> i <= failAt.value
      {
        if failAt == Some(i) {
          return false;
        }
        assert keys[..i + 1] == keys[..i] + [keys[i]];
        gone := gone + {keys[i]};
        storage := storage - {keys[i]};
      }
      assert keys[..|keys|] == keys;
      rows := rows[id := PurgedRow(rows[id], now)];
      done := true;
    }
  }
}
