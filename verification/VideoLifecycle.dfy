/** The life of a video attachment: admitted withheld, claimed by a worker, scanned, finalised,
    purged. Any number of workers and jobs interleave, one live worker per row. */
module VideoLifecycle {
  import opened Options

  type AttId = nat
  type Frame = nat
  type Digest = nat

  /** Blob keys: random for sources, derived from the row for outputs and posters. */
  datatype Key = Source(n: nat) | Output(id: AttId) | Poster(id: AttId)

  datatype Status = Ready | Pending | Processing | Failed | Blocked

  datatype Row = Row(status: Status, main: Option<Key>, poster: Option<Key>, source: Option<Key>,
                     attempts: nat, started: int, created: int, expires: Option<int>, purged: Option<int>)
  {
    predicate Expired(now: int) {
      expires.Some? && expires.value <= now
    }

    /** `is_available`: what anyone permitted may fetch. */
    predicate Available(now: int) {
      status == Ready && purged.None? && main.Some? && !Expired(now)
    }

    /** `_blob_retrievable`: staff may also fetch expired bytes that are not yet purged. */
    predicate Retrievable(now: int, staff: bool) {
      Available(now) || (purged.None? && main.Some? && staff)
    }

    function Keys(): seq<Key> {
      (if main.Some? then [main.value] else [])
      + (if poster.Some? then [poster.value] else [])
      + (if source.Some? then [source.value] else [])
    }

    /** Waiting for a worker, or left behind by one. */
    predicate Due(now: int, stale: int) {
      purged.None? && (status == Pending || (status == Processing && started < now - stale))
    }

    predicate Unfinished() {
      purged.None? && (status == Pending || status == Processing)
    }
  }

  datatype Config = Config(maxAttempts: nat, stale: int)

  /** `live` are the rows a worker is processing. The last two fields are history: what was
      checked, against which blocklist. */
  datatype Site = Site(rows: map<AttId, Row>, storage: set<Key>, live: set<AttId>,
                       digests: map<AttId, (Digest, set<Digest>)>, frames: map<AttId, (seq<Frame>, set<Frame>)>)
  {
    predicate Unused(k: Key) {
      k !in storage && forall id :: id in rows ==> k !in rows[id].Keys()
    }
  }

  // ----- Steps -----

  /** Admission: the digest of the original bytes must be clean; the row starts withheld. */
  function Admit(s: Site, id: AttId, n: nat, digest: Digest, blocklist: set<Digest>, created: int,
      expires: Option<int>): Site {
    if digest in blocklist then s
    else s.(rows := s.rows[id := Row(Pending, None, None, Some(Source(n)), 0, 0, created, expires, None)],
            storage := s.storage + {Source(n)},
            digests := s.digests[id := (digest, blocklist)])
  }

  /** Terminal failure: the source goes, the row stays. Deleting bytes after the commit may fail. */
  function Fail(s: Site, id: AttId, deleted: bool): Site
    requires id in s.rows
  {
    var row := s.rows[id];
    s.(rows := s.rows[id := row.(status := Failed, main := None, source := None)],
       storage := if deleted && row.source.Some? then s.storage - {row.source.value} else s.storage,
       live := s.live - {id})
  }

  function Claim(s: Site, cfg: Config, id: AttId, now: int, deleted: bool): Site
    requires id in s.rows
  {
    var row := s.rows[id];
    if row.attempts >= cfg.maxAttempts then Fail(s, id, deleted)
    else s.(rows := s.rows[id := row.(status := Processing, started := now, attempts := row.attempts + 1)],
            live := s.live + {id})
  }

  /** The worker dies or hits a transient error, having stored some of its outputs. */
  function Drop(s: Site, id: AttId, stored: set<Key>): Site {
    s.(live := s.live - {id}, storage := s.storage + (stored * {Output(id), Poster(id)}))
  }

  function Reject(s: Site, id: AttId, deleted: bool): Site {
    if id in s.rows then Fail(s, id, deleted) else s.(live := s.live - {id})
  }

  function Block(s: Site, id: AttId): Site {
    s.(rows := if id in s.rows then s.rows[id := s.rows[id].(status := Blocked, main := None)] else s.rows,
       live := s.live - {id})
  }

  /** Every sampled frame was clean: outputs are stored, then the row is published. */
  function Publish(s: Site, id: AttId, frames: seq<Frame>, blocklist: set<Frame>, deleted: bool): Site {
    var outputs := {Output(id), Poster(id)};
    if id !in s.rows then
      s.(live := s.live - {id}, storage := if deleted then s.storage - outputs else s.storage + outputs)
    else
      var row := s.rows[id];
      s.(rows := s.rows[id := row.(status := Ready, main := Some(Output(id)), poster := Some(Poster(id)),
        source := None)],
         storage := (s.storage + outputs) - (if deleted && row.source.Some? then {row.source.value} else {}),
         live := s.live - {id},
         frames := s.frames[id := (frames, blocklist)])
  }

  predicate AllClean(frames: seq<Frame>, blocklist: set<Frame>) {
    forall i :: 0 <= i < |frames| ==> frames[i] !in blocklist
  }

  /** What the scan decides about the poster and the sampled frames. */
  function Scanned(s: Site, id: AttId, frames: seq<Frame>, blocklist: set<Frame>, deleted: bool): Site {
    if AllClean(frames, blocklist) then Publish(s, id, frames, blocklist, deleted) else Block(s, id)
  }

  predicate Purgeable(row: Row, now: int, exempt: bool) {
    row.Expired(now) && row.purged.None? && !exempt && row.status != Blocked && row.status != Processing
  }

  /** One item of the purge. The bytes are deleted last, key by key; if the deletion number
      `failAt` throws, the row change rolls back but the earlier deletions stay. */
  function Purge(s: Site, id: AttId, now: int, exempt: bool, failAt: Option<nat>): Site {
    if id !in s.rows || !Purgeable(s.rows[id], now, exempt) then s
    else
      var keys := s.rows[id].Keys();
      if failAt.Some? && failAt.value < |keys| then
        s.(storage := s.storage - (set k | k in keys[..failAt.value]))
      else
        s.(rows := s.rows[id := s.rows[id].(purged := Some(now), main := None, poster := None, source := None)],
           storage := s.storage - (set k | k in keys))
  }

  /** The row is deleted (its bytes are a cleanup task's business). */
  function Delete(s: Site, id: AttId): Site {
    s.(rows := map i | i in s.rows && i != id :: s.rows[i])
  }

  /** Cleanup of bytes no row refers to. */
  function Clean(s: Site, keys: set<Key>): Site {
    s.(storage := s.storage - (set k | k in keys && forall id :: id in s.rows ==> k !in s.rows[id].Keys()))
  }

  datatype Step =
    | AdmitStep(id: AttId, n: nat, digest: Digest, digestList: set<Digest>, created: int, expires: Option<int>)
    | ClaimStep(id: AttId, now: int, deleted: bool)
    | DropStep(id: AttId, stored: set<Key>)
    | RejectStep(id: AttId, deleted: bool)
    | ScanStep(id: AttId, frames: seq<Frame>, frameList: set<Frame>, deleted: bool)
    | PurgeStep(id: AttId, now: int, exempt: bool, failAt: Option<nat>)
    | DeleteStep(id: AttId)
    | CleanStep(keys: set<Key>)

  /** New rows and source keys are unused; a claim takes a due row that no live worker holds;
      only a live worker finishes. */
  ghost predicate Allowed(s: Site, cfg: Config, step: Step) {
    match step
    case AdmitStep(id, n, _, _, _, _) =>
      id !in s.rows && id !in s.live && id !in s.digests && id !in s.frames && s.Unused(Source(n))
    case ClaimStep(id, now, _) => id in s.rows && s.rows[id].Due(now, cfg.stale) && id !in s.live
    case DropStep(id, _) => id in s.live
    case RejectStep(id, _) => id in s.live
    case ScanStep(id, frames, _, _) => id in s.live && frames != []
    case _ => true
  }

  ghost function Next(s: Site, cfg: Config, step: Step): Site
    requires Allowed(s, cfg, step)
  {
    match step
    case AdmitStep(id, n, digest, list, created, expires) => Admit(s, id, n, digest, list, created, expires)
    case ClaimStep(id, now, deleted) => Claim(s, cfg, id, now, deleted)
    case DropStep(id, stored) => Drop(s, id, stored)
    case RejectStep(id, deleted) => Reject(s, id, deleted)
    case ScanStep(id, frames, list, deleted) => Scanned(s, id, frames, list, deleted)
    case PurgeStep(id, now, exempt, failAt) => Purge(s, id, now, exempt, failAt)
    case DeleteStep(id) => Delete(s, id)
    case CleanStep(keys) => Clean(s, keys)
  }

  // ----- What every step keeps -----

  ghost predicate RowOk(s: Site, cfg: Config, id: AttId)
    requires id in s.rows
  {
    var row := s.rows[id];
    && row.attempts <= cfg.maxAttempts
    // keys belong to their row
    && (row.main.Some? ==> row.main == Some(Output(id)) && row.status == Ready)
    && (row.poster.Some? ==> row.poster == Some(Poster(id)) && row.status == Ready)
    && (row.status == Ready && row.purged.None? ==> row.main.Some? && row.poster.Some?)
    && (row.source.Some? ==> row.source.value.Source? && row.status != Ready && row.status != Failed && row.purged.None?
                             && row.source.value in s.storage)
    && (row.status == Blocked || row.Unfinished() ==> row.source.Some?)
    && (row.purged.Some? ==> row.Keys() == [] && row.status != Blocked && row.status != Processing)
    // published means checked
    && Checked(s, id)
    && (id in s.live ==> row.status == Processing)
  }

  ghost predicate Checked(s: Site, id: AttId)
    requires id in s.rows
  {
    && id in s.digests && s.digests[id].0 !in s.digests[id].1
    && (s.rows[id].status == Ready ==>
       id in s.frames && s.frames[id].0 != [] && AllClean(s.frames[id].0, s.frames[id].1))
  }

  ghost predicate Inv(s: Site, cfg: Config) {
    && (forall id :: id in s.rows ==> RowOk(s, cfg, id))
    && (forall i, j :: i in s.rows && j in s.rows && i != j && s.rows[i].source.Some? ==>
       s.rows[i].source != s.rows[j].source)
  }

  /** Changing one row and deleting only bytes it owned or nobody owns leaves the others in order. */
  lemma OneRowKeeps(s: Site, t: Site, cfg: Config, id: AttId)
    requires Inv(s, cfg) && t.rows.Keys <= s.rows.Keys + {id}
    requires forall i :: i in t.rows && i != id ==> t.rows[i] == s.rows[i] && (i in t.live ==> i in s.live)
    requires forall i :: i in t.rows && i != id && t.rows[i].source.Some? ==> t.rows[i].source.value in t.storage
    requires forall i :: i in t.rows && i != id && i in s.digests ==> i in t.digests && t.digests[i] == s.digests[i]
    requires forall i :: i in t.rows && i != id && i in s.frames ==> i in t.frames && t.frames[i] == s.frames[i]
    requires id in t.rows ==> RowOk(t, cfg, id)
    requires id in t.rows && t.rows[id].source.Some? ==>
               (id in s.rows && t.rows[id].source == s.rows[id].source)
               || forall i :: i in s.rows ==> s.rows[i].source != t.rows[id].source
    ensures Inv(t, cfg)
  {
    forall i | i in t.rows ensures RowOk(t, cfg, i) {
      if i != id {
        assert RowOk(s, cfg, i);
      }
    }
  }

  lemma AdmitKeeps(s: Site, cfg: Config, step: Step)
    requires Inv(s, cfg) && step.AdmitStep? && Allowed(s, cfg, step)
    ensures Inv(Next(s, cfg, step), cfg)
  {
    RowsOk(s, cfg);
    if step.digest !in step.digestList {
      OneRowKeeps(s, Next(s, cfg, step), cfg, step.id);
    }
  }

  lemma RowsOk(s: Site, cfg: Config)
    requires Inv(s, cfg)
    ensures forall i :: i in s.rows && s.rows[i].source.Some? ==> s.rows[i].source.value in s.storage
  {
    forall i | i in s.rows ensures RowOk(s, cfg, i) {}
  }

  lemma ClaimKeeps(s: Site, cfg: Config, step: Step)
    requires Inv(s, cfg) && step.ClaimStep? && Allowed(s, cfg, step)
    ensures Inv(Next(s, cfg, step), cfg)
  {
    RowsOk(s, cfg);
    assert RowOk(s, cfg, step.id);
    OneRowKeeps(s, Next(s, cfg, step), cfg, step.id);
  }

  lemma DropKeeps(s: Site, cfg: Config, step: Step)
    requires Inv(s, cfg) && step.DropStep? && Allowed(s, cfg, step)
    ensures Inv(Next(s, cfg, step), cfg)
  {
    RowsOk(s, cfg);
    forall i | i in s.rows ensures RowOk(Next(s, cfg, step), cfg, i) {
      assert RowOk(s, cfg, i);
    }
  }

  lemma RejectKeeps(s: Site, cfg: Config, step: Step)
    requires Inv(s, cfg) && step.RejectStep? && Allowed(s, cfg, step)
    ensures Inv(Next(s, cfg, step), cfg)
  {
    RowsOk(s, cfg);
    assert step.id in s.rows ==> RowOk(s, cfg, step.id);
    OneRowKeeps(s, Next(s, cfg, step), cfg, step.id);
  }

  lemma BlockKeeps(s: Site, cfg: Config, id: AttId)
    requires Inv(s, cfg) && id in s.live
    ensures Inv(Block(s, id), cfg)
  {
    RowsOk(s, cfg);
    assert id in s.rows ==> RowOk(s, cfg, id);
    OneRowKeeps(s, Block(s, id), cfg, id);
  }

  lemma PublishKeeps(s: Site, cfg: Config, id: AttId, frames: seq<Frame>, blocklist: set<Frame>, deleted: bool)
    requires Inv(s, cfg) && id in s.live && frames != [] && AllClean(frames, blocklist)
    ensures Inv(Publish(s, id, frames, blocklist, deleted), cfg)
  {
    RowsOk(s, cfg);
    assert id in s.rows ==> RowOk(s, cfg, id);
    OneRowKeeps(s, Publish(s, id, frames, blocklist, deleted), cfg, id);
  }

  /** No other row's source is among a row's keys. */
  lemma OwnKeys(s: Site, cfg: Config, id: AttId)
    requires Inv(s, cfg) && id in s.rows
    ensures forall i :: i in s.rows && i != id && s.rows[i].source.Some? ==>
        s.rows[i].source.value !in s.rows[id].Keys()
  {
    assert RowOk(s, cfg, id);
    assert forall k :: k in s.rows[id].Keys() ==> k == Output(id) || k == Poster(id) || Some(k) == s.rows[id].source;
    forall i | i in s.rows && i != id && s.rows[i].source.Some? ensures s.rows[i].source.value !in s.rows[id].Keys() {
      assert RowOk(s, cfg, i);
    }
  }

  lemma PurgedRowKeeps(s: Site, cfg: Config, id: AttId, now: int)
    requires Inv(s, cfg) && id in s.rows && Purgeable(s.rows[id], now, false)
    ensures Inv(Purge(s, id, now, false, None), cfg)
  {
    var t := Purge(s, id, now, false, None);
    RowsOk(s, cfg);
    OwnKeys(s, cfg, id);
    assert RowOk(s, cfg, id);
    OneRowKeeps(s, t, cfg, id);
  }

  /** Sources are deleted last, so a purge that fails has not lost the row's own source. */
  lemma FailedPurgeKeeps(s: Site, cfg: Config, id: AttId, now: int, n: nat)
    requires Inv(s, cfg) && id in s.rows && Purgeable(s.rows[id], now, false) && n < |s.rows[id].Keys()|
    ensures Inv(Purge(s, id, now, false, Some(n)), cfg)
  {
    var t := Purge(s, id, now, false, Some(n));
    RowsOk(s, cfg);
    OwnKeys(s, cfg, id);
    assert forall k :: k in s.rows[id].Keys()[..n] ==> k in s.rows[id].Keys();
    forall i | i in t.rows ensures RowOk(t, cfg, i) {
      assert RowOk(s, cfg, i);
    }
  }

  lemma PurgeKeeps(s: Site, cfg: Config, id: AttId, now: int, exempt: bool, failAt: Option<nat>)
    requires Inv(s, cfg)
    ensures Inv(Purge(s, id, now, exempt, failAt), cfg)
  {
    if id in s.rows && Purgeable(s.rows[id], now, exempt) {
      if failAt.Some? && failAt.value < |s.rows[id].Keys()| {
        FailedPurgeKeeps(s, cfg, id, now, failAt.value);
      } else {
        PurgedRowKeeps(s, cfg, id, now);
      }
    }
  }

  lemma StepKeepsInv(s: Site, cfg: Config, step: Step)
    requires Inv(s, cfg) && Allowed(s, cfg, step)
    ensures Inv(Next(s, cfg, step), cfg)
  {
    match step {
      case AdmitStep(_, _, _, _, _, _) => AdmitKeeps(s, cfg, step);
      case ClaimStep(_, _, _) => ClaimKeeps(s, cfg, step);
      case PurgeStep(id, now, exempt, failAt) => PurgeKeeps(s, cfg, id, now, exempt, failAt);
      case DeleteStep(id) =>
        RowsOk(s, cfg);
        OneRowKeeps(s, Delete(s, id), cfg, id);
      case CleanStep(keys) =>
        forall i | i in s.rows ensures RowOk(Clean(s, keys), cfg, i) {
          assert RowOk(s, cfg, i);
        }
      case DropStep(_, _) => DropKeeps(s, cfg, step);
      case RejectStep(_, _) => RejectKeeps(s, cfg, step);
      case ScanStep(id, frames, list, deleted) =>
        if AllClean(frames, list) {
          PublishKeeps(s, cfg, id, frames, list, deleted);
        } else {
          BlockKeeps(s, cfg, id);
        }
    }
  }

  // ----- Runs -----

  const EMPTY: Site := Site(map[], {}, {}, map[], map[])

  ghost predicate AllowedRun(s: Site, cfg: Config, run: seq<Step>)
    decreases |run|
  {
    run == [] || (Allowed(s, cfg, run[0]) && AllowedRun(Next(s, cfg, run[0]), cfg, run[1..]))
  }

  ghost function After(s: Site, cfg: Config, run: seq<Step>): Site
    requires AllowedRun(s, cfg, run)
    decreases |run|
  {
    if run == [] then s else After(Next(s, cfg, run[0]), cfg, run[1..])
  }

  lemma {:induction false} RunKeepsInv(s: Site, cfg: Config, run: seq<Step>)
    requires Inv(s, cfg) && AllowedRun(s, cfg, run)
    ensures Inv(After(s, cfg, run), cfg)
    decreases |run|
  {
    if run != [] {
      StepKeepsInv(s, cfg, run[0]);
      RunKeepsInv(Next(s, cfg, run[0]), cfg, run[1..]);
    }
  }

  /** In every reachable state bytes are served exactly when the row is published, unpurged and (but for
      staff) unexpired; and then its digest and at least one frame, all of them clean, were checked. */
  lemma ServedMeansChecked(cfg: Config, run: seq<Step>, id: AttId, now: int, staff: bool)
    requires AllowedRun(EMPTY, cfg, run) && id in After(EMPTY, cfg, run).rows
    ensures var s := After(EMPTY, cfg, run);
            var row := s.rows[id];
            && (row.Retrievable(now, staff) <==>
                  row.status == Ready && row.purged.None?
                  && (staff || row.expires.None? || now < row.expires.value))
            && (row.Available(now) <==> row.Retrievable(now, false))
            && (row.Retrievable(now, staff) ==>
                  && id in s.digests && s.digests[id].0 !in s.digests[id].1
                  && id in s.frames && s.frames[id].0 != [] && AllClean(s.frames[id].0, s.frames[id].1))
  {
    RunKeepsInv(EMPTY, cfg, run);
    assert RowOk(After(EMPTY, cfg, run), cfg, id);
  }

  /** Evidence: once blocked, a row stays blocked and its source stays stored, whatever claims,
      workers and purges do, until the row itself is deleted. */
  lemma {:induction false} EvidenceSurvives(s: Site, cfg: Config, run: seq<Step>, id: AttId)
    requires Inv(s, cfg) && AllowedRun(s, cfg, run) && id in s.rows && s.rows[id].status == Blocked
    requires forall i :: 0 <= i < |run| ==> run[i] != DeleteStep(id)
    ensures var t := After(s, cfg, run);
            && id in t.rows && t.rows[id].status == Blocked
            && t.rows[id].source == s.rows[id].source && t.rows[id].source.Some? && t.rows[id].source.value in t.storage
            && forall now, staff :: !t.rows[id].Retrievable(now, staff)
    decreases |run|
  {
    assert RowOk(s, cfg, id);
    if run != [] {
      var t := Next(s, cfg, run[0]);
      BlockedRowUntouched(s, cfg, run[0], id);
      StepKeepsInv(s, cfg, run[0]);
      assert forall i :: 0 <= i < |run[1..]| ==> run[1..][i] == run[i + 1];
      EvidenceSurvives(t, cfg, run[1..], id);
    }
  }

  lemma BlockedRowUntouched(s: Site, cfg: Config, step: Step, id: AttId)
    requires Inv(s, cfg) && Allowed(s, cfg, step) && step != DeleteStep(id)
    requires id in s.rows && s.rows[id].status == Blocked
    ensures id in Next(s, cfg, step).rows && Next(s, cfg, step).rows[id] == s.rows[id]
  {
    assert RowOk(s, cfg, id);
  }

  /** A claim lowers this by at least one and nothing raises it: the claims a row has left. */
  function ClaimsLeft(row: Row, cfg: Config): int {
    if row.Unfinished() then cfg.maxAttempts - row.attempts + 1 else 0
  }

  function ClaimsOf(run: seq<Step>, id: AttId): nat {
    if run == [] then 0 else (if run[0].ClaimStep? && run[0].id == id then 1 else 0) + ClaimsOf(run[1..], id)
  }

  lemma StepSpendsClaim(s: Site, cfg: Config, step: Step, id: AttId)
    requires Inv(s, cfg) && Allowed(s, cfg, step) && id in s.rows && id in Next(s, cfg, step).rows
    ensures ClaimsLeft(Next(s, cfg, step).rows[id], cfg)
         <= ClaimsLeft(s.rows[id], cfg) - if step.ClaimStep? && step.id == id then 1 else 0
    ensures ClaimsLeft(s.rows[id], cfg) >= 0
  {
    assert RowOk(s, cfg, id);
  }

  /** Over any run a row is claimed at most `maxAttempts + 1` times, crashes included. */
  lemma {:induction false} ClaimsAreBounded(s: Site, cfg: Config, run: seq<Step>, id: AttId)
    requires Inv(s, cfg) && AllowedRun(s, cfg, run) && id in s.rows
    requires forall i :: 0 <= i < |run| ==> run[i] != DeleteStep(id)
    ensures ClaimsOf(run, id) <= ClaimsLeft(s.rows[id], cfg) <= cfg.maxAttempts + 1
    decreases |run|
  {
    assert RowOk(s, cfg, id);
    if run != [] {
      var t := Next(s, cfg, run[0]);
      StepKeepsInv(s, cfg, run[0]);
      RowStays(s, cfg, run[0], id);
      StepSpendsClaim(s, cfg, run[0], id);
      assert forall i :: 0 <= i < |run[1..]| ==> run[1..][i] == run[i + 1];
      ClaimsAreBounded(t, cfg, run[1..], id);
    }
  }

  lemma RowStays(s: Site, cfg: Config, step: Step, id: AttId)
    requires Allowed(s, cfg, step) && id in s.rows && step != DeleteStep(id)
    ensures id in Next(s, cfg, step).rows
  {
  }

  // ----- How atomic a purge is -----

  /** A purge item that completes leaves none of its bytes; one that fails leaves the row as it
      was, and then the row's bytes are all still there exactly when the first deletion failed. */
  lemma PurgeAtomicity(s: Site, cfg: Config, id: AttId, now: int, failAt: Option<nat>)
    requires Inv(s, cfg) && id in s.rows && Purgeable(s.rows[id], now, false)
    requires forall k :: k in s.rows[id].Keys() ==> k in s.storage
    ensures var t, keys := Purge(s, id, now, false, failAt), s.rows[id].Keys();
            && (t.rows[id].purged.Some? <==> failAt.None? || failAt.value >= |keys|)
            && (t.rows[id].purged.Some? ==> forall k :: k in keys ==> k !in t.storage)
            && (t.rows[id].purged.None? ==> t.rows[id] == s.rows[id])
            && (t.rows[id].purged.None? ==> ((forall k :: k in keys ==> k in t.storage) <==> failAt == Some(0)))
  {
    assert RowOk(s, cfg, id);
    var t, keys := Purge(s, id, now, false, failAt), s.rows[id].Keys();
    if t.rows[id].purged.None? && failAt != Some(0) {
      assert keys[0] in keys && keys[0] in keys[..failAt.value];
    }
  }

  /** Before a purge it can be told whether the row and its bytes are safe from coming apart: exactly
      when the row has at most one key, no failing deletion can lose bytes of a row that stays. */
  lemma PurgeNeverComesApart(s: Site, cfg: Config, id: AttId, now: int)
    requires Inv(s, cfg) && id in s.rows && Purgeable(s.rows[id], now, false)
    requires forall k :: k in s.rows[id].Keys() ==> k in s.storage
    ensures |s.rows[id].Keys()| <= 1
       <==> forall failAt :: Together(s.rows[id], Purge(s, id, now, false, failAt), id)
  {
    var keys := s.rows[id].Keys();
    forall failAt ensures Together(s.rows[id], Purge(s, id, now, false, failAt), id) || |keys| > 1 {
      PurgeAtomicity(s, cfg, id, now, failAt);
    }
    if |keys| > 1 {
      PurgeAtomicity(s, cfg, id, now, Some(1));
      assert !Together(s.rows[id], Purge(s, id, now, false, Some(1)), id);
    }
  }

  /** Either the row is purged, or all the bytes it had are still stored. */
  predicate Together(row: Row, t: Site, id: AttId) {
    id in t.rows && (t.rows[id].purged.Some? || forall k :: k in row.Keys() ==> k in t.storage)
  }
}
