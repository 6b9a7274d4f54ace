/** What the steps of a video's life do to its row and its bytes, in terms of the stored fields, and what
    a whole run leaves of them. */
module VideoHistory {
  import opened Options
  import opened VideoLifecycle

  // ----- Every step, seen from one row -----

  /** Some sampled frame is on the blocklist. */
  predicate Dirty(frames: seq<Frame>, blocklist: set<Frame>) {
    exists i :: 0 <= i < |frames| && frames[i] in blocklist
  }

  /** What retention leaves alone. */
  predicate Spared(row: Row, now: int, exempt: bool) {
    || exempt || row.expires.None? || now < row.expires.value || row.purged.Some?
    || row.status == Blocked || row.status == Processing
  }

  /** How many blobs the row names. */
  function Blobs(row: Row): nat {
    (if row.main.Some? then 1 else 0) + (if row.poster.Some? then 1 else 0) + (if row.source.Some? then 1 else 0)
  }

  predicate Named(row: Row, k: Key) {
    row.main == Some(k) || row.poster == Some(k) || row.source == Some(k)
  }

  lemma KeysAreNamed(row: Row)
    ensures |row.Keys()| == Blobs(row)
    ensures forall k :: k in row.Keys() <==> Named(row, k)
  {
  }

  /** The purge takes effect: a row it does not spare, all of whose deletions succeed. */
  predicate Purges(row: Row, step: Step, id: AttId) {
    && step.PurgeStep? && step.id == id && !Spared(row, step.now, step.exempt)
    && (step.failAt.None? || step.failAt.value >= Blobs(row))
  }

  predicate StartsAttempt(row: Row, cfg: Config, step: Step, id: AttId) {
    step.ClaimStep? && step.id == id && row.attempts < cfg.maxAttempts
  }

  /** The status a step leaves: a scan decides between published and blocked, a rejected upload and an
      exhausted claim fail, any other claim starts an attempt. */
  function StatusAfter(row: Row, cfg: Config, step: Step, id: AttId): Status {
    match step
    case ScanStep(i, frames, list, _) => if i != id then row.status else if Dirty(frames, list) then Blocked else Ready
    case RejectStep(i, _) => if i == id then Failed else row.status
    case ClaimStep(i, _, _) =>
      if i != id then row.status else if row.attempts < cfg.maxAttempts then Processing else Failed
    case _ => row.status
  }

  /** How a step may change a row that stays. */
  ghost predicate RowLaw(row: Row, after: Row, cfg: Config, step: Step, id: AttId) {
    && after.status == StatusAfter(row, cfg, step, id)
    && (if StartsAttempt(row, cfg, step, id) then after.attempts == row.attempts + 1 && after.started == step.now
        else after.attempts == row.attempts && after.started == row.started)
    && after.created == row.created && after.expires == row.expires
    && after.purged == (if Purges(row, step, id) then Some(step.now) else row.purged)
    && (Purges(row, step, id) ==> Blobs(after) == 0)
    && (after.status == Blocked || StartsAttempt(row, cfg, step, id) ==> after.source == row.source)
    && (!Purges(row, step, id) && !StartsAttempt(row, cfg, step, id) && after.status == row.status ==> after == row)
  }

  lemma PurgeRow(s: Site, cfg: Config, step: Step, id: AttId)
    requires step.PurgeStep? && id in s.rows && Allowed(s, cfg, step)
    ensures id in Next(s, cfg, step).rows && RowLaw(s.rows[id], Next(s, cfg, step).rows[id], cfg, step, id)
  {
    KeysAreNamed(s.rows[id]);
  }

  lemma WorkRow(s: Site, cfg: Config, step: Step, id: AttId)
    requires Inv(s, cfg) && Allowed(s, cfg, step) && id in s.rows
    requires step.ClaimStep? || step.RejectStep? || step.ScanStep?
    ensures id in Next(s, cfg, step).rows && RowLaw(s.rows[id], Next(s, cfg, step).rows[id], cfg, step, id)
  {
    assert RowOk(s, cfg, id);
  }

  lemma OtherRow(s: Site, cfg: Config, step: Step, id: AttId)
    requires Allowed(s, cfg, step) && id in s.rows && step != DeleteStep(id)
    requires step.AdmitStep? || step.DropStep? || step.DeleteStep? || step.CleanStep?
    ensures id in Next(s, cfg, step).rows && RowLaw(s.rows[id], Next(s, cfg, step).rows[id], cfg, step, id)
  {
  }

  /** Every step, seen from a row that stays: its status changes for these reasons alone, an attempt is
      counted exactly when one starts, the expiry never moves, a blocked row keeps its source, and a purge
      leaves no key. */
  lemma RowsChange(s: Site, cfg: Config, step: Step, id: AttId)
    requires Inv(s, cfg) && Allowed(s, cfg, step) && id in s.rows && step != DeleteStep(id)
    ensures id in Next(s, cfg, step).rows && RowLaw(s.rows[id], Next(s, cfg, step).rows[id], cfg, step, id)
  {
    match step
    case PurgeStep(_, _, _, _) => PurgeRow(s, cfg, step, id);
    case ClaimStep(_, _, _) => WorkRow(s, cfg, step, id);
    case RejectStep(_, _) => WorkRow(s, cfg, step, id);
    case ScanStep(_, _, _, _) => WorkRow(s, cfg, step, id);
    case _ => OtherRow(s, cfg, step, id);
  }

  /** An upload becomes a row exactly when its digest is clean: withheld, unattempted, with its source stored. */
  lemma AdmissionIsExact(s: Site, cfg: Config, step: Step)
    requires step.AdmitStep? && Allowed(s, cfg, step)
    ensures var after := Next(s, cfg, step);
            && (step.id in after.rows <==> step.digest !in step.digestList)
            && (step.id in after.rows ==>
                  var row := after.rows[step.id];
                  && row.status == Pending && row.attempts == 0 && row.purged.None?
                  && row.created == step.created && row.expires == step.expires
                  && row.main.None? && row.poster.None? && row.source == Some(Source(step.n))
                  && Source(step.n) in after.storage && after.digests[step.id] == (step.digest, step.digestList))
            && (step.id !in after.rows ==> after == s)
  {
  }

  // ----- Retention -----

  /** One item of the purge: a spared row and its bytes stay as they are; any other whose deletions
      succeed is purged with all of its bytes; one that fails keeps its row. */
  lemma PurgeIsExact(s: Site, id: AttId, now: int, exempt: bool, failAt: Option<nat>)
    requires id in s.rows
    ensures var row, after := s.rows[id], Purge(s, id, now, exempt, failAt);
            if Spared(row, now, exempt) then after == s
            else if failAt.Some? && failAt.value < Blobs(row) then
              && after.rows == s.rows && after.storage <= s.storage
              && (forall k :: k in s.storage && !Named(row, k) ==> k in after.storage)
            else
              && after.rows.Keys == s.rows.Keys && (forall i :: i in s.rows && i != id ==> after.rows[i] == s.rows[i])
              && after.rows[id].purged == Some(now) && (forall k :: !Named(after.rows[id], k))
              && (forall k :: k in after.storage <==> k in s.storage && !Named(row, k))
  {
    var keys := s.rows[id].Keys();
    KeysAreNamed(s.rows[id]);
    if failAt.Some? && failAt.value < |keys| {
      assert forall k :: k in keys[..failAt.value] ==> k in keys;
    }
  }

  // ----- Where a row comes from, and when it is worked on -----

  /** The step is the clean upload this row was made for. */
  ghost predicate IsOrigin(step: Step, t: Site, id: AttId)
    requires id in t.rows
  {
    && step.AdmitStep? && step.id == id && step.digest !in step.digestList
    && t.rows[id].created == step.created && t.rows[id].expires == step.expires
    && id in t.digests && t.digests[id] == (step.digest, step.digestList)
  }

  lemma OriginStands(s: Site, cfg: Config, step: Step, id: AttId)
    requires Inv(s, cfg) && Allowed(s, cfg, step) && id in Next(s, cfg, step).rows
    ensures var t := Next(s, cfg, step);
            if id in s.rows then
              && t.rows[id].created == s.rows[id].created && t.rows[id].expires == s.rows[id].expires
              && id in s.digests && id in t.digests && t.digests[id] == s.digests[id]
            else IsOrigin(step, t, id)
  {
    if id in s.rows {
      assert RowOk(s, cfg, id);
      RowsChange(s, cfg, step, id);
    }
  }

  ghost predicate CameFrom(s: Site, run: seq<Step>, t: Site, id: AttId)
    requires id in t.rows
  {
    || (id in s.rows && t.rows[id].created == s.rows[id].created && t.rows[id].expires == s.rows[id].expires
        && id in s.digests && id in t.digests && t.digests[id] == s.digests[id])
    || exists i :: 0 <= i < |run| && IsOrigin(run[i], t, id)
  }

  lemma CameFromEarlier(s: Site, cfg: Config, run: seq<Step>, t: Site, id: AttId)
    requires Inv(s, cfg) && run != [] && Allowed(s, cfg, run[0]) && id in t.rows
    requires CameFrom(Next(s, cfg, run[0]), run[1..], t, id)
    ensures CameFrom(s, run, t, id)
  {
    if i :| 0 <= i < |run[1..]| && IsOrigin(run[1..][i], t, id) {
      assert IsOrigin(run[i + 1], t, id);
    } else {
      OriginStands(s, cfg, run[0], id);
      if id !in s.rows {
        assert IsOrigin(run[0], t, id);
      }
    }
  }

  lemma {:induction false} RowsComeFrom(s: Site, cfg: Config, run: seq<Step>, id: AttId)
    requires Inv(s, cfg) && AllowedRun(s, cfg, run) && id in After(s, cfg, run).rows
    ensures CameFrom(s, run, After(s, cfg, run), id)
    decreases |run|
  {
    if run == [] {
      assert RowOk(s, cfg, id);
    } else {
      StepKeepsInv(s, cfg, run[0]);
      RowsComeFrom(Next(s, cfg, run[0]), cfg, run[1..], id);
      CameFromEarlier(s, cfg, run, After(s, cfg, run), id);
    }
  }

  /** After any run every row is of a clean upload of that run, with its creation time and expiry. */
  lemma RowsHaveOrigin(cfg: Config, run: seq<Step>, id: AttId) returns (i: nat)
    requires AllowedRun(EMPTY, cfg, run) && id in After(EMPTY, cfg, run).rows
    ensures i < |run| && IsOrigin(run[i], After(EMPTY, cfg, run), id)
  {
    RowsComeFrom(EMPTY, cfg, run, id);
    i :| 0 <= i < |run| && IsOrigin(run[i], After(EMPTY, cfg, run), id);
  }

  /** Left alone after an attempt that began at `since`, a row is being processed, or done with. */
  predicate Begun(row: Row, since: int) {
    (row.status == Processing && row.started == since) || row.status in {Ready, Failed, Blocked}
  }

  predicate ElsewhereOnly(run: seq<Step>, id: AttId) {
    forall i :: 0 <= i < |run| ==> run[i] != DeleteStep(id) && !(run[i].ClaimStep? && run[i].id == id)
  }

  lemma {:induction false} StaysBegun(s: Site, cfg: Config, run: seq<Step>, id: AttId, since: int)
    requires Inv(s, cfg) && AllowedRun(s, cfg, run) && id in s.rows && Begun(s.rows[id], since)
    requires ElsewhereOnly(run, id)
    ensures var t := After(s, cfg, run); Inv(t, cfg) && id in t.rows && Begun(t.rows[id], since)
    decreases |run|
  {
    if run != [] {
      RowsChange(s, cfg, run[0], id);
      StepKeepsInv(s, cfg, run[0]);
      assert forall i :: 0 <= i < |run[1..]| ==> run[1..][i] == run[i + 1];
      StaysBegun(Next(s, cfg, run[0]), cfg, run[1..], id, since);
    }
  }

  /** Two successive claims of one row, whatever happens in between, lie more than the abandonment time
      apart. */
  lemma ClaimsAreSpaced(s: Site, cfg: Config, id: AttId, first: int, deleted: bool, between: seq<Step>, second: int,
      again: bool)
    requires Inv(s, cfg) && Allowed(s, cfg, ClaimStep(id, first, deleted)) && ElsewhereOnly(between, id)
    requires var t := Next(s, cfg, ClaimStep(id, first, deleted));
             AllowedRun(t, cfg, between) && Allowed(After(t, cfg, between), cfg, ClaimStep(id, second, again))
    ensures first + cfg.stale < second
  {
    var t := Next(s, cfg, ClaimStep(id, first, deleted));
    StepKeepsInv(s, cfg, ClaimStep(id, first, deleted));
    RowsChange(s, cfg, ClaimStep(id, first, deleted), id);
    StaysBegun(t, cfg, between, id, first);
  }

  /** An attempt whose worker died is taken up again exactly from then on. */
  lemma AbandonedIsDueAgain(s: Site, cfg: Config, id: AttId, first: int, deleted: bool, stored: set<Key>, now: int)
    requires Inv(s, cfg) && Allowed(s, cfg, ClaimStep(id, first, deleted)) && s.rows[id].attempts < cfg.maxAttempts
    ensures var t := Drop(Claim(s, cfg, id, first, deleted), id, stored);
            Allowed(t, cfg, ClaimStep(id, now, deleted)) <==> first + cfg.stale < now
  {
    assert RowOk(s, cfg, id);
  }

  // ----- Every byte is accounted for -----

  ghost predicate Held(s: Site, k: Key) {
    exists id :: id in s.rows && Named(s.rows[id], k)
  }

  /** `extra` blobs are stored though no row names them; `lost` ones are named though not stored. */
  datatype Books = Books(extra: set<Key>, lost: set<Key>)

  /** What is stored is exactly what rows name, less what is lost, and the extra blobs. */
  ghost predicate Balanced(s: Site, b: Books) {
    && (forall k :: k in s.storage <==> (Held(s, k) && k !in b.lost) || k in b.extra)
    && (forall k :: k in b.extra ==> !Held(s, k))
    && (forall k :: k in b.lost ==> Held(s, k))
  }

  function Blob(k: Option<Key>): set<Key> {
    if k.Some? then {k.value} else {}
  }

  function Outputs(id: AttId): set<Key> {
    {Output(id), Poster(id)}
  }

  function Names(row: Row): set<Key> {
    Blob(row.main) + Blob(row.poster) + Blob(row.source)
  }

  /** The first `n` blobs of a row, in the order a purge deletes them. */
  function FirstNames(row: Row, n: nat): set<Key> {
    var keys := if n <= |row.Keys()| then row.Keys()[..n] else row.Keys();
    set k | k in keys
  }

  /** How a step moves blobs in and out of the books: a source whose deletion failed, outputs stored by a
      worker that died or for a row that vanished, and the blobs of a deleted row become extra; a purge that
      fails half way loses what it deleted; publishing adopts its outputs, and cleaning up takes the extra. */
  function Booked(b: Books, s: Site, cfg: Config, step: Step): Books {
    match step
    case AdmitStep(_, _, _, _, _, _) => b
    case ClaimStep(id, _, deleted) =>
      if id in s.rows && s.rows[id].attempts >= cfg.maxAttempts && !deleted then
        b.(extra := b.extra + Blob(s.rows[id].source))
      else b
    case RejectStep(id, deleted) =>
      if id in s.rows && !deleted then b.(extra := b.extra + Blob(s.rows[id].source)) else b
    case DropStep(id, stored) => b.(extra := b.extra + (stored * Outputs(id)))
    case ScanStep(id, frames, list, deleted) =>
      if Dirty(frames, list) then b
      else if id !in s.rows then b.(extra := if deleted then b.extra - Outputs(id) else b.extra + Outputs(id))
      else b.(extra := (b.extra - Outputs(id)) + (if deleted then {} else Blob(s.rows[id].source)))
    case PurgeStep(id, now, exempt, failAt) =>
      if id !in s.rows || Spared(s.rows[id], now, exempt) then b
      else if failAt.Some? && failAt.value < Blobs(s.rows[id]) then
        b.(lost := b.lost + FirstNames(s.rows[id], failAt.value))
      else b.(lost := b.lost - Names(s.rows[id]))
    case DeleteStep(id) =>
      if id in s.rows then Books(b.extra + (Names(s.rows[id]) - b.lost), b.lost - Names(s.rows[id])) else b
    case CleanStep(keys) => b.(extra := b.extra - keys)
  }

  lemma NamesAreNamed(row: Row)
    ensures forall k :: k in Names(row) <==> Named(row, k)
    ensures forall n: nat, k :: k in FirstNames(row, n) ==> Named(row, k)
  {
    KeysAreNamed(row);
    forall n: nat, k | k in FirstNames(row, n) ensures Named(row, k) {
      assert k in row.Keys();
    }
  }

  /** No two rows name the same blob. */
  lemma HeldOnce(s: Site, cfg: Config, k: Key, i: AttId, j: AttId)
    requires Inv(s, cfg) && i in s.rows && j in s.rows && Named(s.rows[i], k) && Named(s.rows[j], k)
    ensures i == j
  {
    assert RowOk(s, cfg, i) && RowOk(s, cfg, j);
  }

  ghost predicate HeldBesides(s: Site, k: Key, id: AttId) {
    exists i :: i in s.rows && i != id && Named(s.rows[i], k)
  }

  lemma HeldByOne(s: Site, cfg: Config, k: Key, id: AttId)
    requires Inv(s, cfg)
    ensures HeldBesides(s, k, id) <==> Held(s, k) && !(id in s.rows && Named(s.rows[id], k))
  {
    if i :| i in s.rows && i != id && Named(s.rows[i], k) {
      if id in s.rows && Named(s.rows[id], k) {
        HeldOnce(s, cfg, k, i, id);
      }
    }
  }

  /** Changing one row changes what is held by that row alone. */
  lemma HeldChanges(s: Site, t: Site, cfg: Config, id: AttId)
    requires Inv(s, cfg) && Inv(t, cfg) && id in t.rows && t.rows == s.rows[id := t.rows[id]]
    ensures forall k :: Held(t, k) <==> Named(t.rows[id], k) || (Held(s, k) && !(id in s.rows && Named(s.rows[id], k)))
  {
    forall k ensures Held(t, k) <==> Named(t.rows[id], k) || (Held(s, k) && !(id in s.rows && Named(s.rows[id], k))) {
      HeldByOne(s, cfg, k, id);
      HeldByOne(t, cfg, k, id);
      assert HeldBesides(t, k, id) <==> HeldBesides(s, k, id) by {
        assert forall i :: i != id ==> (i in t.rows <==> i in s.rows) && (i in s.rows ==> t.rows[i] == s.rows[i]);
      }
    }
  }

  /** The law for one step. */
  ghost predicate KeepsBalance(s: Site, cfg: Config, step: Step, b: Books)
    requires Allowed(s, cfg, step)
  {
    Balanced(Next(s, cfg, step), Booked(b, s, cfg, step))
  }

  lemma AdmitBalances(s: Site, cfg: Config, step: Step, b: Books)
    requires Inv(s, cfg) && Balanced(s, b) && Allowed(s, cfg, step) && step.AdmitStep?
    ensures KeepsBalance(s, cfg, step, b)
  {
    StepKeepsInv(s, cfg, step);
    if step.digest !in step.digestList {
      HeldChanges(s, Next(s, cfg, step), cfg, step.id);
    }
  }

  /** A row gives up the blobs `given`, of which `gone` are deleted, and takes `taken` ones, which are stored. */
  lemma Rebalanced(s: Site, t: Site, b: Books, given: set<Key>, taken: set<Key>, gone: set<Key>)
    requires Balanced(s, b) && gone <= given
    requires forall k :: Held(t, k) <==> k in taken || (Held(s, k) && k !in given)
    requires forall k :: k in taken ==> !Held(s, k)
    requires forall k :: k in given ==> Held(s, k) && k in s.storage
    requires t.storage == (s.storage + taken) - gone
    ensures Balanced(t, b.(extra := (b.extra - taken) + (given - gone)))
  {
  }

  lemma FailBalances(s: Site, cfg: Config, id: AttId, deleted: bool, b: Books)
    requires Inv(s, cfg) && Balanced(s, b) && id in s.rows && s.rows[id].Unfinished() && Inv(Fail(s, id, deleted), cfg)
    ensures Balanced(Fail(s, id, deleted), b.(extra := b.extra + if deleted then {} else Blob(s.rows[id].source)))
  {
    assert RowOk(s, cfg, id);
    HeldChanges(s, Fail(s, id, deleted), cfg, id);
  }

  lemma ClaimBalances(s: Site, cfg: Config, id: AttId, now: int, deleted: bool, b: Books)
    requires Inv(s, cfg) && Balanced(s, b) && Allowed(s, cfg, ClaimStep(id, now, deleted))
    ensures KeepsBalance(s, cfg, ClaimStep(id, now, deleted), b)
  {
    StepKeepsInv(s, cfg, ClaimStep(id, now, deleted));
    if s.rows[id].attempts >= cfg.maxAttempts {
      FailBalances(s, cfg, id, deleted, b);
      assert b.extra + {} == b.extra;
    } else {
      HeldChanges(s, Claim(s, cfg, id, now, deleted), cfg, id);
    }
  }

  /** A step that touches no bytes and no row's keys. */
  lemma SameBalance(s: Site, t: Site, b: Books)
    requires Balanced(s, b) && t.rows == s.rows && t.storage == s.storage
    ensures Balanced(t, b)
  {
    assert forall k :: Held(t, k) <==> Held(s, k);
  }

  lemma RejectBalances(s: Site, cfg: Config, id: AttId, deleted: bool, b: Books)
    requires Inv(s, cfg) && Balanced(s, b) && id in s.live
    ensures KeepsBalance(s, cfg, RejectStep(id, deleted), b)
  {
    StepKeepsInv(s, cfg, RejectStep(id, deleted));
    if id in s.rows {
      assert RowOk(s, cfg, id);
      FailBalances(s, cfg, id, deleted, b);
      assert b.extra + {} == b.extra;
    } else {
      SameBalance(s, Reject(s, id, deleted), b);
    }
  }

  lemma BlockBalances(s: Site, cfg: Config, id: AttId, b: Books)
    requires Inv(s, cfg) && Balanced(s, b) && id in s.live
    ensures Balanced(Block(s, id), b)
  {
    BlockKeeps(s, cfg, id);
    if id in s.rows {
      assert RowOk(s, cfg, id);
      HeldChanges(s, Block(s, id), cfg, id);
    } else {
      SameBalance(s, Block(s, id), b);
    }
  }

  /** Nobody holds the outputs of a row that is being processed, or gone. */
  lemma OutputsNotHeld(s: Site, cfg: Config, id: AttId)
    requires Inv(s, cfg) && (id in s.live || id !in s.rows)
    ensures !Held(s, Output(id)) && !Held(s, Poster(id))
  {
    forall i | i in s.rows ensures !Named(s.rows[i], Output(id)) && !Named(s.rows[i], Poster(id)) {
      assert RowOk(s, cfg, i);
    }
  }

  lemma VanishedBalances(s: Site, cfg: Config, id: AttId, frames: seq<Frame>, list: set<Frame>, deleted: bool, b: Books)
    requires Inv(s, cfg) && Balanced(s, b) && id !in s.rows
    ensures Balanced(Publish(s, id, frames, list, deleted),
                     b.(extra := if deleted then b.extra - Outputs(id) else b.extra + Outputs(id)))
  {
    OutputsNotHeld(s, cfg, id);
    assert forall k :: Held(Publish(s, id, frames, list, deleted), k) <==> Held(s, k);
  }

  lemma ReadyBalances(s: Site, cfg: Config, id: AttId, frames: seq<Frame>, list: set<Frame>, deleted: bool, b: Books)
    requires Inv(s, cfg) && Balanced(s, b) && id in s.live && id in s.rows
    requires Inv(Publish(s, id, frames, list, deleted), cfg)
    ensures Balanced(Publish(s, id, frames, list, deleted),
                     b.(extra := (b.extra - Outputs(id)) + if deleted then {} else Blob(s.rows[id].source)))
  {
    var t, source := Publish(s, id, frames, list, deleted), Blob(s.rows[id].source);
    var gone := if deleted then source else {};
    OutputsNotHeld(s, cfg, id);
    assert RowOk(s, cfg, id);
    assert forall k :: k in source <==> Named(s.rows[id], k);
    assert forall k :: k in Outputs(id) <==> Named(t.rows[id], k);
    HeldChanges(s, t, cfg, id);
    assert source - gone == if deleted then {} else source;
    Rebalanced(s, t, b, source, Outputs(id), gone);
  }

  lemma PublishBalances(s: Site, cfg: Config, id: AttId, frames: seq<Frame>, list: set<Frame>, deleted: bool, b: Books)
    requires Inv(s, cfg) && Balanced(s, b) && id in s.live && frames != [] && AllClean(frames, list)
    ensures KeepsBalance(s, cfg, ScanStep(id, frames, list, deleted), b)
  {
    PublishKeeps(s, cfg, id, frames, list, deleted);
    if id in s.rows {
      ReadyBalances(s, cfg, id, frames, list, deleted, b);
    } else {
      VanishedBalances(s, cfg, id, frames, list, deleted, b);
    }
  }

  lemma DropBalances(s: Site, cfg: Config, id: AttId, stored: set<Key>, b: Books)
    requires Inv(s, cfg) && Balanced(s, b) && id in s.live
    ensures KeepsBalance(s, cfg, DropStep(id, stored), b)
  {
    OutputsNotHeld(s, cfg, id);
    assert forall k :: Held(Drop(s, id, stored), k) <==> Held(s, k);
  }

  lemma PurgeBalances(s: Site, cfg: Config, id: AttId, now: int, exempt: bool, failAt: Option<nat>, b: Books)
    requires Inv(s, cfg) && Balanced(s, b)
    ensures KeepsBalance(s, cfg, PurgeStep(id, now, exempt, failAt), b)
  {
    var t := Purge(s, id, now, exempt, failAt);
    if id in s.rows && !Spared(s.rows[id], now, exempt) {
      PurgeIsExact(s, id, now, exempt, failAt);
      NamesAreNamed(s.rows[id]);
      KeysAreNamed(s.rows[id]);
      PurgeKeeps(s, cfg, id, now, exempt, failAt);
      if failAt.Some? && failAt.value < Blobs(s.rows[id]) {
        assert forall k :: Held(t, k) <==> Held(s, k);
        assert forall k :: Named(s.rows[id], k) ==> Held(s, k);
        NoExtraNamed(s, id, b);
      } else {
        HeldChanges(s, t, cfg, id);
      }
    }
  }

  lemma NoExtraNamed(s: Site, id: AttId, b: Books)
    requires Balanced(s, b) && id in s.rows
    ensures forall k :: Named(s.rows[id], k) ==> k !in b.extra
  {
    forall k | Named(s.rows[id], k) ensures k !in b.extra {
      assert Held(s, k);
    }
  }

  lemma HeldAfterDelete(s: Site, cfg: Config, id: AttId, k: Key)
    requires Inv(s, cfg) && id in s.rows
    ensures Held(Delete(s, id), k) <==> Held(s, k) && !Named(s.rows[id], k)
  {
    HeldByOne(s, cfg, k, id);
    var t := Delete(s, id);
    forall i: AttId ensures i in t.rows && Named(t.rows[i], k) <==> i in s.rows && i != id && Named(s.rows[i], k) {
    }
    if HeldBesides(s, k, id) {
      var i: AttId :| i in s.rows && i != id && Named(s.rows[i], k);
      assert i in t.rows && Named(t.rows[i], k);
    }
  }

  lemma DeleteBalances(s: Site, cfg: Config, id: AttId, b: Books)
    requires Inv(s, cfg) && Balanced(s, b)
    ensures KeepsBalance(s, cfg, DeleteStep(id), b)
  {
    if id in s.rows {
      NamesAreNamed(s.rows[id]);
      forall k ensures Held(Delete(s, id), k) <==> Held(s, k) && !Named(s.rows[id], k) {
        HeldAfterDelete(s, cfg, id, k);
      }
      assert forall k :: Named(s.rows[id], k) ==> Held(s, k);
    } else {
      assert Delete(s, id).rows == s.rows;
      SameBalance(s, Delete(s, id), b);
    }
  }

  lemma CleanBalances(s: Site, cfg: Config, keys: set<Key>, b: Books)
    requires Inv(s, cfg) && Balanced(s, b)
    ensures KeepsBalance(s, cfg, CleanStep(keys), b)
  {
    forall k ensures Held(Clean(s, keys), k) <==> Held(s, k)
      ensures (forall id :: id in s.rows ==> k !in s.rows[id].Keys()) <==> !Held(s, k)
    {
      forall id | id in s.rows ensures k in s.rows[id].Keys() <==> Named(s.rows[id], k) {
        KeysAreNamed(s.rows[id]);
      }
    }
  }

  lemma StepBalances(s: Site, cfg: Config, step: Step, b: Books)
    requires Inv(s, cfg) && Balanced(s, b) && Allowed(s, cfg, step)
    ensures KeepsBalance(s, cfg, step, b)
  {
    match step {
      case AdmitStep(_, _, _, _, _, _) => AdmitBalances(s, cfg, step, b);
      case ClaimStep(id, now, deleted) => ClaimBalances(s, cfg, id, now, deleted, b);
      case RejectStep(id, deleted) => RejectBalances(s, cfg, id, deleted, b);
      case ScanStep(id, frames, list, deleted) =>
        if AllClean(frames, list) {
          PublishBalances(s, cfg, id, frames, list, deleted, b);
        } else {
          BlockBalances(s, cfg, id, b);
        }
      case DropStep(id, stored) => DropBalances(s, cfg, id, stored, b);
      case PurgeStep(id, now, exempt, failAt) => PurgeBalances(s, cfg, id, now, exempt, failAt, b);
      case DeleteStep(id) => DeleteBalances(s, cfg, id, b);
      case CleanStep(keys) => CleanBalances(s, cfg, keys, b);
    }
  }

  /** The books after a run. */
  ghost function BooksAfter(s: Site, cfg: Config, run: seq<Step>, b: Books): Books
    requires AllowedRun(s, cfg, run)
    decreases |run|
  {
    if run == [] then b else BooksAfter(Next(s, cfg, run[0]), cfg, run[1..], Booked(b, s, cfg, run[0]))
  }

  /** Over any run, whatever crashes and whichever deletions fail, every stored blob is accounted for: it is
      one a row names, or one of the extra ones; and every blob a row names is stored, unless a purge of that
      row failed half way. */
  lemma {:induction false} StorageBalances(s: Site, cfg: Config, run: seq<Step>, b: Books)
    requires Inv(s, cfg) && Balanced(s, b) && AllowedRun(s, cfg, run)
    ensures Balanced(After(s, cfg, run), BooksAfter(s, cfg, run, b))
    decreases |run|
  {
    if run != [] {
      StepKeepsInv(s, cfg, run[0]);
      StepBalances(s, cfg, run[0], b);
      StorageBalances(Next(s, cfg, run[0]), cfg, run[1..], Booked(b, s, cfg, run[0]));
    }
  }

  /** Every deletion succeeds, no worker dies with outputs stored, and no row is deleted. */
  predicate Tidy(step: Step) {
    match step
    case ClaimStep(_, _, deleted) => deleted
    case RejectStep(_, deleted) => deleted
    case ScanStep(_, _, _, deleted) => deleted
    case DropStep(id, stored) => stored !! Outputs(id)
    case PurgeStep(_, _, _, failAt) => failAt.None?
    case DeleteStep(_) => false
    case _ => true
  }

  lemma {:induction false} TidyBooks(s: Site, cfg: Config, run: seq<Step>)
    requires AllowedRun(s, cfg, run) && forall i :: 0 <= i < |run| ==> Tidy(run[i])
    ensures BooksAfter(s, cfg, run, Books({}, {})) == Books({}, {})
    decreases |run|
  {
    if run != [] {
      assert forall i :: 0 <= i < |run[1..]| ==> run[1..][i] == run[i + 1];
      assert Tidy(run[0]) && Booked(Books({}, {}), s, cfg, run[0]) == Books({}, {});
      TidyBooks(Next(s, cfg, run[0]), cfg, run[1..]);
    }
  }

  /** When nothing fails, the storage holds exactly what rows name. */
  lemma TidyStorage(cfg: Config, run: seq<Step>, k: Key)
    requires AllowedRun(EMPTY, cfg, run) && forall i :: 0 <= i < |run| ==> Tidy(run[i])
    ensures var t := After(EMPTY, cfg, run); k in t.storage <==> Held(t, k)
  {
    assert Balanced(EMPTY, Books({}, {}));
    StorageBalances(EMPTY, cfg, run, Books({}, {}));
    TidyBooks(EMPTY, cfg, run);
  }
}
