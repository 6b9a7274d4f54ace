/** Deleting a media row queues the removal of its bytes in the same transaction; a worker removes
    them later, at least once. */
module Outbox {
  import opened Options
  import opened TaskQueue

  type RowId = nat
  type Key = string

  const CLEANUP := "erasure.blob_cleanup"

  /** The characters a strip removes. */
  predicate IsSpace(c: char) {
    || '\t' <= c <= '\r' || '\U{1c}' <= c <= ' ' || c == '\U{85}' || c == '\U{a0}' || c == '\U{1680}'
    || '\U{2000}' <= c <= '\U{200a}' || c == '\U{2028}' || c == '\U{2029}' || c == '\U{202f}' || c == '\U{205f}'
       || c == '\U{3000}'
  }

  predicate Blank(s: string) {
    forall i :: 0 <= i < |s| ==> IsSpace(s[i])
  }

  /** The texts among `items` that are not blank. */
  function Texts(items: seq<Json>): seq<Key> {
    if items == [] then []
    else (if items[0].Text? && !Blank(items[0].text) then [items[0].text] else []) + Texts(items[1..])
  }

  /** The keys a payload names, at most `limit` entries of it; None when it is not a list. */
  function StrList(payload: Json, limit: nat): Option<seq<Key>> {
    match payload
    case Null => Some([])
    case Scalar(truthy) => if truthy then None else Some([])
    case Text(text) => Some(if limit > 0 then Texts([payload]) else [])
    case Items(items) => Some(Texts(if |items| > limit then items[..limit] else items))
  }

  /** An entry names a key when it is a text with some character that is no space. */
  predicate NamesKey(entry: Json, key: Key) {
    entry == Text(key) && exists i :: 0 <= i < |key| && !IsSpace(key[i])
  }

  lemma {:induction false} TextsAreNamed(items: seq<Json>, key: Key)
    ensures key in Texts(items) <==> exists i :: 0 <= i < |items| && NamesKey(items[i], key)
    ensures |Texts(items)| <= |items|
  {
    if items != [] {
      TextsAreNamed(items[1..], key);
      if i :| 0 <= i < |items[1..]| && NamesKey(items[1..][i], key) {
        assert NamesKey(items[i + 1], key);
      }
      assert key in Texts(items) <==> NamesKey(items[0], key) || key in Texts(items[1..]);
      if i :| 0 <= i < |items| && NamesKey(items[i], key) {
        assert i > 0 ==> NamesKey(items[1..][i - 1], key);
      }
    }
  }

  /** What a payload names: only a scalar that is not falsy is refused; null and falsy scalars name nothing,
      a text stands for itself, a list for those among its first `limit` entries that name a key. */
  lemma PayloadNames(payload: Json, limit: nat, key: Key)
    ensures StrList(payload, limit).None? <==> payload == Scalar(true)
    ensures StrList(payload, limit).Some? ==>
              (key in StrList(payload, limit).value <==>
                 match payload
                 case Text(_) => limit >= 1 && NamesKey(payload, key)
                 case Items(items) => exists i :: 0 <= i < |items| && i < limit && NamesKey(items[i], key)
                 case _ => false)
    ensures StrList(payload, limit).Some? ==> |StrList(payload, limit).value| <= limit
  {
    match payload
    case Text(_) => TextsAreNamed([payload], key);
    case Items(items) =>
      TextsAreNamed(if |items| > limit then items[..limit] else items, key);
    case _ =>
  }

  datatype Settings = Settings(queue: Config, maxAttempts: nat, maxKeys: nat)

  /** `released` are the keys rows held when their deletion committed. */
  datatype Site = Site(rows: map<RowId, seq<Key>>, storage: set<Key>, queue: Queue, released: set<Key>)

  const EMPTY := Site(map[], {}, Queue(map[], 0), {})

  function CleanupOf(key: Key, cfg: Settings, now: int): Event {
    Enqueue(CLEANUP, Items([Text(key)]), "blob:" + key, cfg.maxAttempts, now)
  }

  /** One cleanup task per non-empty field, in order. */
  function EnqueueAll(q: Queue, cfg: Settings, fields: seq<Key>, now: int): Queue {
    if fields == [] then q
    else
      var before := EnqueueAll(q, cfg, fields[..|fields| - 1], now);
      var key := fields[|fields| - 1];
      if key == "" then before else Step(before, cfg.queue, CleanupOf(key, cfg, now))
  }

  function KeysOf(fields: seq<Key>): set<Key> {
    set k | k in fields && k != ""
  }

  /** How one execution of a cleanup task ends, after deleting its first `deleted` keys: it commits as
      a success or a failure, or the process dies and nothing is recorded. */
  datatype Ending = Finishes | Fails(error: string) | Dies

  datatype Act =
    | Upload(row: RowId, fields: seq<Key>)
    | Delete(row: RowId, now: int)
    | Execute(task: TaskId, now: int, deleted: nat, ending: Ending)
    | Other(event: Event)

  function Named(t: Task, cfg: Settings): seq<Key> {
    StrList(t.payload, cfg.maxKeys).GetOr([])
  }

  /** Rows own their keys: an upload uses keys that no row holds or ever held. */
  predicate May(s: Site, cfg: Settings, e: Act) {
    match e
    case Upload(row, fields) =>
      && row !in s.rows
      && forall k :: k in KeysOf(fields) ==> k !in s.released && forall r :: r in s.rows ==> k !in s.rows[r]
    case Delete(row, now) => row in s.rows
    case Execute(task, now, deleted, ending) =>
      && task in s.queue.tasks && s.queue.tasks[task].Due(now) && s.queue.tasks[task].kind == CLEANUP
      && deleted <= |Named(s.queue.tasks[task], cfg)|
      && (ending.Finishes? ==> deleted == |Named(s.queue.tasks[task], cfg)|)
    case Other(event) =>
      && Allowed(s.queue.tasks, event)
      && (event.Enqueue? ==> event.kind != CLEANUP)
      && (event.Run? ==> s.queue.tasks[event.id].kind != CLEANUP)
  }

  function Recorded(q: Queue, cfg: Settings, task: TaskId, now: int, ending: Ending): Queue {
    match ending
    case Finishes => Step(q, cfg.queue, Run(task, now, Succeeds))
    case Fails(error) => Step(q, cfg.queue, Run(task, now, Raises(error)))
    case Dies => q
  }

  function Do(s: Site, cfg: Settings, e: Act): Site
    requires May(s, cfg, e)
  {
    match e
    case Upload(row, fields) => s.(rows := s.rows[row := fields], storage := s.storage + KeysOf(fields))
    case Delete(row, now) =>
      Site(s.rows - {row}, s.storage, EnqueueAll(s.queue, cfg, s.rows[row], now), s.released + KeysOf(s.rows[row]))
    case Execute(task, now, deleted, ending) =>
      s.(storage := s.storage - (set k | k in Named(s.queue.tasks[task], cfg)[..deleted]),
         queue := Recorded(s.queue, cfg, task, now, ending))
    case Other(event) => s.(queue := Step(s.queue, cfg.queue, event))
  }

  // ----- What always holds -----

  /** A cleanup task stands for exactly one released key. */
  predicate Shaped(t: Task, released: set<Key>) {
    t.kind == CLEANUP ==>
      && t.payload.Items? && |t.payload.items| == 1 && t.payload.items[0].Text?
      && t.dedup == "blob:" + t.payload.items[0].text && t.payload.items[0].text in released
  }

  predicate StandsFor(t: Task, k: Key) {
    t.kind == CLEANUP && t.status != DONE && t.payload == Items([Text(k)])
  }

  /** A pending or failed cleanup task names the key. */
  ghost predicate Covered(q: Queue, k: Key) {
    exists i :: i in q.tasks && StandsFor(q.tasks[i], k)
  }

  ghost predicate QueueOk(q: Queue, released: set<Key>) {
    && (forall i :: i in q.tasks ==> i < q.next)
    && (forall i :: i in q.tasks ==> Shaped(q.tasks[i], released))
  }

  ghost predicate Sound(s: Site, cfg: Settings) {
    && QueueOk(s.queue, s.released)
    && (forall r, k :: r in s.rows && k in s.rows[r] && k != "" ==> k in s.storage && k !in s.released)
    && (forall r, p, k :: r in s.rows && p in s.rows && k in s.rows[r] && k in s.rows[p] && k != "" ==> r == p)
    && (forall k :: k in s.released && Cleanable(k, cfg) && k in s.storage ==> Covered(s.queue, k))
  }

  /** Whether the cleanup handler can act on a key at all. */
  predicate Cleanable(k: Key, cfg: Settings) {
    !Blank(k) && cfg.maxKeys >= 1
  }

  lemma NamesItsKey(t: Task, k: Key, cfg: Settings)
    requires t.payload == Items([Text(k)])
    ensures Named(t, cfg) == if Cleanable(k, cfg) then [k] else []
  {
    var items := [Text(k)];
    assert t.payload.items == items && items[1..] == [] && items[..0] == [];
    assert Texts(items) == if Blank(k) then [] else [k];
  }

  /** Queueing a cleanup covers its key and loses no other. */
  lemma EnqueueCovers(q: Queue, cfg: Settings, key: Key, now: int, released: set<Key>)
    requires QueueOk(q, released) && key in released
    ensures var t := Step(q, cfg.queue, CleanupOf(key, cfg, now));
            && QueueOk(t, released) && Covered(t, key)
            && forall k :: Covered(q, k) ==> Covered(t, k)
  {
    var e := CleanupOf(key, cfg, now);
    var t := Step(q, cfg.queue, e);
    assert forall i :: i in q.tasks ==> i in t.tasks && t.tasks[i] == q.tasks[i];
    if Deduplicated(q.tasks, CLEANUP, "blob:" + key) {
      var i :| i in q.tasks && SameSlot(q.tasks[i], CLEANUP, "blob:" + key);
      var named := q.tasks[i].payload.items[0].text;
      assert ("blob:" + named)[5..] == named && ("blob:" + key)[5..] == key;
      assert q.tasks[i].payload.items == [Text(named)];
      assert StandsFor(t.tasks[i], key);
    } else {
      assert StandsFor(t.tasks[q.next], key);
    }
  }

  lemma {:induction false} EnqueueAllCovers(q: Queue, cfg: Settings, fields: seq<Key>, now: int, released: set<Key>)
    requires QueueOk(q, released) && KeysOf(fields) <= released
    ensures var t := EnqueueAll(q, cfg, fields, now);
            && QueueOk(t, released)
            && (forall k :: k in KeysOf(fields) ==> Covered(t, k))
            && (forall k :: Covered(q, k) ==> Covered(t, k))
  {
    if fields != [] {
      var init, key := fields[..|fields| - 1], fields[|fields| - 1];
      assert fields == init + [key];
      EnqueueAllCovers(q, cfg, init, now, released);
      if key != "" {
        EnqueueCovers(EnqueueAll(q, cfg, init, now), cfg, key, now, released);
      }
    }
  }

  lemma RunCovers(q: Queue, cfg: Config, task: TaskId, now: int, outcome: Outcome, released: set<Key>, k: Key)
    requires QueueOk(q, released) && task in q.tasks && Covered(q, k)
    requires outcome.Raises? || q.tasks[task].kind != CLEANUP || q.tasks[task].payload != Items([Text(k)])
    ensures Covered(Step(q, cfg, Run(task, now, outcome)), k)
  {
    var i :| i in q.tasks && StandsFor(q.tasks[i], k);
    var t := Step(q, cfg, Run(task, now, outcome));
    assert StandsFor(t.tasks[i], k);
  }

  lemma DeleteKeeps(s: Site, cfg: Settings, row: RowId, now: int)
    requires Sound(s, cfg) && row in s.rows
    ensures Sound(Do(s, cfg, Delete(row, now)), cfg)
  {
    var released := s.released + KeysOf(s.rows[row]);
    EnqueueAllCovers(s.queue, cfg, s.rows[row], now, released);
  }

  lemma ExecuteKeeps(s: Site, cfg: Settings, task: TaskId, now: int, deleted: nat, ending: Ending)
    requires Sound(s, cfg) && May(s, cfg, Execute(task, now, deleted, ending))
    ensures Sound(Do(s, cfg, Execute(task, now, deleted, ending)), cfg)
  {
    var t := Do(s, cfg, Execute(task, now, deleted, ending));
    var key := s.queue.tasks[task].payload.items[0].text;
    assert s.queue.tasks[task].payload.items == [Text(key)];
    NamesItsKey(s.queue.tasks[task], key, cfg);
    forall k | k in t.released && Cleanable(k, cfg) && k in t.storage
      ensures Covered(t.queue, k)
    {
      if ending.Finishes? {
        assert k != key;
        RunCovers(s.queue, cfg.queue, task, now, Succeeds, s.released, k);
      } else if ending.Fails? {
        RunCovers(s.queue, cfg.queue, task, now, Raises(ending.error), s.released, k);
      }
    }
  }

  lemma OtherKeeps(s: Site, cfg: Settings, event: Event)
    requires Sound(s, cfg) && May(s, cfg, Other(event))
    ensures Sound(Do(s, cfg, Other(event)), cfg)
  {
    var t := Do(s, cfg, Other(event));
    forall k | k in t.released && Cleanable(k, cfg) && k in t.storage
      ensures Covered(t.queue, k)
    {
      if event.Run? {
        RunCovers(s.queue, cfg.queue, event.id, event.now, event.outcome, s.released, k);
      } else {
        var i :| i in s.queue.tasks && StandsFor(s.queue.tasks[i], k);
        assert StandsFor(t.queue.tasks[i], k);
      }
    }
  }

  lemma UploadKeeps(s: Site, cfg: Settings, row: RowId, fields: seq<Key>)
    requires Sound(s, cfg) && May(s, cfg, Upload(row, fields))
    ensures Sound(Do(s, cfg, Upload(row, fields)), cfg)
  {
    assert forall k :: k in fields && k != "" ==> k in KeysOf(fields);
  }

  lemma ActKeepsSound(s: Site, cfg: Settings, e: Act)
    requires Sound(s, cfg) && May(s, cfg, e)
    ensures Sound(Do(s, cfg, e), cfg)
  {
    match e
    case Upload(row, fields) => UploadKeeps(s, cfg, row, fields);
    case Delete(row, now) => DeleteKeeps(s, cfg, row, now);
    case Execute(task, now, deleted, ending) => ExecuteKeeps(s, cfg, task, now, deleted, ending);
    case Other(event) => OtherKeeps(s, cfg, event);
  }

  predicate MayRun(s: Site, cfg: Settings, run: seq<Act>)
    decreases |run|
  {
    run == [] || (May(s, cfg, run[0]) && MayRun(Do(s, cfg, run[0]), cfg, run[1..]))
  }

  function DoAll(s: Site, cfg: Settings, run: seq<Act>): Site
    requires MayRun(s, cfg, run)
    decreases |run|
  {
    if run == [] then s else DoAll(Do(s, cfg, run[0]), cfg, run[1..])
  }

  lemma {:induction false} RunKeepsSound(s: Site, cfg: Settings, run: seq<Act>)
    requires Sound(s, cfg) && MayRun(s, cfg, run)
    ensures Sound(DoAll(s, cfg, run), cfg)
    decreases |run|
  {
    if run != [] {
      ActKeepsSound(s, cfg, run[0]);
      RunKeepsSound(Do(s, cfg, run[0]), cfg, run[1..]);
    }
  }

  /** After any run, crashes included, no cleanup task names a surviving row's key, and none has deleted it. */
  lemma SurvivorsKeepTheirBytes(cfg: Settings, run: seq<Act>, row: RowId, key: Key)
    requires MayRun(EMPTY, cfg, run)
    requires var s := DoAll(EMPTY, cfg, run); row in s.rows && key in s.rows[row] && key != ""
    ensures var s := DoAll(EMPTY, cfg, run); key in s.storage && !Covered(s.queue, key)
  {
    RunKeepsSound(EMPTY, cfg, run);
    var q := DoAll(EMPTY, cfg, run).queue;
    assert forall i :: i in q.tasks && StandsFor(q.tasks[i], key) ==>
      Shaped(q.tasks[i], DoAll(EMPTY, cfg, run).released);
  }

  /** The promise about a key: once the deletion of its row committed, it is gone from storage or a
      pending or failed cleanup task names it. */
  ghost predicate KeptTrackOf(s: Site, key: Key) {
    key in s.released && key in s.storage ==> Covered(s.queue, key)
  }

  /** The promise holds over all runs exactly for the keys the handler can act on. With a limit of no
      keys, and for a key of blanks, the task succeeds with nothing deleted. */
  lemma NothingIsForgotten(cfg: Settings, key: Key)
    requires key != ""
    ensures Cleanable(key, cfg) <==> forall run :: MayRun(EMPTY, cfg, run) ==> KeptTrackOf(DoAll(EMPTY, cfg, run), key)
  {
    if Cleanable(key, cfg) {
      forall run | MayRun(EMPTY, cfg, run)
        ensures KeptTrackOf(DoAll(EMPTY, cfg, run), key)
      {
        RunKeepsSound(EMPTY, cfg, run);
      }
    } else {
      ForgottenKey(cfg, key);
    }
  }

  lemma EnqueueOne(q: Queue, cfg: Settings, key: Key, now: int)
    requires key != ""
    ensures EnqueueAll(q, cfg, [key], now) == Step(q, cfg.queue, CleanupOf(key, cfg, now))
  {
    assert [key][..|[key]| - 1] == [];
    assert EnqueueAll(q, cfg, [], now) == q;
  }

  /** Uploaded, deleted, and its cleanup executed, with nothing deleted. */
  lemma ForgottenKey(cfg: Settings, key: Key)
    requires key != "" && !Cleanable(key, cfg)
    ensures var run := [Upload(0, [key]), Delete(0, 0), Execute(0, 0, 0, Finishes)];
            MayRun(EMPTY, cfg, run) && !KeptTrackOf(DoAll(EMPTY, cfg, run), key)
  {
    var run := [Upload(0, [key]), Delete(0, 0), Execute(0, 0, 0, Finishes)];
    var last := [Execute(0, 0, 0, Finishes)];
    assert run[1..] == [Delete(0, 0)] + last && run[1..][1..] == last && last[1..] == [];
    var a := Do(EMPTY, cfg, run[0]);
    assert KeysOf([key]) == {key};
    assert a.rows[0] == [key];
    var b := Do(a, cfg, run[1]);
    EnqueueOne(a.queue, cfg, key, 0);
    assert b.queue.tasks[0] == Fresh(CLEANUP, Items([Text(key)]), "blob:" + key, cfg.maxAttempts, 0);
    NamesItsKey(b.queue.tasks[0], key, cfg);
    assert May(b, cfg, run[2]);
    var c := Do(b, cfg, run[2]);
    assert MayRun(c, cfg, []) && MayRun(b, cfg, last) && MayRun(a, cfg, run[1..]);
    assert DoAll(b, cfg, last) == c && DoAll(a, cfg, run[1..]) == c && DoAll(EMPTY, cfg, run) == c;
    assert c.queue.tasks.Keys == {0} && c.queue.tasks[0].status == DONE;
    assert key in c.storage && key in c.released;
  }

  /** However often a cleanup task died or failed half way, its final success leaves the storage one
      clean execution would have left. */
  lemma {:induction false} RepeatedIsOnce(s: Site, cfg: Settings, task: TaskId, run: seq<Act>)
    requires MayRun(s, cfg, run) && run != []
    requires forall i :: 0 <= i < |run| ==> run[i].Execute? && run[i].task == task
    requires run[|run| - 1].ending.Finishes?
    ensures DoAll(s, cfg, run).storage == s.storage - (set k | k in Named(s.queue.tasks[task], cfg))
    decreases |run|
  {
    var keys := Named(s.queue.tasks[task], cfg);
    var e := run[0];
    var t := Do(s, cfg, e);
    assert keys[..|keys|] == keys;
    assert e.deleted <= |keys| && forall k :: k in keys[..e.deleted] ==> k in keys;
    if |run| > 1 {
      assert forall i :: 0 <= i < |run[1..]| ==> run[1..][i] == run[i + 1];
      RepeatedIsOnce(t, cfg, task, run[1..]);
      assert Named(t.queue.tasks[task], cfg) == keys;
    }
  }

  // ----- The receivers and the handler -----

  class MediaStore {
    const cfg: Settings
    const worker: Worker
    var rows: map<RowId, seq<Key>>
    var storage: set<Key>
    ghost var released: set<Key>

    constructor (cfg: Settings, worker: Worker)
      requires worker.cfg == cfg.queue && worker.defaultMaxAttempts == cfg.maxAttempts && TaskQueue.Inv(worker.State())
      ensures Wired() && this.worker == worker && State() == EMPTY.(queue := worker.State())
    {
      this.cfg, this.worker, rows, storage, released := cfg, worker, map[], {}, {};
    }

    ghost function State(): Site
      reads this, worker
    {
      Site(rows, storage, worker.State(), released)
    }

    ghost predicate Wired()
      reads this, worker
    {
      worker.cfg == cfg.queue && worker.defaultMaxAttempts == cfg.maxAttempts && TaskQueue.Inv(worker.State())
    }

    method EnqueueAllBlobCleanups(fields: seq<Key>, now: int, registered: set<string>) returns (ok: bool)
      requires Wired()
      modifies worker
      ensures Wired()
      ensures ok ==> worker.State() == EnqueueAll(old(worker.State()), cfg, fields, now)
      ensures ok <==> CLEANUP in registered || KeysOf(fields) == {}
    {
      for i := 0 to |fields|
        invariant Wired() && worker.State() == EnqueueAll(old(worker.State()), cfg, fields[..i], now)
        invariant CLEANUP in registered || KeysOf(fields[..i]) == {}
      {
        assert fields[..i + 1] == fields[..i] + [fields[i]];
        assert fields[..i + 1][..i] == fields[..i];
        if fields[i] != "" {
          var r := worker.Enqueue(registered, CLEANUP, Items([Text(fields[i])]), now, None, "blob:" + fields[i]);
          if r.None? {
            assert fields[i] in KeysOf(fields);
            return false;
          }
        }
      }
      assert fields[..|fields|] == fields;
      ok := true;
    }

    /** Delete a row in one transaction: the row and the queued cleanups commit together or not at all. */
    method DeleteRow(row: RowId, now: int, registered: set<string>, commits: bool) returns (ok: bool)
      requires Wired() && row in rows
      modifies this, worker
      ensures Wired()
      ensures ok <==> commits && (CLEANUP in registered || KeysOf(old(rows[row])) == {})
      ensures State() == if ok then Do(old(State()), cfg, Delete(row, now)) else old(State())
    {
      var tasks, next := worker.tasks, worker.next;
      ok := EnqueueAllBlobCleanups(rows[row], now, registered);
      if !ok || !commits {
        worker.tasks, worker.next := tasks, next;
        return false;
      }
      released := released + KeysOf(rows[row]);
      rows := rows - {row};
    }

    /** The handler; storage failing at the n-th deletion raises after n deletions. */
    method ErasureBlobCleanup(payload: Json, failAt: Option<nat>) returns (outcome: Outcome, ghost deleted: nat)
      modifies `storage
      ensures var keys := StrList(payload, cfg.maxKeys).GetOr([]);
              && deleted <= |keys| && storage == old(storage) - (set k | k in keys[..deleted])
              && (outcome.Succeeds? ==> deleted == |keys|)
              && (outcome.Succeeds? <==>
                 StrList(payload, cfg.maxKeys).Some? && (failAt.None? || failAt.value >= |keys|))
    {
      deleted := 0;
      var list := StrList(payload, cfg.maxKeys);
      if list.None? {
        outcome := Raises("ValueError: blob_keys must be a list");
        return;
      }
      var keys := list.value;
      for i := 0 to |keys|
        invariant deleted == i && storage == old(storage) - (set k | k in keys[..i])
        invariant failAt.Some? ==> i <= failAt.value
      {
        if failAt == Some(i) {
          outcome := Raises("storage");
          return;
        }
        assert keys[..i + 1] == keys[..i] + [keys[i]];
        storage := storage - {keys[i]};
        deleted := i + 1;
      }
      outcome := Succeeds;
    }
  }
}
