/** The durable task queue: deduplicated enqueue, claim, bounded retries with backoff, drain. */
module TaskQueue {
  import opened Options

  type TaskId = nat

  /** The one value a task carries. */
  datatype Json = Null | Scalar(truthy: bool) | Text(text: string) | Items(items: seq<Json>)

  datatype Status = PENDING | DONE | FAILED

  datatype Outcome = Succeeds | Raises(error: string)

  datatype Task = Task(kind: string, payload: Json, dedup: string, maxAttempts: nat,
                       status: Status, attempts: nat, availableAt: int,
                       startedAt: Option<int>, finishedAt: Option<int>, lastError: string)
  {
    predicate Due(now: int) {
      status == PENDING && availableAt <= now
    }

    /** The attempt at which a task that keeps failing is given up; even a limit of zero allows one. */
    function LastAttempt(): nat {
      if maxAttempts > 1 then maxAttempts else 1
    }
  }

  datatype Config = Config(base: int, cap: int)

  function Pow2(n: nat): nat {
    if n == 0 then 1 else 2 * Pow2(n - 1)
  }

  function Min(a: int, b: int): int {
    if a <= b then a else b
  }

  function Backoff(cfg: Config, attempts: nat): int {
    Min(cfg.base * Pow2(if attempts > 1 then attempts - 1 else 0), cfg.cap)
  }

  lemma Doubled(base: int, p: nat)
    ensures base * (2 * p) == 2 * (base * p)
  {
  }

  lemma {:induction false} TimesPow(base: int, n: nat)
    requires base >= 0
    ensures base * Pow2(n) >= 0
  {
    assert Pow2(n) >= 0;
  }

  /** The first pause is the base, each later one twice the one before, all up to the cap. */
  lemma BackoffDoubles(cfg: Config, attempts: nat)
    requires 1 <= attempts && 0 <= cfg.base && 0 <= cfg.cap
    ensures Backoff(cfg, 1) == if cfg.base < cfg.cap then cfg.base else cfg.cap
    ensures Backoff(cfg, attempts + 1) == Min(2 * Backoff(cfg, attempts), cfg.cap)
    ensures 0 <= Backoff(cfg, attempts) <= Backoff(cfg, attempts + 1) <= cfg.cap
  {
    Doubled(cfg.base, Pow2(attempts - 1));
    TimesPow(cfg.base, attempts - 1);
  }

  type Tasks = map<TaskId, Task>

  predicate SameSlot(t: Task, kind: string, dedup: string) {
    t.status == PENDING && t.kind == kind && t.dedup == dedup
  }

  function Fresh(kind: string, payload: Json, dedup: string, maxAttempts: nat, at: int): Task {
    Task(kind, payload, dedup, maxAttempts, PENDING, 0, at, None, None, "")
  }

  /** One run of a task's handler, and what is recorded about it. */
  function Ran(t: Task, cfg: Config, now: int, outcome: Outcome): Task {
    var begun := t.(attempts := t.attempts + 1, startedAt := if t.startedAt.None? then Some(now) else t.startedAt);
    match outcome
    case Succeeds => begun.(status := DONE, finishedAt := Some(now), lastError := "")
    case Raises(error) =>
      if begun.attempts >= begun.maxAttempts then begun.(status := FAILED, finishedAt := Some(now), lastError := error)
      else begun.(availableAt := now + Backoff(cfg, begun.attempts), lastError := error)
  }

  /** The first due task by (availableAt, id) among those no other worker has locked. */
  predicate IsNextDue(tasks: Tasks, id: TaskId, now: int, locked: set<TaskId>) {
    && id in tasks && tasks[id].Due(now) && id !in locked
    && forall i :: i in tasks && i !in locked && tasks[i].Due(now) ==>
         tasks[id].availableAt < tasks[i].availableAt || (tasks[id].availableAt == tasks[i].availableAt && id <= i)
  }

  /** One committed step. A crash before the commit is no step at all. */
  datatype Event =
    | Enqueue(kind: string, payload: Json, dedup: string, maxAttempts: nat, at: int)
    | Run(id: TaskId, now: int, outcome: Outcome)

  predicate Allowed(tasks: Tasks, e: Event) {
    e.Run? ==> e.id in tasks && tasks[e.id].Due(e.now)
  }

  predicate Deduplicated(tasks: Tasks, kind: string, dedup: string) {
    dedup != "" && exists i :: i in tasks && SameSlot(tasks[i], kind, dedup)
  }

  /** `next` is the first unused id; ids are handed out in order. */
  datatype Queue = Queue(tasks: Tasks, next: TaskId)

  function Step(q: Queue, cfg: Config, e: Event): Queue {
    match e
    case Enqueue(kind, payload, dedup, maxAttempts, at) =>
      if Deduplicated(q.tasks, kind, dedup) then q
      else Queue(q.tasks[q.next := Fresh(kind, payload, dedup, maxAttempts, at)], q.next + 1)
    case Run(id, now, outcome) =>
      if id in q.tasks then q.(tasks := q.tasks[id := Ran(q.tasks[id], cfg, now, outcome)]) else q
  }

  /** A pending task of this kind already stands for this non-blank key. */
  ghost predicate StoodFor(tasks: Tasks, kind: string, dedup: string) {
    && dedup != ""
    && exists i :: i in tasks && tasks[i].status == PENDING && tasks[i].kind == kind && tasks[i].dedup == dedup
  }

  /** Queueing adds one pending task, due at the given time and not attempted yet, unless one stands for it
      already; no other task changes. */
  lemma EnqueueIsExact(q: Queue, cfg: Config, kind: string, payload: Json, dedup: string, maxAttempts: nat, at: int)
    requires forall i :: i in q.tasks ==> i < q.next
    ensures var t := Step(q, cfg, Enqueue(kind, payload, dedup, maxAttempts, at));
            if StoodFor(q.tasks, kind, dedup) then t == q
            else
              && t.next == q.next + 1 && t.tasks.Keys == q.tasks.Keys + {q.next}
              && (forall i :: i in q.tasks ==> t.tasks[i] == q.tasks[i])
              && var task := t.tasks[q.next];
                 && task.kind == kind && task.payload == payload
                 && task.dedup == dedup && task.maxAttempts == maxAttempts
                 && task.status == PENDING && task.attempts == 0 && task.lastError == ""
                 && task.startedAt.None? && task.finishedAt.None?
                 && forall now :: task.Due(now) <==> at <= now
  {
    assert Deduplicated(q.tasks, kind, dedup) <==> StoodFor(q.tasks, kind, dedup);
  }

  ghost predicate OnePerSlot(tasks: Tasks) {
    forall i, j ::
      (i in tasks && j in tasks && tasks[i].dedup != "" && tasks[j].status == PENDING
       && SameSlot(tasks[i], tasks[j].kind, tasks[j].dedup)) ==> i == j
  }

  ghost predicate TaskOk(t: Task) {
    && t.attempts <= t.LastAttempt()
    && (t.status == PENDING ==> t.attempts < t.LastAttempt() && t.finishedAt.None?)
    && (t.status == FAILED ==> t.attempts == t.LastAttempt())
    && (t.status != PENDING ==> t.attempts >= 1 && t.finishedAt.Some?)
    && (t.startedAt.Some? <==> t.attempts > 0)
  }

  ghost predicate Inv(q: Queue) {
    && (forall i :: i in q.tasks ==> i < q.next)
    && (forall i :: i in q.tasks ==> TaskOk(q.tasks[i]))
    && OnePerSlot(q.tasks)
  }

  lemma StepKeepsInv(q: Queue, cfg: Config, e: Event)
    requires Inv(q) && Allowed(q.tasks, e)
    ensures Inv(Step(q, cfg, e))
  {
    if e.Run? {
      assert TaskOk(Ran(q.tasks[e.id], cfg, e.now, e.outcome));
    }
  }

  predicate AllowedRun(q: Queue, cfg: Config, run: seq<Event>)
    decreases |run|
  {
    run == [] || (Allowed(q.tasks, run[0]) && AllowedRun(Step(q, cfg, run[0]), cfg, run[1..]))
  }

  function After(q: Queue, cfg: Config, run: seq<Event>): Queue
    decreases |run|
  {
    if run == [] then q else After(Step(q, cfg, run[0]), cfg, run[1..])
  }

  /** Over every interleaving: at most one pending task per kind and non-blank key, never more
      attempts than allowed, given up only at the last attempt. */
  lemma {:induction false} RunKeepsInv(q: Queue, cfg: Config, run: seq<Event>)
    requires Inv(q) && AllowedRun(q, cfg, run)
    ensures Inv(After(q, cfg, run))
    decreases |run|
  {
    if run != [] {
      StepKeepsInv(q, cfg, run[0]);
      RunKeepsInv(Step(q, cfg, run[0]), cfg, run[1..]);
    }
  }

  /** The outcomes of one task's handler over a run, in order. */
  function Outcomes(run: seq<Event>, id: TaskId): seq<Outcome> {
    if run == [] then []
    else (if run[0].Run? && run[0].id == id then [run[0].outcome] else []) + Outcomes(run[1..], id)
  }

  lemma StepElsewhere(q: Queue, cfg: Config, e: Event, id: TaskId)
    requires Inv(q) && Allowed(q.tasks, e) && id in q.tasks && !(e.Run? && e.id == id)
    ensures id in Step(q, cfg, e).tasks && Step(q, cfg, e).tasks[id] == q.tasks[id]
  {
  }

  /** A finished task is never run again and never changes. */
  lemma {:induction false} FinishedIsFinal(q: Queue, cfg: Config, run: seq<Event>, id: TaskId)
    requires Inv(q) && AllowedRun(q, cfg, run) && id in q.tasks && q.tasks[id].status != PENDING
    ensures id in After(q, cfg, run).tasks && After(q, cfg, run).tasks[id] == q.tasks[id]
    ensures Outcomes(run, id) == []
    decreases |run|
  {
    if run != [] {
      StepElsewhere(q, cfg, run[0], id);
      StepKeepsInv(q, cfg, run[0]);
      FinishedIsFinal(Step(q, cfg, run[0]), cfg, run[1..], id);
    }
  }

  /** What the outcomes `outs` say about a pending task that went from `a` to `b`: every one is one
      attempt, only the last can be a success, it is done exactly when that happened, and it has
      failed exactly when they all raised and the attempts are used up. */
  ghost predicate Explains(outs: seq<Outcome>, a: Task, b: Task) {
    && b.attempts == a.attempts + |outs| <= a.LastAttempt()
    && b.maxAttempts == a.maxAttempts && b.kind == a.kind && b.payload == a.payload && b.dedup == a.dedup
    && (forall i :: 0 <= i < |outs| - 1 ==> outs[i].Raises?)
    && (b.status == DONE <==> outs != [] && outs[|outs| - 1].Succeeds?)
    && (b.status == FAILED <==> outs != [] && outs[|outs| - 1].Raises? && b.attempts == a.LastAttempt())
  }

  lemma ExplainsMore(cfg: Config, now: int, o: Outcome, outs: seq<Outcome>, a: Task, b: Task)
    requires TaskOk(a) && a.status == PENDING
    requires var m := Ran(a, cfg, now, o); if m.status == PENDING then Explains(outs, m, b) else outs == [] && b == m
    ensures Explains([o] + outs, a, b)
  {
  }

  /** The whole history of a pending task, over any run. */
  lemma {:induction false} History(q: Queue, cfg: Config, run: seq<Event>, id: TaskId)
    requires Inv(q) && AllowedRun(q, cfg, run) && id in q.tasks && q.tasks[id].status == PENDING
    ensures id in After(q, cfg, run).tasks && Explains(Outcomes(run, id), q.tasks[id], After(q, cfg, run).tasks[id])
    decreases |run|
  {
    if run != [] {
      var e, next := run[0], Step(q, cfg, run[0]);
      StepKeepsInv(q, cfg, e);
      if e.Run? && e.id == id {
        if next.tasks[id].status == PENDING {
          History(next, cfg, run[1..], id);
        } else {
          FinishedIsFinal(next, cfg, run[1..], id);
        }
        ExplainsMore(cfg, e.now, e.outcome, Outcomes(run[1..], id), q.tasks[id], After(next, cfg, run[1..]).tasks[id]);
      } else {
        StepElsewhere(q, cfg, e, id);
        History(next, cfg, run[1..], id);
      }
    }
  }

  /** The clock readings at which one task ran, in order. */
  function Times(run: seq<Event>, id: TaskId): seq<int> {
    if run == [] then [] else (if run[0].Run? && run[0].id == id then [run[0].now] else []) + Times(run[1..], id)
  }

  /** What attempts at `times` with these outcomes leave of a pending task: it started at the first and
      finished at the last; a failure leaves its error and, if there is a next attempt, makes the task due
      one backoff later. */
  ghost predicate Dated(cfg: Config, times: seq<int>, outs: seq<Outcome>, a: Task, b: Task) {
    && |times| == |outs|
    && (outs == [] ==> b == a)
    && (outs != [] ==>
          var last, at := outs[|outs| - 1], times[|times| - 1];
          && b.startedAt == (if a.startedAt.Some? then a.startedAt else Some(times[0]))
          && b.finishedAt == (if b.status == PENDING then None else Some(at))
          && b.lastError == (if last.Raises? then last.error else "")
          && (b.status == PENDING ==> b.availableAt == at + Backoff(cfg, a.attempts + |outs|)))
  }

  lemma DatedMore(cfg: Config, now: int, o: Outcome, times: seq<int>, outs: seq<Outcome>, a: Task, b: Task)
    requires TaskOk(a) && a.status == PENDING && |times| == |outs|
    requires var m := Ran(a, cfg, now, o);
             if m.status == PENDING then
               Dated(cfg, times, outs, m, b) && (outs != [] ==> b.attempts == m.attempts + |outs|)
             else outs == [] && b == m
    ensures Dated(cfg, [now] + times, [o] + outs, a, b)
  {
  }

  lemma OwnAttempt(q: Queue, cfg: Config, run: seq<Event>, id: TaskId)
    requires Inv(q) && AllowedRun(q, cfg, run) && id in q.tasks && q.tasks[id].status == PENDING
    requires run != [] && run[0].Run? && run[0].id == id && Inv(Step(q, cfg, run[0]))
    requires var next := Step(q, cfg, run[0]);
             next.tasks[id].status == PENDING ==>
               id in After(next, cfg, run[1..]).tasks
               && Dated(cfg, Times(run[1..], id), Outcomes(run[1..], id), next.tasks[id],
                        After(next, cfg, run[1..]).tasks[id])
    ensures id in After(q, cfg, run).tasks
    ensures Dated(cfg, Times(run, id), Outcomes(run, id), q.tasks[id], After(q, cfg, run).tasks[id])
  {
    var e, next := run[0], Step(q, cfg, run[0]);
    if next.tasks[id].status == PENDING {
      History(next, cfg, run[1..], id);
    } else {
      FinishedIsFinal(next, cfg, run[1..], id);
      NoTimes(run[1..], id);
    }
    DatedMore(cfg, e.now, e.outcome, Times(run[1..], id), Outcomes(run[1..], id), q.tasks[id],
      After(next, cfg, run[1..]).tasks[id]);
  }

  lemma OtherEvent(q: Queue, cfg: Config, run: seq<Event>, id: TaskId)
    requires Inv(q) && run != [] && Allowed(q.tasks, run[0]) && id in q.tasks && !(run[0].Run? && run[0].id == id)
    ensures Times(run, id) == Times(run[1..], id) && Outcomes(run, id) == Outcomes(run[1..], id)
    ensures After(q, cfg, run) == After(Step(q, cfg, run[0]), cfg, run[1..])
    ensures id in Step(q, cfg, run[0]).tasks && Step(q, cfg, run[0]).tasks[id] == q.tasks[id]
  {
    StepElsewhere(q, cfg, run[0], id);
  }

  /** The timestamps, the error and the next due time of a pending task, over any run. */
  lemma {:induction false} AttemptsAreDated(q: Queue, cfg: Config, run: seq<Event>, id: TaskId)
    requires Inv(q) && AllowedRun(q, cfg, run) && id in q.tasks && q.tasks[id].status == PENDING
    ensures id in After(q, cfg, run).tasks
    ensures Dated(cfg, Times(run, id), Outcomes(run, id), q.tasks[id], After(q, cfg, run).tasks[id])
    decreases |run|
  {
    if run != [] {
      var next := Step(q, cfg, run[0]);
      StepKeepsInv(q, cfg, run[0]);
      if run[0].Run? && run[0].id == id {
        if next.tasks[id].status == PENDING {
          AttemptsAreDated(next, cfg, run[1..], id);
        }
        OwnAttempt(q, cfg, run, id);
      } else {
        OtherEvent(q, cfg, run, id);
        AttemptsAreDated(next, cfg, run[1..], id);
      }
    }
  }

  lemma {:induction false} NoTimes(run: seq<Event>, id: TaskId)
    ensures |Times(run, id)| == |Outcomes(run, id)|
  {
    if run != [] {
      NoTimes(run[1..], id);
    }
  }

  lemma {:induction false} WaitsUntilAvailable(q: Queue, cfg: Config, run: seq<Event>, id: TaskId, now: int,
      outcome: Outcome)
    requires Inv(q) && AllowedRun(q, cfg, run + [Run(id, now, outcome)]) && id in q.tasks && Outcomes(run, id) == []
    ensures q.tasks[id].availableAt <= now
    decreases |run|
  {
    if run == [] {
      assert ([] + [Run(id, now, outcome)])[0] == Run(id, now, outcome);
    } else {
      assert (run + [Run(id, now, outcome)])[1..] == run[1..] + [Run(id, now, outcome)];
      StepElsewhere(q, cfg, run[0], id);
      StepKeepsInv(q, cfg, run[0]);
      WaitsUntilAvailable(Step(q, cfg, run[0]), cfg, run[1..], id, now, outcome);
    }
  }

  /** Two successive attempts of one task, whatever happens in between, are at least the backoff of
      the first apart. */
  lemma RetriesAreSpaced(q: Queue, cfg: Config, id: TaskId, first: int, error: string, between: seq<Event>,
      second: int, outcome: Outcome)
    requires Inv(q) && Outcomes(between, id) == [] && id in q.tasks
    requires AllowedRun(q, cfg, [Run(id, first, Raises(error))] + (between + [Run(id, second, outcome)]))
    ensures second >= first + Backoff(cfg, q.tasks[id].attempts + 1)
  {
    var e, rest := Run(id, first, Raises(error)), between + [Run(id, second, outcome)];
    assert ([e] + rest)[0] == e && ([e] + rest)[1..] == rest;
    StepKeepsInv(q, cfg, e);
    var next := Step(q, cfg, e);
    if next.tasks[id].status == FAILED {
      FinishedIsFinal(next, cfg, rest, id);
      LastOutcome(between, id, second, outcome);
    } else {
      WaitsUntilAvailable(next, cfg, between, id, second, outcome);
    }
  }

  lemma {:induction false} LastOutcome(run: seq<Event>, id: TaskId, now: int, outcome: Outcome)
    ensures Outcomes(run + [Run(id, now, outcome)], id) != []
  {
    var all := run + [Run(id, now, outcome)];
    if run != [] {
      assert all[1..] == run[1..] + [Run(id, now, outcome)];
      LastOutcome(run[1..], id, now, outcome);
    }
  }

  const NO_TASKS := Queue(map[], 0)

  /** Some run takes a task with this attempt limit beyond it. */
  ghost predicate Exceeds(cfg: Config, maxAttempts: nat) {
    exists run, id ::
      && AllowedRun(NO_TASKS, cfg, run) && id in After(NO_TASKS, cfg, run).tasks
      && var t := After(NO_TASKS, cfg, run).tasks[id]; t.maxAttempts == maxAttempts && t.attempts > maxAttempts
  }

  /** The attempt limit of a task is kept over all runs, unless it is zero: one attempt is always made. */
  lemma OnlyZeroIsExceeded(cfg: Config, maxAttempts: nat)
    ensures Exceeds(cfg, maxAttempts) <==> maxAttempts == 0
  {
    if maxAttempts == 0 {
      var add, work := Enqueue("", Null, "", 0, 0), Run(0, 0, Succeeds);
      var q := Step(NO_TASKS, cfg, add);
      var run := [add, work];
      assert run[1..] == [work] && [work][1..] == [];
      assert Step(q, cfg, work).tasks[0].attempts == 1;
      assert AllowedRun(Step(q, cfg, work), cfg, []) && After(Step(q, cfg, work), cfg, []) == Step(q, cfg, work);
      assert AllowedRun(q, cfg, [work]) && After(q, cfg, [work]) == Step(q, cfg, work);
      assert AllowedRun(NO_TASKS, cfg, run) && After(NO_TASKS, cfg, run) == Step(q, cfg, work);
    } else {
      forall run, id | AllowedRun(NO_TASKS, cfg, run) && id in After(NO_TASKS, cfg, run).tasks
        ensures var t := After(NO_TASKS, cfg, run).tasks[id]; t.maxAttempts == maxAttempts ==> t.attempts <= maxAttempts
      {
        RunKeepsInv(NO_TASKS, cfg, run);
        assert TaskOk(After(NO_TASKS, cfg, run).tasks[id]);
      }
    }
  }

  datatype Summary = Summary(claimed: nat, done: nat, retried: nat, failed: nat)

  /** What the statuses after each step of a drain add up to. */
  function Tally(q: Queue, cfg: Config, run: seq<Event>): Summary
    decreases |run|
  {
    if run == [] then Summary(0, 0, 0, 0)
    else
      var n := |run| - 1;
      var before, after := Tally(q, cfg, run[..n]), Step(After(q, cfg, run[..n]), cfg, run[n]);
      if !run[n].Run? || run[n].id !in after.tasks then before
      else Counted(before, after.tasks[run[n].id].status)
  }

  function Counted(summary: Summary, status: Status): Summary {
    match status
    case DONE => summary.(claimed := summary.claimed + 1, done := summary.done + 1)
    case PENDING => summary.(claimed := summary.claimed + 1, retried := summary.retried + 1)
    case FAILED => summary.(claimed := summary.claimed + 1, failed := summary.failed + 1)
  }

  lemma {:induction false} Appended(q: Queue, cfg: Config, run: seq<Event>, e: Event)
    requires AllowedRun(q, cfg, run) && Allowed(After(q, cfg, run).tasks, e)
    ensures AllowedRun(q, cfg, run + [e])
    ensures After(q, cfg, run + [e]) == Step(After(q, cfg, run), cfg, e)
    decreases |run|
  {
    if run == [] {
      assert [e][1..] == [] && run + [e] == [e];
    } else {
      assert (run + [e])[1..] == run[1..] + [e];
      Appended(Step(q, cfg, run[0]), cfg, run[1..], e);
    }
  }

  /** `ran` is an allowed run of claims from `q0` to `q`, and `summary` counts where each one left its task. */
  ghost predicate IsDrain(q0: Queue, cfg: Config, ran: seq<Event>, q: Queue, summary: Summary) {
    && AllowedRun(q0, cfg, ran) && After(q0, cfg, ran) == q
    && (forall i :: 0 <= i < |ran| ==> ran[i].Run?)
    && summary == Tally(q0, cfg, ran)
    && summary.claimed == |ran| == summary.done + summary.retried + summary.failed
  }

  lemma TallyGrows(q0: Queue, cfg: Config, ran: seq<Event>, e: Event)
    requires e.Run? && e.id in After(q0, cfg, ran).tasks
    ensures var next := Step(After(q0, cfg, ran), cfg, e);
            e.id in next.tasks && Tally(q0, cfg, ran + [e]) == Counted(Tally(q0, cfg, ran), next.tasks[e.id].status)
  {
    var all := ran + [e];
    assert all[..|ran|] == ran && all[|ran|] == e;
  }

  lemma CountedAddsUp(summary: Summary, status: Status)
    requires summary.claimed == summary.done + summary.retried + summary.failed
    ensures var t := Counted(summary, status);
            t.claimed == summary.claimed + 1 == t.done + t.retried + t.failed
  {
  }

  lemma DrainGrows(q0: Queue, cfg: Config, ran: seq<Event>, q: Queue, summary: Summary, e: Event)
    requires IsDrain(q0, cfg, ran, q, summary) && e.Run? && Allowed(q.tasks, e)
    ensures var next := Step(q, cfg, e);
            e.id in next.tasks && IsDrain(q0, cfg, ran + [e], next, Counted(summary, next.tasks[e.id].status))
  {
    Appended(q0, cfg, ran, e);
    TallyGrows(q0, cfg, ran, e);
    CountedAddsUp(summary, Step(q, cfg, e).tasks[e.id].status);
    assert forall i :: 0 <= i < |ran| ==> (ran + [e])[i] == ran[i];
  }

  /** How many attempts of a drain succeed, and how many raise at the last one allowed. */
  function Successes(run: seq<Event>): nat {
    if run == [] then 0
    else Successes(run[..|run| - 1]) + if run[|run| - 1].Run? && run[|run| - 1].outcome.Succeeds? then 1 else 0
  }

  function GivenUp(q: Queue, cfg: Config, run: seq<Event>): nat
    decreases |run|
  {
    if run == [] then 0
    else
      var n := |run| - 1;
      var before, tasks := GivenUp(q, cfg, run[..n]), After(q, cfg, run[..n]).tasks;
      if run[n].Run? && run[n].outcome.Raises? && run[n].id in tasks
         && tasks[run[n].id].attempts + 1 >= tasks[run[n].id].maxAttempts then before + 1
      else before
  }

  lemma {:induction false} AllowedInit(q: Queue, cfg: Config, run: seq<Event>)
    requires AllowedRun(q, cfg, run) && run != []
    ensures AllowedRun(q, cfg, run[..|run| - 1])
    ensures Allowed(After(q, cfg, run[..|run| - 1]).tasks, run[|run| - 1])
    decreases |run|
  {
    if |run| > 1 {
      AllowedInit(Step(q, cfg, run[0]), cfg, run[1..]);
      assert run[1..][..|run| - 2] == run[..|run| - 1][1..];
    }
  }

  /** The summary of a drain tells the outcomes: done are the successes, failed the attempts that raised with
      none left, retried all others. */
  lemma {:induction false} SummaryTells(q: Queue, cfg: Config, run: seq<Event>)
    requires AllowedRun(q, cfg, run) && forall i :: 0 <= i < |run| ==> run[i].Run?
    ensures var t := Tally(q, cfg, run);
            && t.claimed == |run| && t.done == Successes(run) && t.failed == GivenUp(q, cfg, run)
            && t.retried == |run| - Successes(run) - GivenUp(q, cfg, run)
    decreases |run|
  {
    if run != [] {
      AllowedInit(q, cfg, run);
      SummaryTells(q, cfg, run[..|run| - 1]);
    }
  }

  class Worker {
    const cfg: Config
    const defaultMaxAttempts: nat
    var tasks: Tasks
    var next: TaskId

    ghost function State(): Queue
      reads this
    {
      Queue(tasks, next)
    }

    /** Record a unit of work, or find the pending task that already stands for it. */
    method Enqueue(registered: set<string>, kind: string, payload: Json, at: int, maxAttempts: Option<nat>,
        dedup: string)
      returns (r: Option<TaskId>)
      requires Inv(State())
      modifies this
      ensures r.None? <==> kind !in registered
      ensures r.None? ==> State() == old(State())
      ensures r.Some? ==> Inv(State())
                          && State() == Step(old(State()), cfg,
                             Event.Enqueue(kind, payload, dedup, maxAttempts.GetOr(defaultMaxAttempts), at))
                          && r.value in tasks && SameSlot(tasks[r.value], kind, dedup)
                          && (r.value in old(tasks) ==> Deduplicated(old(tasks), kind, dedup))
    {
      if kind !in registered {
        return None;
      }
      ghost var e := Event.Enqueue(kind, payload, dedup, maxAttempts.GetOr(defaultMaxAttempts), at);
      StepKeepsInv(State(), cfg, e);
      if dedup != "" {
        var existing := set i | i in tasks && SameSlot(tasks[i], kind, dedup);
        if existing != {} {
          var id :| id in existing;
          return Some(id);
        }
        assert forall i :: i in tasks && SameSlot(tasks[i], kind, dedup) ==> i in existing;
      }
      r := Some(next);
      tasks := tasks[next := Fresh(kind, payload, dedup, maxAttempts.GetOr(defaultMaxAttempts), at)];
      next := next + 1;
    }

    method NextDue(now: int, locked: set<TaskId>) returns (found: Option<TaskId>)
      ensures found.Some? ==> IsNextDue(tasks, found.value, now, locked)
      ensures found.Some? ==> found.value !in locked && forall i :: i in tasks && i !in locked && tasks[i].Due(now) ==>
                i == found.value || tasks[found.value].availableAt < tasks[i].availableAt
                  || (tasks[found.value].availableAt == tasks[i].availableAt && found.value < i)
      ensures found.None? ==> forall i :: i in tasks && i !in locked ==> !tasks[i].Due(now)
    {
      var due := set i | i in tasks && i !in locked && tasks[i].Due(now);
      assert forall i :: i in tasks && i !in locked && tasks[i].Due(now) ==> i in due;
      if due == {} {
        return None;
      }
      var id :| id in due;
      var todo := due - {id};
      while todo != {}
        invariant todo <= due && id in due
        invariant forall i :: i in due && i !in todo ==>
                    tasks[id].availableAt < tasks[i].availableAt
                      || (tasks[id].availableAt == tasks[i].availableAt && id <= i)
        decreases todo
      {
        var i :| i in todo;
        if tasks[i].availableAt < tasks[id].availableAt || (tasks[i].availableAt == tasks[id].availableAt && i < id) {
          id := i;
        }
        todo := todo - {i};
      }
      found := Some(id);
    }

    /** Claim and run one due task; an unregistered kind is an ordinary failure. */
    method RunOne(now: int, locked: set<TaskId>, registered: set<string>, handler: TaskId -> Outcome)
      returns (r: Option<Status>, ghost ran: seq<Event>)
      modifies this
      ensures r.None? ==> ran == [] && State() == old(State()) && forall i :: i in tasks && i !in locked ==>
          !tasks[i].Due(now)
      ensures r.Some? ==>
                && |ran| == 1 && ran[0].Run? && IsNextDue(old(tasks), ran[0].id, now, locked)
                && ran[0] == Run(ran[0].id, now, HandlerOutcome(old(tasks)[ran[0].id], ran[0].id, registered, handler))
                && State() == Step(old(State()), cfg, ran[0])
                && r.value == tasks[ran[0].id].status
                && (r.value == DONE <==>
                      old(tasks)[ran[0].id].kind in registered && handler(ran[0].id).Succeeds?)
    {
      var found := NextDue(now, locked);
      if found.None? {
        ran := [];
        return None, [];
      }
      var id := found.value;
      var task := tasks[id];
      task := task.(attempts := task.attempts + 1);
      if task.startedAt.None? {
        task := task.(startedAt := Some(now));
      }
      var outcome := HandlerOutcome(task, id, registered, handler);
      ran := [Run(id, now, outcome)];
      match outcome {
        case Raises(error) =>
          task := task.(lastError := error);
          if task.attempts >= task.maxAttempts {
            task := task.(status := FAILED, finishedAt := Some(now));
          } else {
            task := task.(availableAt := now + Backoff(cfg, task.attempts));
          }
        case Succeeds =>
          task := task.(status := DONE, finishedAt := Some(now), lastError := "");
      }
      tasks := tasks[id := task];
      r := Some(task.status);
    }

    /** Drain: up to `limit` due tasks, one committed step each. */
    method RunPendingTasks(limit: int, clock: nat -> int, locked: nat -> set<TaskId>, registered: set<string>,
        handler: (nat, TaskId) -> Outcome)
      returns (summary: Summary, ghost ran: seq<Event>)
      modifies this
      ensures IsDrain(old(State()), cfg, ran, State(), summary)
      ensures summary.claimed <= (if limit > 0 then limit else 0)
      ensures summary.claimed < limit ==>
                forall i :: i in tasks && i !in locked(summary.claimed) ==> !tasks[i].Due(clock(summary.claimed))
    {
      summary := Summary(0, 0, 0, 0);
      ran := [];
      var turn: nat := 0;
      while turn < limit
        invariant turn == summary.claimed <= (if limit > 0 then limit else 0)
        invariant IsDrain(old(State()), cfg, ran, State(), summary)
      {
        var n := turn;
        ghost var before := State();
        var outcome, step := RunOne(clock(n), locked(n), registered, (id: TaskId) => handler(n, id));
        if outcome.None? {
          return;
        }
        DrainGrows(old(State()), cfg, ran, before, summary, step[0]);
        assert step == [step[0]];
        ran := ran + step;
        summary := Counted(summary, outcome.value);
        turn := turn + 1;
      }
    }
  }

  function HandlerOutcome(task: Task, id: TaskId, registered: set<string>, handler: TaskId -> Outcome): Outcome {
    if task.kind in registered then handler(id) else Raises("LookupError: no handler registered")
  }
}
