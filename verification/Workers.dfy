// The crawl protocol: any number of worker loops draining the frontier together. Each event is one
// repository transaction, or the loss of a process, or the passing of time; the events of different
// workers interleave freely. An event that is not possible in a state leaves the state alone, so
// every sequence of events is a run.
module Workers {
  import opened Types
  import opened Frontier
  import opened Extraction

  datatype Config = Config(lease: nat, maxAttempts: nat)

  // Where a worker stands in _process_task for the first task of its queue.
  datatype Phase =
    | Working                  // extracting
    | Checked(batch: Batch)    // extend_lease succeeded, persist comes next
    | Persisted(batch: Batch)  // enqueue comes next
    | Enqueued(batch: Batch)   // complete comes next

  datatype Worker = Worker(source: Source, phase: Phase, queue: seq<Task>)

  // The completion of a task whose row was still there.
  datatype Completion = Completion(task: Task, batch: Batch)

  // The table, the clock and the worker loops, followed by what has happened so far: the tasks
  // handed out, the tasks persisted, the entities ever passed to enqueue, the entities whose
  // discoveries a worker enqueued, and the completions.
  datatype Sys = Sys(db: Db, now: Time, workers: map<WorkerId, Worker>, nextWorker: nat,
                     grants: seq<Task>, persists: seq<Task>, offered: set<Key>, expansions: seq<Key>,
                     completions: seq<Completion>)

  const Start := Sys(EmptyDb, 0, map[], 0, [], [], {}, [], [])

  datatype Event =
    | Seed(items: seq<Item>)                 // enqueue by discovery or by an operator
    | Tick(seconds: nat)
    | Spawn(source: Source)                  // a worker loop starts, under a fresh worker id
    | Poll(worker: WorkerId, limit: nat, backfillOnly: bool, order: seq<nat>)
    | CheckLease(worker: WorkerId, batch: Batch)   // extraction succeeded; extend_lease
    | Heartbeat(worker: WorkerId)
    | PersistBatch(worker: WorkerId)
    | EnqueueDiscovered(worker: WorkerId)
    | CompleteTask(worker: WorkerId)
    | GenericError(worker: WorkerId, permanent: bool)
    | RetriableError(worker: WorkerId, delay: int)
    | ReleaseTasks(worker: WorkerId)         // shutdown or cancellation: release of the tasks not finished
    | Leave(worker: WorkerId)                // the end of the loop: release_by_owner
    | Crash(worker: WorkerId)                // the process dies without a word
    | ReleaseStaleLeases(only: Option<Source>)

  function Pow2(n: nat): nat {
    if n == 0 then 1 else 2 * Pow2(n - 1)
  }

  // delay = min(300, 5 * 2 ** max(0, attempt - 1))
  function RetryDelay(attempt: nat): int {
    Min(300, 5 * Pow2(Max(0, attempt - 1)))
  }

  predicate Busy(s: Sys, w: WorkerId) {
    w in s.workers && s.workers[w].queue != []
  }

  function Head(s: Sys, w: WorkerId): Task
    requires Busy(s, w)
  {
    s.workers[w].queue[0]
  }

  // The worker turns to the next task of its queue.
  function Advance(s: Sys, w: WorkerId): map<WorkerId, Worker>
    requires Busy(s, w)
  {
    s.workers[w := s.workers[w].(phase := Working, queue := s.workers[w].queue[1..])]
  }

  function Move(s: Sys, w: WorkerId, phase: Phase): map<WorkerId, Worker>
    requires w in s.workers
  {
    s.workers[w := s.workers[w].(phase := phase)]
  }

  predicate Lists(order: seq<nat>, ids: set<nat>) {
    && (forall i | 0 <= i < |order| :: order[i] in ids)
    && (forall id | id in ids :: id in order)
    && (forall i, j | 0 <= i < j < |order| :: order[i] != order[j])
  }

  function TasksOf(db: Db, order: seq<nat>): seq<Task>
    requires forall i | 0 <= i < |order| :: order[i] in db.rows
  {
    seq(|order|, i requires 0 <= i < |order| => Task(order[i], db.rows[order[i]].key, db.rows[order[i]].attempt))
  }

  // A claim by an idle worker. The database fixes the rows but not the order of the returned list.
  function DoPoll(cfg: Config, s: Sys, w: WorkerId, limit: nat, backfillOnly: bool, order: seq<nat>): Sys {
    if w !in s.workers || s.workers[w].queue != [] then s
    else
      var query := Query(Some(s.workers[w].source), limit, backfillOnly);
      if !Lists(order, Chosen(s.db, query, s.now)) then s
      else
        var db := Claim(s.db, w, query, cfg.lease, s.now);
        var tasks := TasksOf(db, order);
        s.(db := db, workers := s.workers[w := s.workers[w].(phase := Working, queue := tasks)],
           grants := s.grants + tasks)
  }

  function DoCheckLease(cfg: Config, s: Sys, w: WorkerId, batch: Batch): Sys {
    if !Busy(s, w) || !s.workers[w].phase.Working? || Validate(batch, Head(s, w).key) != Accepted then s
    else if Owns(s.db, Head(s, w), w) then
      s.(db := ExtendLease(s.db, Head(s, w), w, cfg.lease, s.now), workers := Move(s, w, Checked(batch)))
    else s.(workers := Advance(s, w))
  }

  function DoHeartbeat(cfg: Config, s: Sys, w: WorkerId): Sys {
    if !Busy(s, w) then s else s.(db := ExtendLease(s.db, Head(s, w), w, cfg.lease, s.now))
  }

  function DoPersist(s: Sys, w: WorkerId): Sys {
    if !Busy(s, w) || !s.workers[w].phase.Checked? then s
    else
      var batch := s.workers[w].phase.batch;
      s.(db := MarkSucceeded(s.db, EntityKeys(batch)),
         workers := Move(s, w, Persisted(batch)), persists := s.persists + [Head(s, w)])
  }

  function Enqueue(s: Sys, items: seq<Item>): Sys {
    s.(db := Upserts(s.db, items), offered := s.offered + Keys(items))
  }

  function DoEnqueue(s: Sys, w: WorkerId): Sys {
    if !Busy(s, w) || !s.workers[w].phase.Persisted? then s
    else
      var batch := s.workers[w].phase.batch;
      Enqueue(s, batch.discovered).(workers := Move(s, w, Enqueued(batch)),
                                    expansions := s.expansions + [Head(s, w).key])
  }

  function DoComplete(s: Sys, w: WorkerId): Sys {
    if !Busy(s, w) || !s.workers[w].phase.Enqueued? then s
    else
      var task := Head(s, w);
      s.(db := Close(s.db, task, Success(TaskHash(s.workers[w].phase.batch, task.key))), workers := Advance(s, w),
         completions := if Current(s.db, task) then s.completions + [Completion(task, s.workers[w].phase.batch)]
                        else s.completions)
  }

  // The last except branch of _process_task: give up on the row or schedule the next attempt.
  function DoGenericError(cfg: Config, s: Sys, w: WorkerId, permanent: bool): Sys {
    if !Busy(s, w) then s
    else
      var task := Head(s, w);
      var db := if permanent || task.attempt >= cfg.maxAttempts then Close(s.db, task, Failed)
                else Retry(s.db, task, RetryDelay(task.attempt), s.now);
      s.(db := db, workers := Advance(s, w))
  }

  function DoRetriableError(s: Sys, w: WorkerId, delay: int): Sys {
    if !Busy(s, w) then s
    else s.(db := Retry(s.db, Head(s, w), delay, s.now), workers := Advance(s, w))
  }

  function DoLeave(s: Sys, w: WorkerId): Sys {
    s.(db := ReleaseByOwner(s.db, w), workers := s.workers - {w})
  }

  // The loop that releases its tasks does nothing after that but leave.
  function DoRelease(s: Sys, w: WorkerId): Sys {
    if !Busy(s, w) then s
    else s.(db := Release(s.db, Ids(s.workers[w].queue), w), workers := s.workers - {w})
  }

  function Next(cfg: Config, s: Sys, e: Event): Sys {
    match e
    case Seed(items) => Enqueue(s, items)
    case Tick(seconds) => s.(now := s.now + seconds)
    case Spawn(source) => s.(workers := s.workers[s.nextWorker := Worker(source, Working, [])], nextWorker := s.nextWorker + 1)
    case Poll(w, limit, backfillOnly, order) => DoPoll(cfg, s, w, limit, backfillOnly, order)
    case CheckLease(w, batch) => DoCheckLease(cfg, s, w, batch)
    case Heartbeat(w) => DoHeartbeat(cfg, s, w)
    case PersistBatch(w) => DoPersist(s, w)
    case EnqueueDiscovered(w) => DoEnqueue(s, w)
    case CompleteTask(w) => DoComplete(s, w)
    case GenericError(w, permanent) => DoGenericError(cfg, s, w, permanent)
    case RetriableError(w, delay) => DoRetriableError(s, w, delay)
    case ReleaseTasks(w) => DoRelease(s, w)
    case Leave(w) => DoLeave(s, w)
    case Crash(w) => s.(workers := s.workers - {w})
    case ReleaseStaleLeases(source) => s.(db := ReleaseStale(s.db, source, s.now))
  }

  // The state after a run.
  function Exec(cfg: Config, run: seq<Event>): Sys {
    if run == [] then Start else Next(cfg, Exec(cfg, run[..|run| - 1]), run[|run| - 1])
  }
}
