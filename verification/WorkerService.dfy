// WorkerService: one worker's handling of one task, its choice of what to claim, and the drain
// check, as the code runs them; and how they relate to the events of the protocol in Workers.
module WorkerService {
  import opened Types
  import opened Frontier
  import opened Extraction
  import opened Workers
  import FrontierRepository

  // How extract ends: with a batch, with a RetriableSourceError, or with another error (`permanent`
  // for HTTP 404 and 410).
  datatype ExtractResult = Extracted(batch: Batch) | Blocked(delay: int) | Broken(permanent: bool)

  // Which repository call of the task raises, if any.
  datatype Fault = NoFault | PersistRaises | EnqueueRaises | CompleteRaises

  // The events that handling a task amounts to.
  function Script(w: WorkerId, key: Key, x: ExtractResult, fault: Fault, owned: bool): seq<Event> {
    match x
    case Blocked(delay) => [RetriableError(w, delay)]
    case Broken(permanent) => [GenericError(w, permanent)]
    case Extracted(batch) =>
      if Validate(batch, key) != Accepted then [GenericError(w, false)]
      else if !owned then [CheckLease(w, batch)]
      else
        match fault
        case PersistRaises => [CheckLease(w, batch), GenericError(w, false)]
        case EnqueueRaises => [CheckLease(w, batch), PersistBatch(w), GenericError(w, false)]
        case CompleteRaises => [CheckLease(w, batch), PersistBatch(w), EnqueueDiscovered(w), GenericError(w, false)]
        case NoFault => [CheckLease(w, batch), PersistBatch(w), EnqueueDiscovered(w), CompleteTask(w)]
  }

  // Running events from a given state.
  function Play(cfg: Config, s: Sys, events: seq<Event>): Sys
    decreases |events|
  {
    if events == [] then s else Play(cfg, Next(cfg, s, events[0]), events[1..])
  }

  lemma PlayOne(cfg: Config, s: Sys, e: Event, rest: seq<Event>)
    ensures Play(cfg, s, [e] + rest) == Play(cfg, Next(cfg, s, e), rest)
  {
    assert ([e] + rest)[1..] == rest;
  }

  // A protocol state in which the worker is about to handle the task.
  ghost predicate AboutTo(s: Sys, db: Db, now: Time, w: WorkerId, task: Task) {
    s.db == db && s.now == now && Busy(s, w) && Head(s, w) == task && s.workers[w].phase.Working?
  }

  // The table after the events of the script.
  function ScriptTable(cfg: Config, db: Db, task: Task, w: WorkerId, x: ExtractResult, fault: Fault, now: Time): Db {
    match x
    case Blocked(delay) => Retry(db, task, delay, now)
    case Broken(permanent) => FailedTable(cfg, db, task, permanent, now)
    case Extracted(batch) =>
      if Validate(batch, task.key) != Accepted then FailedTable(cfg, db, task, false, now)
      else if !Owns(db, task, w) then db
      else
        var checked := ExtendLease(db, task, w, cfg.lease, now);
        var persisted := MarkSucceeded(checked, EntityKeys(batch));
        var enqueued := Upserts(persisted, batch.discovered);
        match fault
        case PersistRaises => FailedTable(cfg, checked, task, false, now)
        case EnqueueRaises => FailedTable(cfg, persisted, task, false, now)
        case CompleteRaises => FailedTable(cfg, enqueued, task, false, now)
        case NoFault => Close(enqueued, task, Success(TaskHash(batch, task.key)))
  }

  // The worker stands at a phase of its first task, over a table.
  ghost predicate At(s: Sys, db: Db, now: Time, w: WorkerId, worker: Worker) {
    s.db == db && s.now == now && w in s.workers && s.workers[w] == worker && worker.queue != []
  }

  ghost predicate Left(s: Sys, db: Db, w: WorkerId, worker: Worker)
    requires worker.queue != []
  {
    s.db == db && w in s.workers && s.workers[w] == worker.(phase := Working, queue := worker.queue[1..])
  }

  function FailedTable(cfg: Config, db: Db, task: Task, permanent: bool, now: Time): Db {
    if permanent || task.attempt >= cfg.maxAttempts then Close(db, task, Failed)
    else Retry(db, task, RetryDelay(task.attempt), now)
  }

  lemma ErrorPlays(cfg: Config, s: Sys, db: Db, now: Time, w: WorkerId, worker: Worker, permanent: bool)
    requires At(s, db, now, w, worker)
    ensures Left(Play(cfg, s, [GenericError(w, permanent)]), FailedTable(cfg, db, worker.queue[0], permanent, now), w, worker)
  {
    PlayOne(cfg, s, GenericError(w, permanent), []);
    assert [GenericError(w, permanent)] + [] == [GenericError(w, permanent)];
  }

  lemma CompletePlays(cfg: Config, s: Sys, db: Db, now: Time, w: WorkerId, worker: Worker)
    requires At(s, db, now, w, worker) && worker.phase.Enqueued?
    ensures var outcome := Success(TaskHash(worker.phase.batch, worker.queue[0].key));
            Left(Play(cfg, s, [CompleteTask(w)]), Close(db, worker.queue[0], outcome), w, worker)
  {
    PlayOne(cfg, s, CompleteTask(w), []);
    assert [CompleteTask(w)] + [] == [CompleteTask(w)];
  }

  lemma CheckPlays(cfg: Config, s: Sys, w: WorkerId, batch: Batch, rest: seq<Event>) returns (t: Sys)
    requires Busy(s, w) && s.workers[w].phase.Working? && Validate(batch, Head(s, w).key) == Accepted && Owns(s.db, Head(s, w), w)
    ensures At(t, ExtendLease(s.db, Head(s, w), w, cfg.lease, s.now), s.now, w, s.workers[w].(phase := Checked(batch)))
    ensures Play(cfg, s, [CheckLease(w, batch)] + rest) == Play(cfg, t, rest)
  {
    t := Next(cfg, s, CheckLease(w, batch));
    PlayOne(cfg, s, CheckLease(w, batch), rest);
  }

  lemma PersistPlays(cfg: Config, s: Sys, w: WorkerId, rest: seq<Event>) returns (t: Sys)
    requires Busy(s, w) && s.workers[w].phase.Checked?
    ensures var batch := s.workers[w].phase.batch;
            At(t, MarkSucceeded(s.db, EntityKeys(batch)), s.now, w, s.workers[w].(phase := Persisted(batch)))
    ensures Play(cfg, s, [PersistBatch(w)] + rest) == Play(cfg, t, rest)
  {
    t := Next(cfg, s, PersistBatch(w));
    PlayOne(cfg, s, PersistBatch(w), rest);
  }

  lemma EnqueuePlays(cfg: Config, s: Sys, w: WorkerId, rest: seq<Event>) returns (t: Sys)
    requires Busy(s, w) && s.workers[w].phase.Persisted?
    ensures var batch := s.workers[w].phase.batch;
            At(t, Upserts(s.db, batch.discovered), s.now, w, s.workers[w].(phase := Enqueued(batch)))
    ensures Play(cfg, s, [EnqueueDiscovered(w)] + rest) == Play(cfg, t, rest)
  {
    t := Next(cfg, s, EnqueueDiscovered(w));
    PlayOne(cfg, s, EnqueueDiscovered(w), rest);
  }

  // The script of an accepted batch whose lease was extended.
  lemma AcceptedPlays(cfg: Config, s: Sys, task: Task, w: WorkerId, batch: Batch, fault: Fault)
    requires AboutTo(s, s.db, s.now, w, task) && Validate(batch, task.key) == Accepted && Owns(s.db, task, w)
    ensures Left(Play(cfg, s, Script(w, task.key, Extracted(batch), fault, true)),
                 ScriptTable(cfg, s.db, task, w, Extracted(batch), fault, s.now), w, s.workers[w])
  {
    var script := Script(w, task.key, Extracted(batch), fault, true);
    var error := [GenericError(w, false)];
    match fault {
      case PersistRaises =>
        assert script == [CheckLease(w, batch)] + error;
        var t := CheckPlays(cfg, s, w, batch, error);
        ErrorPlays(cfg, t, t.db, t.now, w, t.workers[w], false);
      case EnqueueRaises =>
        assert script == [CheckLease(w, batch)] + ([PersistBatch(w)] + error);
        var t := CheckPlays(cfg, s, w, batch, [PersistBatch(w)] + error);
        var u := PersistPlays(cfg, t, w, error);
        ErrorPlays(cfg, u, u.db, u.now, w, u.workers[w], false);
      case CompleteRaises =>
        var rest := [PersistBatch(w)] + ([EnqueueDiscovered(w)] + error);
        assert script == [CheckLease(w, batch)] + rest;
        var t := CheckPlays(cfg, s, w, batch, rest);
        var u := PersistPlays(cfg, t, w, [EnqueueDiscovered(w)] + error);
        var v := EnqueuePlays(cfg, u, w, error);
        ErrorPlays(cfg, v, v.db, v.now, w, v.workers[w], false);
      case NoFault =>
        var rest := [PersistBatch(w)] + ([EnqueueDiscovered(w)] + [CompleteTask(w)]);
        assert script == [CheckLease(w, batch)] + rest;
        var t := CheckPlays(cfg, s, w, batch, rest);
        var u := PersistPlays(cfg, t, w, [EnqueueDiscovered(w)] + [CompleteTask(w)]);
        var v := EnqueuePlays(cfg, u, w, [CompleteTask(w)]);
        CompletePlays(cfg, v, v.db, v.now, w, v.workers[w]);
    }
  }

  // In every protocol state where the worker is about to handle the task, the script leads to that
  // table, and the worker has left the task behind.
  lemma ScriptPlays(cfg: Config, s: Sys, task: Task, w: WorkerId, x: ExtractResult, fault: Fault)
    requires AboutTo(s, s.db, s.now, w, task)
    ensures Left(Play(cfg, s, Script(w, task.key, x, fault, Owns(s.db, task, w))),
                 ScriptTable(cfg, s.db, task, w, x, fault, s.now), w, s.workers[w])
  {
    match x {
      case Blocked(delay) =>
        PlayOne(cfg, s, RetriableError(w, delay), []);
        assert [RetriableError(w, delay)] + [] == [RetriableError(w, delay)];
      case Broken(permanent) =>
        ErrorPlays(cfg, s, s.db, s.now, w, s.workers[w], permanent);
      case Extracted(batch) =>
        if Validate(batch, task.key) != Accepted {
          ErrorPlays(cfg, s, s.db, s.now, w, s.workers[w], false);
        } else if Owns(s.db, task, w) {
          AcceptedPlays(cfg, s, task, w, batch, fault);
        } else {
          PlayOne(cfg, s, CheckLease(w, batch), []);
          assert [CheckLease(w, batch)] + [] == [CheckLease(w, batch)];
        }
    }
  }

  class Service {
    const source: Source
    const cfg: Config
    const idleGrace: nat
    const frontier: FrontierRepository.Repository
    var emptySince: Option<Time>

    constructor (source: Source, cfg: Config, idleGraceSeconds: int, frontier: FrontierRepository.Repository)
      ensures this.source == source && this.cfg == cfg && this.frontier == frontier
      ensures idleGrace == Max(0, idleGraceSeconds) && emptySince == None
    {
      this.source, this.cfg, this.frontier := source, cfg, frontier;
      idleGrace, emptySince := Max(0, idleGraceSeconds), None;
    }

    // _process_task, when no other transaction comes in between: what it leaves in the tables is
    // what the script of protocol events leaves, from whatever state the worker stands in.
    method ProcessTask(task: Task, w: WorkerId, x: ExtractResult, fault: Fault, now: Time)
      modifies frontier
      ensures forall s | AboutTo(s, old(frontier.Table()), now, w, task) ::
                Play(cfg, s, Script(w, task.key, x, fault, Owns(s.db, task, w))).db == frontier.Table()
      ensures frontier.Table() == ScriptTable(cfg, old(frontier.Table()), task, w, x, fault, now)
    {
      ghost var before := frontier.Table();
      match x {
        case Blocked(delay) =>
          frontier.Retry(task, delay, now);
        case Broken(permanent) =>
          HandleGenericError(task, permanent, now);
        case Extracted(batch) =>
          if Validate(batch, task.key) != Accepted {
            HandleGenericError(task, false, now);
          } else {
            var extended := frontier.ExtendLease(task, w, cfg.lease, now);
            if extended {
              if fault == PersistRaises {
                HandleGenericError(task, false, now);
              } else {
                frontier.MarkSucceeded(batch);
                if fault == EnqueueRaises {
                  HandleGenericError(task, false, now);
                } else {
                  var _ := frontier.Enqueue(batch.discovered);
                  if fault == CompleteRaises {
                    HandleGenericError(task, false, now);
                  } else {
                    frontier.Complete(task, TaskHash(batch, task.key));
                  }
                }
              }
            }
          }
      }
      forall s | AboutTo(s, before, now, w, task)
        ensures Play(cfg, s, Script(w, task.key, x, fault, Owns(s.db, task, w))).db
                == ScriptTable(cfg, before, task, w, x, fault, now)
      {
        ScriptPlays(cfg, s, task, w, x, fault);
      }
    }

    method HandleGenericError(task: Task, permanent: bool, now: Time)
      modifies frontier
      ensures frontier.Table() == FailedTable(cfg, old(frontier.Table()), task, permanent, now)
    {
      if permanent || task.attempt >= cfg.maxAttempts {
        frontier.Fail(task);
      } else {
        frontier.Retry(task, RetryDelay(task.attempt), now);
      }
    }

    // One claim.
    method ClaimWith(w: WorkerId, query: Query, now: Time) returns (tasks: seq<Task>)
      modifies frontier
      ensures tasks == [] <==> Chosen(old(frontier.Table()), query, now) == {}
      ensures tasks == [] ==> frontier.Table() == old(frontier.Table())
      ensures forall i | 0 <= i < |tasks| :: tasks[i].id in EligibleIds(old(frontier.Table()), query, now)
    {
      ClaimSelectsPrefix(frontier.Table(), query, now);
      if Chosen(frontier.Table(), query, now) == {} {
        EmptyClaim(frontier.Table(), w, query, cfg.lease, now);
      }
      tasks := frontier.Claim(w, query, cfg.lease, now);
    }

    // The claims at the top of _worker_loop. A backfill worker holds a row of positive priority only
    // if its source had no eligible row of priority at most 0.
    method ClaimTasks(w: WorkerId, isBackfill: bool, limit: nat, now: Time) returns (tasks: seq<Task>)
      requires limit > 0
      modifies frontier
      ensures tasks == [] ==> frontier.Table() == old(frontier.Table())
      ensures tasks == [] <==> EligibleIds(old(frontier.Table()), Query(Some(source), limit, false), now) == {}
      ensures isBackfill && (exists i :: 0 <= i < |tasks| && tasks[i].id in old(frontier.rows)
                                         && old(frontier.rows)[tasks[i].id].priority > 0)
              ==> forall id | id in old(frontier.rows)
                              && Eligible(old(frontier.rows)[id], Query(Some(source), limit, false), now) ::
                    old(frontier.rows)[id].priority > 0
    {
      var query, backfill := Query(Some(source), limit, false), Query(Some(source), limit, true);
      ghost var db := frontier.Table();
      ClaimSelectsPrefix(db, query, now);
      ClaimSelectsPrefix(db, backfill, now);
      BackfillFirst(db, backfill, now);
      if isBackfill {
        tasks := ClaimWith(w, backfill, now);
        if tasks == [] {
          tasks := ClaimWith(w, query, now);
        } else {
          assert tasks[0].id in EligibleIds(db, query, now);
        }
      } else {
        tasks := ClaimWith(w, query, now);
      }
    }

    // A claimed batch ends the idle period.
    method NoteTasks()
      modifies this`emptySince
      ensures emptySince == None
    {
      emptySince := None;
    }

    // _drain_complete: true only when the frontier of the source is empty and has been found empty,
    // and never otherwise since, for the whole grace period.
    method DrainComplete(now: Time) returns (complete: bool)
      modifies this`emptySince
      ensures complete ==> forall id | id in frontier.rows :: frontier.rows[id].key.source != source
      ensures emptySince.Some? <==> forall id | id in frontier.rows :: frontier.rows[id].key.source != source
      ensures emptySince.Some? ==> emptySince == if old(emptySince).Some? then old(emptySince) else Some(now)
      ensures complete <==> emptySince.Some? && now - emptySince.value >= idleGrace
    {
      var activity := frontier.CountActivity(source, now);
      if activity.depth != 0 || activity.leased != 0 {
        emptySince := None;
        return false;
      }
      if emptySince.None? {
        emptySince := Some(now);
        return idleGrace == 0;
      }
      return now - emptySince.value >= idleGrace;
    }
  }

  lemma EmptyClaim(db: Db, w: WorkerId, query: Query, lease: nat, now: Time)
    requires Chosen(db, query, now) == {}
    ensures Claim(db, w, query, lease, now) == db
  {
    assert Claim(db, w, query, lease, now).rows == db.rows;
  }

  // The delays of successive generic failures: 5 seconds, doubling, 300 seconds from the seventh on.
  lemma DelayDoubles(attempt: nat)
    requires attempt >= 1
    ensures RetryDelay(1) == 5
    ensures RetryDelay(attempt + 1) == Min(300, 2 * RetryDelay(attempt))
    ensures RetryDelay(attempt) == 300 <==> attempt >= 7
  {
    PowersGrow(attempt - 1);
    assert Pow2(5) == 32 && Pow2(6) == 64;
  }

  lemma {:induction false} PowersGrow(n: nat)
    ensures Pow2(n) >= 1
    ensures n >= 6 ==> Pow2(n) >= 64
    ensures n <= 5 ==> Pow2(n) <= 32
  {
    if n > 0 {
      PowersGrow(n - 1);
      assert n == 6 ==> Pow2(n) == 2 * Pow2(5);
      assert Pow2(5) == 2 * Pow2(4) == 4 * Pow2(3) == 8 * Pow2(2);
      assert n <= 5 ==> n == 1 || n == 2 || n == 3 || n == 4 || n == 5;
    }
  }
}
