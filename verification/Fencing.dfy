// Fencing and conservation, over every run of the crawl protocol: a (row id, attempt) pair is handed
// out once, an outdated task can change nothing, and every row ever inserted is either still there
// or closed by exactly one history row.
module Fencing {
  import opened Types
  import opened Frontier
  import opened EnqueueOrder
  import opened Extraction
  import opened Workers

  // ---------------------------------------------------------------- the table on its own

  // Every id handed out so far has a row or a history row.
  ghost predicate IdsKnown(db: Db) {
    forall id | 0 <= id < db.nextId :: id in db.rows || InHistory(db, id)
  }

  ghost predicate Shape(db: Db) {
    && Keyed(db)
    && (forall n | 0 <= n < |db.history| :: db.history[n].rowId < db.nextId && db.history[n].rowId !in db.rows)
    && (forall m, n | 0 <= m < n < |db.history| :: db.history[m].rowId != db.history[n].rowId)
    && IdsKnown(db)
    && db.nextId == |db.rows| + |db.history|
  }

  // `after` follows `before` without a claim: rows keep their entity and attempt, new rows are
  // fresh and unclaimed, and a row only goes by way of a history row that copies it.
  ghost predicate Settles(before: Db, after: Db) {
    && before.nextId <= after.nextId
    && before.succeeded <= after.succeeded
    && before.history <= after.history
    && (forall id | id in after.rows ::
          if id in before.rows
          then after.rows[id].key == before.rows[id].key && after.rows[id].attempt == before.rows[id].attempt
          else id >= before.nextId && after.rows[id].attempt == 0)
    && (forall n | |before.history| <= n < |after.history| ::
          var h := after.history[n];
          h.rowId in before.rows && before.rows[h.rowId].key == h.key && before.rows[h.rowId].attempt == h.attempt)
  }

  lemma SameSize(a: map<nat, Row>, b: map<nat, Row>)
    requires a.Keys == b.Keys
    ensures |a| == |b|
  {
    assert |a| == |a.Keys| && |b| == |b.Keys|;
  }

  // `after` differs from `before` by columns other than entity and attempt.
  ghost predicate Touches(before: Db, after: Db) {
    && after.rows.Keys == before.rows.Keys
    && (forall id | id in before.rows ::
          after.rows[id].key == before.rows[id].key && after.rows[id].attempt == before.rows[id].attempt)
    && after.nextId == before.nextId && after.history == before.history && before.succeeded <= after.succeeded
  }

  lemma TouchSettles(before: Db, after: Db)
    requires Shape(before) && Touches(before, after)
    ensures Shape(after) && Settles(before, after)
  {
    SameSize(before.rows, after.rows);
    forall id | 0 <= id < after.nextId
      ensures id in after.rows || InHistory(after, id)
    {
      assert id in before.rows || InHistory(before, id);
    }
  }

  lemma InsertKnowsIds(db: Db, item: Item)
    requires IdsKnown(db) && !Skipped(db, item) && !Live(db, item.key)
    ensures IdsKnown(Upsert(db, item))
  {
    var after := Upsert(db, item);
    forall id | 0 <= id < after.nextId
      ensures id in after.rows || InHistory(after, id)
    {
      assert id == db.nextId || id in db.rows || InHistory(db, id);
    }
  }

  lemma OneRowMore(rows: map<nat, Row>, id: nat, row: Row)
    requires id !in rows
    ensures |rows[id := row]| == |rows| + 1
  {
    assert rows[id := row].Keys == rows.Keys + {id};
    assert |rows[id := row]| == |rows[id := row].Keys| && |rows| == |rows.Keys|;
  }

  lemma InsertSettles(db: Db, item: Item)
    requires Shape(db) && !Skipped(db, item) && !Live(db, item.key)
    ensures Shape(Upsert(db, item)) && Settles(db, Upsert(db, item))
  {
    OneRowMore(db.rows, db.nextId, NewRow(item));
    InsertKnowsIds(db, item);
  }

  lemma UpsertSettles(db: Db, item: Item)
    requires Shape(db)
    ensures Shape(Upsert(db, item)) && Settles(db, Upsert(db, item))
  {
    if Skipped(db, item) || Live(db, item.key) {
      assert Touches(db, Upsert(db, item));
      TouchSettles(db, Upsert(db, item));
    } else {
      InsertSettles(db, item);
    }
  }

  lemma SettlesTransitive(a: Db, b: Db, c: Db)
    requires Shape(a) && Shape(b) && Settles(a, b) && Settles(b, c)
    requires b.history == c.history
    ensures Settles(a, c)
  {
  }

  lemma {:induction false} FoldSettles(db: Db, items: seq<Item>)
    requires Shape(db)
    ensures Shape(Fold(db, items)) && Settles(db, Fold(db, items))
    ensures Fold(db, items).history == db.history && Fold(db, items).succeeded == db.succeeded
  {
    if items != [] {
      var front := Fold(db, items[..|items| - 1]);
      FoldSettles(db, items[..|items| - 1]);
      UpsertSettles(front, items[|items| - 1]);
      SettlesTransitive(db, front, Fold(db, items));
    }
  }

  lemma UpsertsSettle(db: Db, items: seq<Item>)
    requires Shape(db)
    ensures Shape(Upserts(db, items)) && Settles(db, Upserts(db, items))
    ensures Upserts(db, items).history == db.history && Upserts(db, items).succeeded == db.succeeded
  {
    SortedSame(items);
    FoldSettles(db, Sorted(items));
  }

  lemma CloseKnowsIds(db: Db, task: Task, outcome: Outcome)
    requires IdsKnown(db)
    ensures IdsKnown(Close(db, task, outcome))
  {
    var after := Close(db, task, outcome);
    if Current(db, task) {
      forall id | 0 <= id < after.nextId
        ensures id in after.rows || InHistory(after, id)
      {
        if id == task.id {
          assert after.history[|db.history|].rowId == id;
        } else if id !in db.rows {
          var n :| 0 <= n < |db.history| && db.history[n].rowId == id;
          assert after.history[n].rowId == id;
        }
      }
    }
  }

  lemma CloseSettles(db: Db, task: Task, outcome: Outcome)
    requires Shape(db)
    ensures Shape(Close(db, task, outcome)) && Settles(db, Close(db, task, outcome))
  {
    var after := Close(db, task, outcome);
    CloseKnowsIds(db, task, outcome);
    if Current(db, task) {
      assert after.rows.Keys == db.rows.Keys - {task.id};
      assert |after.rows| == |after.rows.Keys| && |db.rows| == |db.rows.Keys|;
    }
  }

  lemma ClaimKeepsShape(db: Db, worker: WorkerId, query: Query, lease: nat, now: Time)
    requires Shape(db)
    ensures Shape(Claim(db, worker, query, lease, now))
  {
    var after := Claim(db, worker, query, lease, now);
    SameSize(db.rows, after.rows);
    assert forall id | id in db.rows :: after.rows[id].key == db.rows[id].key;
    forall id | 0 <= id < after.nextId
      ensures id in after.rows || InHistory(after, id)
    {
      assert id in db.rows || InHistory(db, id);
    }
  }

  // The lease columns of every row are as before.
  ghost predicate SameLeases(before: Db, after: Db) {
    forall id | id in before.rows ::
      && id in after.rows
      && after.rows[id].attempt == before.rows[id].attempt
      && after.rows[id].leaseOwner == before.rows[id].leaseOwner
      && after.rows[id].leasedUntil == before.rows[id].leasedUntil
  }

  lemma UpsertKeepsLeases(db: Db, item: Item)
    requires Shape(db)
    ensures SameLeases(db, Upsert(db, item))
  {
  }

  lemma {:induction false} FoldKeepsLeases(db: Db, items: seq<Item>)
    requires Shape(db)
    ensures SameLeases(db, Fold(db, items))
  {
    if items != [] {
      FoldKeepsLeases(db, items[..|items| - 1]);
      FoldSettles(db, items[..|items| - 1]);
      UpsertKeepsLeases(Fold(db, items[..|items| - 1]), items[|items| - 1]);
    }
  }

  lemma EnqueueKeepsLeases(db: Db, items: seq<Item>)
    requires Shape(db)
    ensures SameLeases(db, Upserts(db, items))
  {
    SortedSame(items);
    FoldKeepsLeases(db, Sorted(items));
  }

  // ---------------------------------------------------------------- the table and the hand-outs

  ghost predicate Granted(grants: seq<Task>, id: nat, attempt: nat) {
    exists i :: 0 <= i < |grants| && grants[i].id == id && grants[i].attempt == attempt
  }

  // No (row id, attempt) pair occurs twice.
  ghost predicate DistinctTokens(tasks: seq<Task>) {
    forall i, j | 0 <= i < j < |tasks| :: tasks[i].id != tasks[j].id || tasks[i].attempt != tasks[j].attempt
  }

  // Every task handed out names its row's entity, and no later attempt than the row has seen.
  ghost predicate GrantFits(db: Db, task: Task) {
    && 1 <= task.attempt
    && task.id < db.nextId
    && (task.id in db.rows ==> task.attempt <= db.rows[task.id].attempt && task.key == db.rows[task.id].key)
    && (forall n | 0 <= n < |db.history| && db.history[n].rowId == task.id ::
          task.attempt <= db.history[n].attempt && task.key == db.history[n].key)
  }

  ghost predicate GrantsFit(db: Db, grants: seq<Task>) {
    && DistinctTokens(grants)
    && (forall i | 0 <= i < |grants| :: GrantFits(db, grants[i]))
    && (forall id, a | id in db.rows && 1 <= a <= db.rows[id].attempt :: Granted(grants, id, a))
    && (forall n, a | 0 <= n < |db.history| && 1 <= a <= db.history[n].attempt ::
          Granted(grants, db.history[n].rowId, a))
  }

  lemma SettlingKeepsGrants(before: Db, after: Db, grants: seq<Task>)
    requires Shape(before) && Shape(after) && Settles(before, after) && GrantsFit(before, grants)
    ensures GrantsFit(after, grants)
  {
    forall i | 0 <= i < |grants|
      ensures GrantFits(after, grants[i])
    {
      assert GrantFits(before, grants[i]);
    }
    forall n, a | 0 <= n < |after.history| && 1 <= a <= after.history[n].attempt
      ensures Granted(grants, after.history[n].rowId, a)
    {
      if n < |before.history| {
        assert after.history[n] == before.history[n];
      }
    }
  }

  lemma HandOutIsDistinct(s: Sys, w: WorkerId, query: Query, lease: nat, order: seq<nat>)
    requires GrantsFit(s.db, s.grants) && Lists(order, Chosen(s.db, query, s.now))
    ensures DistinctTokens(s.grants + TasksOf(Claim(s.db, w, query, lease, s.now), order))
  {
    var grants := s.grants + TasksOf(Claim(s.db, w, query, lease, s.now), order);
    forall i, j | 0 <= i < j < |grants|
      ensures grants[i].id != grants[j].id || grants[i].attempt != grants[j].attempt
    {
      if i < |s.grants| <= j {
        assert GrantFits(s.db, s.grants[i]);
      }
    }
  }

  lemma HandOutFits(s: Sys, w: WorkerId, query: Query, lease: nat, order: seq<nat>, i: nat)
    requires Shape(s.db) && GrantsFit(s.db, s.grants) && Lists(order, Chosen(s.db, query, s.now))
    requires i < |s.grants + TasksOf(Claim(s.db, w, query, lease, s.now), order)|
    ensures var after := Claim(s.db, w, query, lease, s.now); GrantFits(after, (s.grants + TasksOf(after, order))[i])
  {
    if i < |s.grants| {
      assert GrantFits(s.db, s.grants[i]);
    }
  }

  lemma HandOutCovers(s: Sys, w: WorkerId, query: Query, lease: nat, order: seq<nat>, id: nat, a: nat)
    requires GrantsFit(s.db, s.grants) && Lists(order, Chosen(s.db, query, s.now)) && id in s.db.rows
    requires 1 <= a <= Claim(s.db, w, query, lease, s.now).rows[id].attempt
    ensures Granted(s.grants + TasksOf(Claim(s.db, w, query, lease, s.now), order), id, a)
  {
    var tasks := TasksOf(Claim(s.db, w, query, lease, s.now), order);
    if a <= s.db.rows[id].attempt {
      GrantedInPrefix(s.grants, tasks, id, a);
    } else {
      var i :| 0 <= i < |order| && order[i] == id;
      assert (s.grants + tasks)[|s.grants| + i] == tasks[i];
    }
  }

  lemma ClaimKeepsGrants(s: Sys, w: WorkerId, query: Query, lease: nat, order: seq<nat>)
    requires Shape(s.db) && GrantsFit(s.db, s.grants) && Lists(order, Chosen(s.db, query, s.now))
    ensures var after := Claim(s.db, w, query, lease, s.now);
            GrantsFit(after, s.grants + TasksOf(after, order))
  {
    var after := Claim(s.db, w, query, lease, s.now);
    var tasks := TasksOf(after, order);
    var grants := s.grants + tasks;
    HandOutIsDistinct(s, w, query, lease, order);
    forall i | 0 <= i < |grants|
      ensures GrantFits(after, grants[i])
    {
      HandOutFits(s, w, query, lease, order, i);
    }
    forall id, a | id in after.rows && 1 <= a <= after.rows[id].attempt
      ensures Granted(grants, id, a)
    {
      HandOutCovers(s, w, query, lease, order, id, a);
    }
    forall n, a | 0 <= n < |after.history| && 1 <= a <= after.history[n].attempt
      ensures Granted(grants, after.history[n].rowId, a)
    {
      GrantedInPrefix(s.grants, tasks, after.history[n].rowId, a);
    }
  }

  lemma GrantedInPrefix(grants: seq<Task>, more: seq<Task>, id: nat, attempt: nat)
    requires Granted(grants, id, attempt)
    ensures Granted(grants + more, id, attempt)
  {
    var i :| 0 <= i < |grants| && grants[i].id == id && grants[i].attempt == attempt;
    assert (grants + more)[i] == grants[i];
  }

  // ---------------------------------------------------------------- every run

  ghost predicate FenceInv(s: Sys) {
    Shape(s.db) && GrantsFit(s.db, s.grants)
  }

  // Every event but a claim settles the table and hands nothing out.
  lemma StepSettles(cfg: Config, s: Sys, e: Event)
    requires Shape(s.db)
    ensures !e.Poll? ==> Settles(s.db, Next(cfg, s, e).db) && Next(cfg, s, e).grants == s.grants
    ensures Shape(Next(cfg, s, e).db)
  {
    match e {
      case Seed(items) => UpsertsSettle(s.db, items);
      case Poll(w, limit, backfillOnly, order) =>
        if w in s.workers {
          ClaimKeepsShape(s.db, w, Query(Some(s.workers[w].source), limit, backfillOnly), cfg.lease, s.now);
        }
      case EnqueueDiscovered(w) =>
        if Busy(s, w) && s.workers[w].phase.Persisted? {
          UpsertsSettle(s.db, s.workers[w].phase.batch.discovered);
        }
      case CompleteTask(w) =>
        if Busy(s, w) && s.workers[w].phase.Enqueued? { CloseSettles(s.db, Head(s, w), Success(TaskHash(s.workers[w].phase.batch, Head(s, w).key))); }
      case _ =>
        UpdateStepSettles(cfg, s, e);
    }
  }

  lemma UpdateStepSettles(cfg: Config, s: Sys, e: Event)
    requires Shape(s.db) && !e.Seed? && !e.Poll? && !e.EnqueueDiscovered? && !e.CompleteTask?
    ensures Settles(s.db, Next(cfg, s, e).db) && Next(cfg, s, e).grants == s.grants
    ensures Shape(Next(cfg, s, e).db)
  {
    if e.GenericError? && Busy(s, e.worker) && (e.permanent || Head(s, e.worker).attempt >= cfg.maxAttempts) {
      CloseSettles(s.db, Head(s, e.worker), Failed);
    } else {
      UpdateStepTouches(cfg, s, e);
      TouchSettles(s.db, Next(cfg, s, e).db);
    }
  }

  lemma UpdateStepTouches(cfg: Config, s: Sys, e: Event)
    requires !e.Seed? && !e.Poll? && !e.EnqueueDiscovered? && !e.CompleteTask?
    requires e.GenericError? && Busy(s, e.worker) ==> !(e.permanent || Head(s, e.worker).attempt >= cfg.maxAttempts)
    ensures Touches(s.db, Next(cfg, s, e).db) && Next(cfg, s, e).grants == s.grants
  {
    match e
    case ReleaseStaleLeases(only) => assert Touches(s.db, ReleaseStale(s.db, only, s.now));
    case ReleaseTasks(w) => if Busy(s, w) { assert Touches(s.db, Release(s.db, Ids(s.workers[w].queue), w)); }
    case Leave(w) => assert Touches(s.db, ReleaseByOwner(s.db, w));
    case GenericError(w, permanent) =>
      if Busy(s, w) { assert Touches(s.db, Retry(s.db, Head(s, w), RetryDelay(Head(s, w).attempt), s.now)); }
    case RetriableError(w, delay) =>
      if Busy(s, w) { assert Touches(s.db, Retry(s.db, Head(s, w), delay, s.now)); }
    case CheckLease(w, batch) =>
      if Busy(s, w) { assert Touches(s.db, ExtendLease(s.db, Head(s, w), w, cfg.lease, s.now)); }
    case Heartbeat(w) =>
      if Busy(s, w) { assert Touches(s.db, ExtendLease(s.db, Head(s, w), w, cfg.lease, s.now)); }
    case _ =>
  }

  lemma FenceStep(cfg: Config, s: Sys, e: Event)
    requires FenceInv(s)
    ensures FenceInv(Next(cfg, s, e))
  {
    StepSettles(cfg, s, e);
    if e.Poll? {
      if e.worker in s.workers && s.workers[e.worker].queue == [] {
        var query := Query(Some(s.workers[e.worker].source), e.limit, e.backfillOnly);
        if Lists(e.order, Chosen(s.db, query, s.now)) {
          ClaimKeepsGrants(s, e.worker, query, cfg.lease, e.order);
        }
      }
    } else {
      SettlingKeepsGrants(s.db, Next(cfg, s, e).db, s.grants);
    }
  }

  lemma {:induction false} FenceAlways(cfg: Config, run: seq<Event>)
    ensures FenceInv(Exec(cfg, run))
  {
    if run != [] {
      FenceAlways(cfg, run[..|run| - 1]);
      FenceStep(cfg, Exec(cfg, run[..|run| - 1]), run[|run| - 1]);
    }
  }

  // No (row id, attempt) pair is ever handed out twice.
  lemma {:induction false} TokensAreUnique(cfg: Config, run: seq<Event>)
    ensures DistinctTokens(Exec(cfg, run).grants)
  {
    FenceAlways(cfg, run);
  }

  ghost function Completed(db: Db): set<nat> {
    set n | 0 <= n < |db.history| && db.history[n].outcome.Success?
  }

  ghost function GivenUp(db: Db): set<nat> {
    set n | 0 <= n < |db.history| && db.history[n].outcome.Failed?
  }

  // Rows inserted are rows live plus rows completed plus rows failed; a row that is gone left
  // exactly one history row; and its attempt, like a live row's, is the number of times it was
  // handed out, attempts 1, 2, 3 and so on.
  lemma {:induction false} Conservation(cfg: Config, run: seq<Event>)
    ensures var db := Exec(cfg, run).db;
            db.nextId == |db.rows| + |Completed(db)| + |GivenUp(db)|
    ensures var db := Exec(cfg, run).db;
            forall id | 0 <= id < db.nextId && id !in db.rows ::
              exists n :: 0 <= n < |db.history| && db.history[n].rowId == id
                          && forall m | 0 <= m < |db.history| && db.history[m].rowId == id :: m == n
    ensures var s := Exec(cfg, run);
            forall id, a: nat | id in s.db.rows :: Granted(s.grants, id, a) <==> 1 <= a <= s.db.rows[id].attempt
    ensures var s := Exec(cfg, run);
            forall n, a: nat | 0 <= n < |s.db.history| ::
              Granted(s.grants, s.db.history[n].rowId, a) <==> 1 <= a <= s.db.history[n].attempt
  {
    FenceAlways(cfg, run);
    var s := Exec(cfg, run);
    HistorySplits(s.db);
    forall id | 0 <= id < s.db.nextId && id !in s.db.rows
      ensures exists n :: 0 <= n < |s.db.history| && s.db.history[n].rowId == id
                          && forall m | 0 <= m < |s.db.history| && s.db.history[m].rowId == id :: m == n
    {
      assert InHistory(s.db, id);
      var n :| 0 <= n < |s.db.history| && s.db.history[n].rowId == id;
      assert forall m | 0 <= m < |s.db.history| && s.db.history[m].rowId == id :: m == n;
    }
  }

  lemma HistorySplits(db: Db)
    ensures |Completed(db)| + |GivenUp(db)| == |db.history|
  {
    Below(|db.history|);
    assert Completed(db) + GivenUp(db) == Range(|db.history|);
    assert Completed(db) !! GivenUp(db);
  }

  ghost function Range(n: nat): set<nat> {
    if n == 0 then {} else Range(n - 1) + {n - 1}
  }

  lemma {:induction false} Below(n: nat)
    ensures forall i: nat :: i in Range(n) <==> i < n
    ensures |Range(n)| == n
  {
    if n > 0 {
      Below(n - 1);
    }
  }

  // Once a later attempt of a row has been handed out, extending, completing, retrying and failing
  // the earlier one changes nothing, now or at any later time.
  lemma {:induction false} OutdatedTaskIsInert(cfg: Config, run: seq<Event>, outdated: Task, newer: Task,
                                               worker: WorkerId,
                            seconds: int, outcome: Outcome, now: Time)
    requires outdated in Exec(cfg, run).grants && newer in Exec(cfg, run).grants
    requires outdated.id == newer.id && outdated.attempt < newer.attempt
    ensures var db := Exec(cfg, run).db;
            && ExtendLease(db, outdated, worker, seconds, now) == db
            && Close(db, outdated, outcome) == db
            && Retry(db, outdated, seconds, now) == db
  {
    FenceAlways(cfg, run);
    var s := Exec(cfg, run);
    assert GrantFits(s.db, newer);
  }

  // A worker that leaves gives back all its rows: each can be claimed as if it had never been leased.
  lemma LeavingFrees(cfg: Config, s: Sys, w: WorkerId, id: nat, query: Query)
    requires id in s.db.rows
    ensures var before, after := s.db.rows[id], Next(cfg, s, Leave(w)).db;
            && w !in Next(cfg, s, Leave(w)).workers
            && id in after.rows && after.rows[id].leaseOwner != Some(w)
            && (before.leaseOwner != Some(w) ==> after.rows[id] == before)
            && (before.leaseOwner == Some(w) ==>
                  (Eligible(after.rows[id], query, s.now) <==> Eligible(before.(leasedUntil := None), query, s.now)))
  {
  }

  // One that gives back the tasks it has not finished frees exactly their rows, as far as it owns them.
  lemma ReleasingFrees(cfg: Config, s: Sys, w: WorkerId, id: nat)
    requires id in s.db.rows && Busy(s, w)
    ensures var before, after := s.db.rows[id], Next(cfg, s, ReleaseTasks(w)).db;
            && w !in Next(cfg, s, ReleaseTasks(w)).workers
            && id in after.rows
            && after.rows[id] == if before.leaseOwner == Some(w) && (exists task :: task in s.workers[w].queue && task.id == id)
                                 then before.(leaseOwner := None, leasedUntil := None) else before
  {
  }

  ghost predicate OwnedBy(db: Db, workers: set<WorkerId>) {
    forall id | id in db.rows && db.rows[id].leaseOwner.Some? :: db.rows[id].leaseOwner.value in workers
  }

  lemma {:induction false} FoldKeepsOwners(db: Db, items: seq<Item>, workers: set<WorkerId>)
    requires OwnedBy(db, workers)
    ensures OwnedBy(Fold(db, items), workers)
  {
    if items != [] {
      FoldKeepsOwners(db, items[..|items| - 1], workers);
    }
  }

  lemma OwnersStep(cfg: Config, s: Sys, e: Event)
    requires OwnedBy(s.db, s.workers.Keys) && !e.Crash? && !e.ReleaseTasks?
    ensures OwnedBy(Next(cfg, s, e).db, Next(cfg, s, e).workers.Keys)
  {
    if e.Seed? {
      FoldKeepsOwners(s.db, Sorted(e.items), s.workers.Keys);
    } else if e.EnqueueDiscovered? && Busy(s, e.worker) && s.workers[e.worker].phase.Persisted? {
      FoldKeepsOwners(s.db, Sorted(s.workers[e.worker].phase.batch.discovered), s.workers.Keys);
    }
  }

  // As long as workers do not crash, every lease has a live owner: workers that leave take none along.
  lemma {:induction false} OwnersAreAlive(cfg: Config, run: seq<Event>)
    requires forall i: nat | i < |run| :: !run[i].Crash? && !run[i].ReleaseTasks?
    ensures OwnedBy(Exec(cfg, run).db, Exec(cfg, run).workers.Keys)
  {
    if run != [] {
      OwnersAreAlive(cfg, run[..|run| - 1]);
      OwnersStep(cfg, Exec(cfg, run[..|run| - 1]), run[|run| - 1]);
    }
  }
}
