// Drain termination. Workers add work while they drain; over a finite graph of entities, with
// extractions that either succeed or fail generically and with no worker or lease lost, a drain
// hands out a bounded number of tasks, takes a bounded number of steps, and cannot get stuck.
module DrainTermination {
  import opened Arithmetic
  import opened Types
  import opened Frontier
  import opened EnqueueOrder
  import opened Extraction
  import opened Workers
  import opened Fencing
  import opened DrainSoundness

  // The entities that the extraction of each entity discovers, in their order.
  type Graph = Key -> seq<Key>

  // `keys` is closed under the graph and lists no entity twice.
  ghost predicate FiniteGraph(graph: Graph, keys: seq<Key>) {
    && (forall i, j | 0 <= i < j < |keys| :: keys[i] != keys[j])
    && (forall key, found | key in keys && found in graph(key) :: found in keys)
  }

  // The discovered items name these entities, without asking for a refresh. Priorities and times may
  // be different at every extraction.
  ghost predicate Discovers(batch: Batch, found: seq<Key>) {
    && |batch.discovered| == |found|
    && (forall i | 0 <= i < |found| :: batch.discovered[i].key == found[i] && !batch.discovered[i].refreshExisting)
  }

  // The events of an undisturbed drain. Extractions find what the graph says; a generic error may
  // strike at any point, after enqueue (when complete raises) only if `late` is set; no lease that a
  // worker holds is allowed to run out.
  ghost predicate DrainStep(late: bool, graph: Graph, s: Sys, e: Event) {
    match e
    case Spawn(_) => true
    case Poll(_, _, _, _) => true
    case CheckLease(w, batch) => Busy(s, w) ==> Discovers(batch, graph(Head(s, w).key))
    case Heartbeat(_) => true
    case PersistBatch(_) => true
    case EnqueueDiscovered(_) => true
    case CompleteTask(_) => true
    case GenericError(w, _) => Busy(s, w) && s.workers[w].phase.Enqueued? ==> late
    case Tick(seconds) =>
      forall id | id in s.db.rows && s.db.rows[id].leasedUntil.Some? :: s.now + seconds <= s.db.rows[id].leasedUntil.value
    case _ => false
  }

  // A drain: a seeding, then the events of an undisturbed drain.
  ghost predicate Drain(cfg: Config, late: bool, graph: Graph, seeds: seq<Item>, run: seq<Event>) {
    && |run| > 0
    && (if |run| == 1 then run[0] == Seed(seeds)
        else Drain(cfg, late, graph, seeds, run[..|run| - 1])
             && DrainStep(late, graph, Exec(cfg, run[..|run| - 1]), run[|run| - 1]))
  }

  // A row is handed out at most this often.
  function Cap(cfg: Config): nat {
    Max(1, cfg.maxAttempts)
  }

  // The total length of the discovered lists of `keys`.
  function Links(graph: Graph, keys: seq<Key>): nat {
    if keys == [] then 0
    else Links(graph, keys[..|keys| - 1]) + |graph(keys[|keys| - 1])|
  }

  // ---------------------------------------------------------------- the invariant

  ghost predicate Idle(row: Row) {
    row.leaseOwner.None? && row.leasedUntil.None?
  }

  // The worker has the current attempt of the row in its queue and its lease is running.
  ghost predicate HeldBy(s: Sys, id: nat, w: WorkerId)
    requires id in s.db.rows
  {
    && s.db.rows[id].leaseOwner == Some(w)
    && s.db.rows[id].leasedUntil.Some? && s.db.rows[id].leasedUntil.value >= s.now
    && exists i: nat :: InQueue(s, w, i) && s.workers[w].queue[i].id == id
                        && s.workers[w].queue[i].attempt == s.db.rows[id].attempt
  }

  // A free row has an attempt left; any other row is in the hands of its owner.
  ghost predicate RowFits(cfg: Config, s: Sys, id: nat)
    requires id in s.db.rows
  {
    if s.db.rows[id].leaseOwner.None?
    then Idle(s.db.rows[id]) && s.db.rows[id].attempt < Cap(cfg)
    else s.db.rows[id].attempt <= Cap(cfg) && HeldBy(s, id, s.db.rows[id].leaseOwner.value)
  }

  // A queued task is the current attempt of a row leased to the worker.
  ghost predicate TaskFits(s: Sys, w: WorkerId, i: nat)
    requires InQueue(s, w, i)
  {
    var task := s.workers[w].queue[i];
    Owns(s.db, task, w) && s.db.rows[task.id].key == task.key
  }

  ghost predicate RowInv(cfg: Config, s: Sys) {
    && (forall id | id in s.db.rows :: RowFits(cfg, s, id))
    && (forall n | 0 <= n < |s.db.history| :: s.db.history[n].attempt <= Cap(cfg))
    && (forall w, i: nat | InQueue(s, w, i) :: TaskFits(s, w, i))
  }

  // Where the holder keeps the row.
  lemma HolderPosition(s: Sys, id: nat, w: WorkerId) returns (i: nat)
    requires id in s.db.rows && HeldBy(s, id, w)
    ensures InQueue(s, w, i) && s.workers[w].queue[i].id == id && s.workers[w].queue[i].attempt == s.db.rows[id].attempt
  {
    i :| InQueue(s, w, i) && s.workers[w].queue[i].id == id && s.workers[w].queue[i].attempt == s.db.rows[id].attempt;
  }

  // The task's discoveries are still to be enqueued.
  ghost predicate Unexpanded(s: Sys, w: WorkerId, i: nat)
    requires InQueue(s, w, i)
  {
    i > 0 || !s.workers[w].phase.Enqueued?
  }

  // How often the discoveries of an entity have been enqueued.
  ghost function Expanded(s: Sys, key: Key): nat {
    Often(s.expansions, key)
  }

  ghost function Often(some: seq<Key>, key: Key): nat {
    if some == [] then 0
    else Often(some[..|some| - 1], key) + if some[|some| - 1] == key then 1 else 0
  }

  // How often that can be, at most, when `attempts` hand-outs of its row have ended in an error.
  function Spent(late: bool, attempts: int): int {
    if late then attempts else 0
  }

  // ... and over all hand-outs of the row.
  function Repeats(cfg: Config, late: bool): nat {
    if late then Cap(cfg) else 1
  }

  ghost predicate TaskExpands(late: bool, s: Sys, w: WorkerId, i: nat)
    requires InQueue(s, w, i)
  {
    var task := s.workers[w].queue[i];
    if Unexpanded(s, w, i) then Expanded(s, task.key) <= Spent(late, task.attempt - 1)
    else 1 <= Expanded(s, task.key) <= Spent(late, task.attempt - 1) + 1
  }

  ghost predicate RowExpands(late: bool, keys: seq<Key>, s: Sys, row: Row) {
    row.key in keys && (Idle(row) ==> Expanded(s, row.key) <= Spent(late, row.attempt))
  }

  ghost predicate KeyExpands(cfg: Config, late: bool, keys: seq<Key>, s: Sys, key: Key) {
    && Expanded(s, key) <= Repeats(cfg, late)
    && (Expanded(s, key) > 0 ==> key in s.db.succeeded && key in keys)
  }

  // An entity is expanded from one row only: once it has been, it has been stored, and gets no row
  // any more. From that row it is expanded once for each hand-out that got as far.
  ghost predicate ExpandInv(cfg: Config, late: bool, graph: Graph, keys: seq<Key>, s: Sys) {
    && (forall key :: KeyExpands(cfg, late, keys, s, key))
    && (forall id | id in s.db.rows :: RowExpands(late, keys, s, s.db.rows[id]))
    && (forall w, i: nat | InQueue(s, w, i) :: TaskExpands(late, s, w, i))
    && BatchesFollow(graph, s)
  }

  ghost predicate BatchesFollow(graph: Graph, s: Sys) {
    forall w | w in s.workers && !s.workers[w].phase.Working? && s.workers[w].queue != [] ::
      Discovers(s.workers[w].phase.batch, graph(s.workers[w].queue[0].key))
  }

  // Completed entities have been expanded and are off the frontier for good.
  ghost predicate CompleteInv(s: Sys) {
    && (forall i, j | 0 <= i < j < |s.completions| :: s.completions[i].task.key != s.completions[j].task.key)
    && (forall c | c in s.completions :: Expanded(s, c.task.key) > 0 && !Live(s.db, c.task.key))
  }

  ghost predicate CountInv(graph: Graph, seeds: seq<Item>, s: Sys) {
    s.db.nextId <= |seeds| + Links(graph, s.expansions)
  }

  ghost predicate DrainInv(cfg: Config, late: bool, graph: Graph, keys: seq<Key>, seeds: seq<Item>, s: Sys) {
    && Inv(s) && RowInv(cfg, s) && ExpandInv(cfg, late, graph, keys, s) && CompleteInv(s) && CountInv(graph, seeds, s)
  }

  // ---------------------------------------------------------------- counting hand-outs

  ghost function Tokens(tasks: seq<Task>): set<(nat, nat)> {
    set i | 0 <= i < |tasks| :: (tasks[i].id, tasks[i].attempt)
  }

  ghost function Grid(ids: nat, attempts: nat): set<(nat, nat)> {
    if ids == 0 then {} else Grid(ids - 1, attempts) + Column(ids - 1, attempts)
  }

  ghost function Column(id: nat, attempts: nat): set<(nat, nat)> {
    if attempts == 0 then {} else Column(id, attempts - 1) + {(id, attempts)}
  }

  lemma {:induction false} ColumnSize(id: nat, attempts: nat)
    ensures |Column(id, attempts)| == attempts
    ensures forall p :: p in Column(id, attempts) <==> p.0 == id && 1 <= p.1 <= attempts
  {
    if attempts > 0 {
      ColumnSize(id, attempts - 1);
    }
  }

  lemma {:induction false} InGrid(ids: nat, attempts: nat)
    ensures forall p :: p in Grid(ids, attempts) <==> p.0 < ids && 1 <= p.1 <= attempts
  {
    if ids > 0 {
      InGrid(ids - 1, attempts);
      ColumnSize(ids - 1, attempts);
    }
  }

  lemma GridColumnDisjoint(id: nat, attempts: nat)
    ensures |Grid(id, attempts) + Column(id, attempts)| == |Grid(id, attempts)| + |Column(id, attempts)|
  {
    InGrid(id, attempts);
    ColumnSize(id, attempts);
    assert Grid(id, attempts) !! Column(id, attempts);
  }

  lemma {:induction false} GridSize(ids: nat, attempts: nat)
    ensures |Grid(ids, attempts)| == Times(ids, attempts)
  {
    if ids > 0 {
      GridSize(ids - 1, attempts);
      GridColumnDisjoint(ids - 1, attempts);
      ColumnSize(ids - 1, attempts);
    }
  }

  lemma {:induction false} TokensSize(tasks: seq<Task>)
    requires DistinctTokens(tasks)
    ensures |Tokens(tasks)| == |tasks|
  {
    if tasks != [] {
      var front, last := tasks[..|tasks| - 1], tasks[|tasks| - 1];
      TokensSize(front);
      assert forall i | 0 <= i < |front| :: front[i] == tasks[i];
      assert Tokens(tasks) == Tokens(front) + {(last.id, last.attempt)};
      assert (last.id, last.attempt) !in Tokens(front);
    }
  }

  // Distinct tokens of rows below `ids` with attempts 1..cap are few.
  lemma TokensFit(tasks: seq<Task>, ids: nat, cap: nat)
    requires DistinctTokens(tasks)
    requires forall i | 0 <= i < |tasks| :: tasks[i].id < ids && 1 <= tasks[i].attempt <= cap
    ensures |tasks| <= ids * cap
  {
    TokensSize(tasks);
    GridSize(ids, cap);
    TimesIsProduct(ids, cap);
    InGrid(ids, cap);
    SubsetSize(Tokens(tasks), Grid(ids, cap));
  }

  // ---------------------------------------------------------------- summing discovered lists

  function Drop(some: seq<Key>, key: Key): seq<Key> {
    if some == [] then []
    else Drop(some[..|some| - 1], key) + if some[|some| - 1] == key then [] else [some[|some| - 1]]
  }

  lemma OftenAppend(front: seq<Key>, last: Key, key: Key)
    ensures Often(front + [last], key) == Often(front, key) + if last == key then 1 else 0
  {
    assert (front + [last])[..|front|] == front;
  }

  lemma LinksAppend(graph: Graph, front: seq<Key>, last: Key)
    ensures Links(graph, front + [last]) == Links(graph, front) + |graph(last)|
  {
    assert (front + [last])[..|front|] == front;
  }

  lemma {:induction false} DropKeepsOthers(some: seq<Key>, key: Key, k: Key)
    ensures Often(Drop(some, key), k) == if k == key then 0 else Often(some, k)
  {
    if some != [] {
      var front, last := some[..|some| - 1], some[|some| - 1];
      DropKeepsOthers(front, key, k);
      assert some == front + [last];
      OftenAppend(front, last, k);
      OftenAppend(Drop(front, key), last, k);
      assert last == key ==> Drop(some, key) == Drop(front, key);
    }
  }

  lemma {:induction false} DropLinks(graph: Graph, some: seq<Key>, key: Key)
    ensures Links(graph, some) == Links(graph, Drop(some, key)) + Times(Often(some, key), |graph(key)|)
  {
    if some != [] {
      var front, last := some[..|some| - 1], some[|some| - 1];
      DropLinks(graph, front, key);
      assert some == front + [last];
      OftenAppend(front, last, key);
      LinksAppend(graph, front, last);
      if last != key {
        LinksAppend(graph, Drop(front, key), last);
      } else {
        assert Drop(some, key) == Drop(front, key);
      }
    }
  }

  lemma {:induction false} TimesAdds(n: nat, a: nat, b: nat)
    ensures Times(n, a + b) == Times(n, a) + Times(n, b)
  {
    if n > 0 {
      TimesAdds(n - 1, a, b);
    }
  }

  lemma {:induction false} TimesGrows(n: nat, m: nat, a: nat)
    requires n <= m
    ensures Times(n, a) <= Times(m, a)
  {
    if n < m {
      TimesGrows(n, m - 1, a);
    }
  }

  ghost predicate ListedAtMost(some: seq<Key>, keys: seq<Key>, n: nat, key: Key) {
    Often(some, key) <= n && (Often(some, key) > 0 ==> key in keys)
  }

  // Entities of `keys`, each listed at most n times, discover at most n times what `keys` discover.
  lemma {:induction false} SomeLinksFit(graph: Graph, some: seq<Key>, keys: seq<Key>, n: nat)
    requires forall i, j | 0 <= i < j < |keys| :: keys[i] != keys[j]
    requires forall key :: ListedAtMost(some, keys, n, key)
    ensures Links(graph, some) <= Times(n, Links(graph, keys))
    decreases |keys|
  {
    if some != [] {
      assert ListedAtMost(some, keys, n, some[|some| - 1]) && some[|some| - 1] in keys;
    }
    if keys != [] {
      var front, last := keys[..|keys| - 1], keys[|keys| - 1];
      var rest := Drop(some, last);
      assert keys == front + [last];
      forall key
        ensures ListedAtMost(rest, front, n, key)
      {
        assert ListedAtMost(some, keys, n, key);
        DropKeepsOthers(some, last, key);
      }
      SomeLinksFit(graph, rest, front, n);
      LinksAppend(graph, front, last);
      DropLinks(graph, some, last);
      TimesAdds(n, Links(graph, front), |graph(last)|);
      assert ListedAtMost(some, keys, n, last);
      TimesGrows(Often(some, last), n, |graph(last)|);
    }
  }

  // ---------------------------------------------------------------- rows and holders, step by step

  // The state after a claim that takes the rows of `order`.
  ghost function Taken(cfg: Config, s: Sys, w: WorkerId, query: Query, order: seq<nat>): Sys
    requires w in s.workers && Lists(order, Chosen(s.db, query, s.now))
  {
    var db := Claim(s.db, w, query, cfg.lease, s.now);
    var tasks := TasksOf(db, order);
    s.(db := db, workers := s.workers[w := s.workers[w].(phase := Working, queue := tasks)], grants := s.grants + tasks)
  }

  lemma TakenRowFits(cfg: Config, s: Sys, w: WorkerId, query: Query, order: seq<nat>, id: nat)
    requires RowInv(cfg, s) && w in s.workers && s.workers[w].queue == []
    requires Lists(order, Chosen(s.db, query, s.now)) && id in s.db.rows
    ensures RowFits(cfg, Taken(cfg, s, w, query, order), id)
  {
    var after := Taken(cfg, s, w, query, order);
    assert RowFits(cfg, s, id);
    if id in Chosen(s.db, query, s.now) {
      var i :| 0 <= i < |order| && order[i] == id;
      assert InQueue(after, w, i) && after.workers[w].queue[i].id == id;
    } else if s.db.rows[id].leaseOwner.Some? {
      var i := HolderPosition(s, id, s.db.rows[id].leaseOwner.value);
      assert InQueue(after, s.db.rows[id].leaseOwner.value, i);
    }
  }

  lemma TakenTaskFits(cfg: Config, s: Sys, w: WorkerId, query: Query, order: seq<nat>, v: WorkerId, i: nat)
    requires RowInv(cfg, s) && w in s.workers && s.workers[w].queue == []
    requires Lists(order, Chosen(s.db, query, s.now)) && InQueue(Taken(cfg, s, w, query, order), v, i)
    ensures TaskFits(Taken(cfg, s, w, query, order), v, i)
  {
    if v != w {
      assert InQueue(s, v, i) && TaskFits(s, v, i);
      var id := s.workers[v].queue[i].id;
      assert RowFits(cfg, s, id) && HeldBy(s, id, v);
      assert id !in Chosen(s.db, query, s.now);
    }
  }

  lemma PollRows(cfg: Config, s: Sys, w: WorkerId, query: Query, order: seq<nat>)
    requires RowInv(cfg, s) && w in s.workers && s.workers[w].queue == []
    requires Lists(order, Chosen(s.db, query, s.now))
    ensures RowInv(cfg, Taken(cfg, s, w, query, order))
  {
    var after := Taken(cfg, s, w, query, order);
    forall id | id in after.db.rows
      ensures RowFits(cfg, after, id)
    {
      TakenRowFits(cfg, s, w, query, order, id);
    }
    forall v, i: nat | InQueue(after, v, i)
      ensures TaskFits(after, v, i)
    {
      TakenTaskFits(cfg, s, w, query, order, v, i);
    }
  }

  // The worker keeps its queue; leases of rows that are held may grow.
  ghost predicate LeasesGrow(before: Db, after: Db) {
    && after.rows.Keys == before.rows.Keys && after.history == before.history
    && (forall id | id in before.rows ::
          && after.rows[id].key == before.rows[id].key
          && after.rows[id].attempt == before.rows[id].attempt
          && after.rows[id].leaseOwner == before.rows[id].leaseOwner
          && (after.rows[id].leasedUntil == before.rows[id].leasedUntil
              || (before.rows[id].leaseOwner.Some? && after.rows[id].leasedUntil.Some?)))
  }

  ghost predicate SameQueues(before: Sys, after: Sys) {
    forall w, i: nat | InQueue(before, w, i) || InQueue(after, w, i) ::
      InQueue(before, w, i) && InQueue(after, w, i) && after.workers[w].queue[i] == before.workers[w].queue[i]
  }

  lemma StayRows(cfg: Config, s: Sys, after: Sys)
    requires RowInv(cfg, s) && SameQueues(s, after) && LeasesGrow(s.db, after.db)
    requires forall id | id in after.db.rows && after.db.rows[id].leasedUntil.Some? ::
               after.db.rows[id].leasedUntil.value >= after.now
    ensures RowInv(cfg, after)
  {
    forall id | id in after.db.rows
      ensures RowFits(cfg, after, id)
    {
      assert RowFits(cfg, s, id);
      if s.db.rows[id].leaseOwner.Some? {
        var i := HolderPosition(s, id, s.db.rows[id].leaseOwner.value);
        assert InQueue(after, s.db.rows[id].leaseOwner.value, i);
      }
    }
    forall w, i: nat | InQueue(after, w, i)
      ensures TaskFits(after, w, i)
    {
      assert InQueue(s, w, i) && TaskFits(s, w, i);
    }
  }

  // New rows are free, and there are at most as many as items.
  ghost predicate NewRowsFree(before: Db, after: Db, items: nat) {
    && (forall id | id in after.rows && id !in before.rows :: Idle(after.rows[id]) && after.rows[id].attempt == 0)
    && after.nextId <= before.nextId + items
  }

  lemma UpsertRows(db: Db, item: Item)
    requires Shape(db)
    ensures NewRowsFree(db, Upsert(db, item), 1)
  {
  }

  lemma FreeRowsAddUp(before: Db, middle: Db, after: Db, items: nat)
    requires NewRowsFree(before, middle, items) && NewRowsFree(middle, after, 1)
    requires SameLeases(before, middle) && SameLeases(middle, after)
    ensures NewRowsFree(before, after, items + 1)
  {
  }

  lemma {:induction false} FoldRows(db: Db, items: seq<Item>)
    requires Shape(db)
    ensures NewRowsFree(db, Fold(db, items), |items|)
  {
    if items != [] {
      var front := items[..|items| - 1];
      FoldRows(db, front);
      FoldSettles(db, front);
      FoldKeepsLeases(db, front);
      UpsertKeepsLeases(Fold(db, front), items[|items| - 1]);
      UpsertRows(Fold(db, front), items[|items| - 1]);
      FreeRowsAddUp(db, Fold(db, front), Fold(db, items), |front|);
    }
  }

  lemma EnqueueRows(db: Db, items: seq<Item>)
    requires Shape(db)
    ensures SameLeases(db, Upserts(db, items))
    ensures forall id | id in Upserts(db, items).rows && id !in db.rows ::
              Idle(Upserts(db, items).rows[id]) && Upserts(db, items).rows[id].attempt == 0
    ensures Upserts(db, items).nextId <= db.nextId + |items|
  {
    SortedSame(items);
    FoldKeepsLeases(db, Sorted(items));
    FoldRows(db, Sorted(items));
  }

  lemma EnqueueKeepsRows(cfg: Config, s: Sys, after: Sys, items: seq<Item>)
    requires FenceInv(s) && RowInv(cfg, s) && SameQueues(s, after) && after.now == s.now && after.db == Upserts(s.db, items)
    ensures RowInv(cfg, after)
  {
    EnqueueRows(s.db, items);
    UpsertsSettle(s.db, items);
    forall id | id in after.db.rows
      ensures RowFits(cfg, after, id)
    {
      if id in s.db.rows {
        assert RowFits(cfg, s, id);
        if s.db.rows[id].leaseOwner.Some? {
          var i := HolderPosition(s, id, s.db.rows[id].leaseOwner.value);
          assert InQueue(after, s.db.rows[id].leaseOwner.value, i);
        }
      }
    }
    forall w, i: nat | InQueue(after, w, i)
      ensures TaskFits(after, w, i)
    {
      assert InQueue(s, w, i) && TaskFits(s, w, i);
    }
  }

  // What becomes of the row of a finished task: it is closed, or free again with an attempt left.
  ghost predicate Finished(cfg: Config, s: Sys, w: WorkerId, after: Sys)
    requires Busy(s, w)
  {
    && after.workers == Advance(s, w) && after.now == s.now
    && (|| (exists outcome :: after.db == Close(s.db, Head(s, w), outcome))
        || (Head(s, w).attempt < cfg.maxAttempts
            && after.db == Retry(s.db, Head(s, w), RetryDelay(Head(s, w).attempt), s.now)))
  }

  lemma FinishedRowFits(cfg: Config, s: Sys, w: WorkerId, after: Sys, id: nat)
    requires RowInv(cfg, s) && Busy(s, w) && Finished(cfg, s, w, after) && id in after.db.rows
    ensures RowFits(cfg, after, id)
  {
    assert InQueue(s, w, 0) && TaskFits(s, w, 0);
    assert RowFits(cfg, s, id);
    if id != Head(s, w).id && s.db.rows[id].leaseOwner.Some? {
      var v := s.db.rows[id].leaseOwner.value;
      var i := HolderPosition(s, id, v);
      if v == w {
        assert InQueue(after, w, i - 1) && after.workers[w].queue[i - 1] == s.workers[w].queue[i];
      } else {
        assert InQueue(after, v, i);
      }
    }
  }

  lemma FinishedTaskFits(cfg: Config, s: Sys, w: WorkerId, after: Sys, v: WorkerId, i: nat)
    requires QueueInv(s) && RowInv(cfg, s) && Busy(s, w) && Finished(cfg, s, w, after) && InQueue(after, v, i)
    ensures TaskFits(after, v, i)
  {
    assert InQueue(s, w, 0) && TaskFits(s, w, 0);
    var j: nat := if v == w then i + 1 else i;
    assert InQueue(s, v, j) && TaskFits(s, v, j) && after.workers[v].queue[i] == s.workers[v].queue[j];
    assert !SameToken(s.workers[v].queue[j], s.workers[w].queue[0]);
    assert s.workers[v].queue[j].id != Head(s, w).id;
  }

  lemma FinishRows(cfg: Config, s: Sys, w: WorkerId, after: Sys)
    requires QueueInv(s) && RowInv(cfg, s) && Busy(s, w) && Finished(cfg, s, w, after)
    ensures RowInv(cfg, after)
  {
    forall id | id in after.db.rows
      ensures RowFits(cfg, after, id)
    {
      FinishedRowFits(cfg, s, w, after, id);
    }
    forall v, i: nat | InQueue(after, v, i)
      ensures TaskFits(after, v, i)
    {
      FinishedTaskFits(cfg, s, w, after, v, i);
    }
    assert InQueue(s, w, 0) && TaskFits(s, w, 0) && RowFits(cfg, s, Head(s, w).id);
  }

  lemma PollStepRows(cfg: Config, s: Sys, e: Event)
    requires RowInv(cfg, s) && e.Poll?
    ensures RowInv(cfg, Next(cfg, s, e))
  {
    if e.worker in s.workers && s.workers[e.worker].queue == [] {
      var query := Query(Some(s.workers[e.worker].source), e.limit, e.backfillOnly);
      if Lists(e.order, Chosen(s.db, query, s.now)) {
        PollRows(cfg, s, e.worker, query, e.order);
      }
    }
  }

  lemma EndStepRows(cfg: Config, s: Sys, e: Event)
    requires QueueInv(s) && RowInv(cfg, s) && (e.CompleteTask? || e.GenericError?)
    ensures RowInv(cfg, Next(cfg, s, e))
  {
    if Busy(s, e.worker) && (e.GenericError? || s.workers[e.worker].phase.Enqueued?) {
      FinishRows(cfg, s, e.worker, Next(cfg, s, e));
    }
  }

  lemma RowStep(cfg: Config, late: bool, graph: Graph, s: Sys, e: Event)
    requires FenceInv(s) && QueueInv(s) && RowInv(cfg, s) && DrainStep(late, graph, s, e)
    ensures RowInv(cfg, Next(cfg, s, e))
  {
    if e.Poll? {
      PollStepRows(cfg, s, e);
    } else if e.EnqueueDiscovered? {
      if Busy(s, e.worker) && s.workers[e.worker].phase.Persisted? {
        EnqueueKeepsRows(cfg, s, Next(cfg, s, e), s.workers[e.worker].phase.batch.discovered);
      }
    } else if e.CompleteTask? || e.GenericError? {
      EndStepRows(cfg, s, e);
    } else {
      StayStep(cfg, late, graph, s, e);
      StayRows(cfg, s, Next(cfg, s, e));
    }
  }

  lemma StayStep(cfg: Config, late: bool, graph: Graph, s: Sys, e: Event)
    requires QueueInv(s) && RowInv(cfg, s) && DrainStep(late, graph, s, e)
    requires e.Spawn? || e.CheckLease? || e.Heartbeat? || e.PersistBatch? || e.Tick?
    ensures SameQueues(s, Next(cfg, s, e)) && LeasesGrow(s.db, Next(cfg, s, e).db)
    ensures var after := Next(cfg, s, e);
            forall id | id in after.db.rows && after.db.rows[id].leasedUntil.Some? ::
              after.db.rows[id].leasedUntil.value >= after.now
  {
    forall id | id in s.db.rows && s.db.rows[id].leasedUntil.Some?
      ensures s.db.rows[id].leasedUntil.value >= s.now
    {
      assert RowFits(cfg, s, id);
    }
    match e
    case Spawn(_) | PersistBatch(_) | Tick(_) =>
    case CheckLease(w, _) => LeaseStepStays(cfg, s, e, w);
    case Heartbeat(w) => LeaseStepStays(cfg, s, e, w);
  }

  lemma LeaseStepStays(cfg: Config, s: Sys, e: Event, w: WorkerId)
    requires RowInv(cfg, s) && (e == Heartbeat(w) || (e.CheckLease? && e.worker == w))
    requires forall id | id in s.db.rows && s.db.rows[id].leasedUntil.Some? :: s.db.rows[id].leasedUntil.value >= s.now
    ensures SameQueues(s, Next(cfg, s, e)) && LeasesGrow(s.db, Next(cfg, s, e).db) && Next(cfg, s, e).now == s.now
    ensures var after := Next(cfg, s, e);
            forall id | id in after.db.rows && after.db.rows[id].leasedUntil.Some? ::
              after.db.rows[id].leasedUntil.value >= after.now
  {
    if Busy(s, w) {
      assert InQueue(s, w, 0) && TaskFits(s, w, 0);
    }
  }

  // ---------------------------------------------------------------- expansions, step by step

  lemma {:induction false} FoldedRowsAreNeeded(db: Db, items: seq<Item>)
    requires Shape(db)
    ensures forall id | id in Fold(db, items).rows && id !in db.rows ::
              var key := Fold(db, items).rows[id].key;
              exists item :: item in items && item.key == key && !Skipped(db, item)
  {
    if items != [] {
      var front, last := items[..|items| - 1], items[|items| - 1];
      FoldedRowsAreNeeded(db, front);
      FoldSettles(db, front);
      var middle, after := Fold(db, front), Fold(db, items);
      forall id | id in after.rows && id !in db.rows
        ensures exists item :: item in items && item.key == after.rows[id].key && !Skipped(db, item)
      {
        if id in middle.rows {
          var item :| item in front && item.key == middle.rows[id].key && !Skipped(db, item);
          assert item in items;
        } else {
          assert last in items && !Skipped(db, last);
        }
      }
    }
  }

  lemma NewRowsAreNeeded(db: Db, items: seq<Item>)
    requires Shape(db)
    ensures forall id | id in Upserts(db, items).rows && id !in db.rows ::
              var key := Upserts(db, items).rows[id].key;
              exists item :: item in items && item.key == key && !Skipped(db, item)
  {
    SortedSame(items);
    FoldedRowsAreNeeded(db, Sorted(items));
  }

  lemma TakenExpands(cfg: Config, late: bool, graph: Graph, keys: seq<Key>, s: Sys, w: WorkerId, query: Query,
                     order: seq<nat>)
    requires RowInv(cfg, s) && ExpandInv(cfg, late, graph, keys, s)
    requires w in s.workers && s.workers[w].queue == [] && Lists(order, Chosen(s.db, query, s.now))
    ensures ExpandInv(cfg, late, graph, keys, Taken(cfg, s, w, query, order))
  {
    var after := Taken(cfg, s, w, query, order);
    forall key
      ensures KeyExpands(cfg, late, keys, after, key)
    {
      assert KeyExpands(cfg, late, keys, s, key);
    }
    forall id | id in after.db.rows
      ensures RowExpands(late, keys, after, after.db.rows[id])
    {
      assert id in s.db.rows && RowExpands(late, keys, s, s.db.rows[id]);
    }
    forall v, i: nat | InQueue(after, v, i)
      ensures TaskExpands(late, after, v, i)
    {
      if v == w {
        assert order[i] in Chosen(s.db, query, s.now);
        assert RowFits(cfg, s, order[i]) && Idle(s.db.rows[order[i]]);
        assert RowExpands(late, keys, s, s.db.rows[order[i]]);
      } else {
        assert InQueue(s, v, i) && TaskExpands(late, s, v, i);
      }
    }
  }

  // Two queued tasks for one entity are the same task.
  lemma OneTaskForEachEntity(cfg: Config, s: Sys, v: WorkerId, i: nat, w: WorkerId, j: nat)
    requires FenceInv(s) && QueueInv(s) && RowInv(cfg, s) && InQueue(s, v, i) && InQueue(s, w, j)
    requires s.workers[v].queue[i].key == s.workers[w].queue[j].key
    ensures v == w && i == j
  {
    assert TaskFits(s, v, i) && TaskFits(s, w, j);
    assert SameToken(s.workers[v].queue[i], s.workers[w].queue[j]);
  }

  // A worker past persist: its entity is stored, and has been expanded no more often than its row
  // was handed out before.
  lemma PersistedHead(cfg: Config, late: bool, graph: Graph, keys: seq<Key>, s: Sys, w: WorkerId)
    requires Inv(s) && RowInv(cfg, s) && ExpandInv(cfg, late, graph, keys, s) && Busy(s, w) && s.workers[w].phase.Persisted?
    ensures var task := Head(s, w);
            && task.key in s.db.succeeded && task.key in keys && Discovers(s.workers[w].phase.batch, graph(task.key))
            && 1 <= task.attempt <= Cap(cfg) && Expanded(s, task.key) <= Spent(late, task.attempt - 1)
            && task.id in s.db.rows && s.db.rows[task.id].key == task.key && s.db.rows[task.id].leaseOwner.Some?
  {
    var batch := s.workers[w].phase.batch;
    assert InQueue(s, w, 0) && TaskFits(s, w, 0) && TaskExpands(late, s, w, 0);
    assert RowFits(cfg, s, Head(s, w).id) && RowExpands(late, keys, s, s.db.rows[Head(s, w).id]);
    assert GrantFits(s.db, Head(s, w));
    assert PhaseFacts(s, s.workers[w]);
    var e :| e in batch.entities && e.key == Head(s, w).key && e.hasRawPayload;
    assert Head(s, w).key in EntityKeys(batch);
  }

  // Inserted rows belong to entities of the graph that have not been stored.
  lemma InsertedRow(graph: Graph, keys: seq<Key>, db: Db, batch: Batch, key: Key, id: nat)
    requires Shape(db) && FiniteGraph(graph, keys) && key in keys && Discovers(batch, graph(key))
    requires id in Upserts(db, batch.discovered).rows && id !in db.rows
    ensures var added := Upserts(db, batch.discovered).rows[id].key; added in keys && added !in db.succeeded
  {
    NewRowsAreNeeded(db, batch.discovered);
    var item :| item in batch.discovered && item.key == Upserts(db, batch.discovered).rows[id].key && !Skipped(db, item);
    var i :| 0 <= i < |batch.discovered| && batch.discovered[i] == item;
    assert graph(key)[i] == item.key;
  }

  lemma OneMoreExpansion(s: Sys, w: WorkerId, key: Key)
    requires Busy(s, w) && s.workers[w].phase.Persisted?
    ensures Expanded(DoEnqueue(s, w), key) == Expanded(s, key) + if key == Head(s, w).key then 1 else 0
  {
    OftenAppend(s.expansions, Head(s, w).key, key);
  }

  lemma EnqueuedKeyExpands(cfg: Config, late: bool, graph: Graph, keys: seq<Key>, s: Sys, w: WorkerId, key: Key)
    requires Inv(s) && RowInv(cfg, s) && ExpandInv(cfg, late, graph, keys, s)
    requires Busy(s, w) && s.workers[w].phase.Persisted?
    ensures KeyExpands(cfg, late, keys, DoEnqueue(s, w), key)
  {
    assert KeyExpands(cfg, late, keys, s, key);
    PersistedHead(cfg, late, graph, keys, s, w);
    UpsertsSettle(s.db, s.workers[w].phase.batch.discovered);
    OneMoreExpansion(s, w, key);
  }

  lemma EnqueuedRowExpands(cfg: Config, late: bool, graph: Graph, keys: seq<Key>, s: Sys, w: WorkerId, id: nat)
    requires Inv(s) && RowInv(cfg, s) && ExpandInv(cfg, late, graph, keys, s) && FiniteGraph(graph, keys)
    requires Busy(s, w) && s.workers[w].phase.Persisted? && id in DoEnqueue(s, w).db.rows
    ensures RowExpands(late, keys, DoEnqueue(s, w), DoEnqueue(s, w).db.rows[id])
  {
    var batch, key := s.workers[w].phase.batch, DoEnqueue(s, w).db.rows[id].key;
    PersistedHead(cfg, late, graph, keys, s, w);
    OneMoreExpansion(s, w, key);
    assert KeyExpands(cfg, late, keys, s, key);
    if id in s.db.rows {
      UpsertsSettle(s.db, batch.discovered);
      EnqueueRows(s.db, batch.discovered);
      assert RowExpands(late, keys, s, s.db.rows[id]);
      assert id == Head(s, w).id || s.db.rows[id].key != Head(s, w).key;
    } else {
      EnqueueRows(s.db, batch.discovered);
      InsertedRow(graph, keys, s.db, batch, Head(s, w).key, id);
    }
  }

  lemma EnqueuedTaskExpands(cfg: Config, late: bool, graph: Graph, keys: seq<Key>, s: Sys, w: WorkerId, v: WorkerId,
                            i: nat)
    requires Inv(s) && RowInv(cfg, s) && ExpandInv(cfg, late, graph, keys, s)
    requires Busy(s, w) && s.workers[w].phase.Persisted? && InQueue(DoEnqueue(s, w), v, i)
    ensures TaskExpands(late, DoEnqueue(s, w), v, i)
  {
    assert InQueue(s, w, 0) && InQueue(s, v, i) && TaskExpands(late, s, v, i);
    OneMoreExpansion(s, w, s.workers[v].queue[i].key);
    if s.workers[v].queue[i].key == Head(s, w).key {
      OneTaskForEachEntity(cfg, s, v, i, w, 0);
    }
  }

  lemma EnqueueExpands(cfg: Config, late: bool, graph: Graph, keys: seq<Key>, s: Sys, w: WorkerId)
    requires Inv(s) && RowInv(cfg, s) && ExpandInv(cfg, late, graph, keys, s) && FiniteGraph(graph, keys)
    requires Busy(s, w) && s.workers[w].phase.Persisted?
    ensures ExpandInv(cfg, late, graph, keys, DoEnqueue(s, w))
  {
    var after := DoEnqueue(s, w);
    forall key
      ensures KeyExpands(cfg, late, keys, after, key)
    {
      EnqueuedKeyExpands(cfg, late, graph, keys, s, w, key);
    }
    forall id | id in after.db.rows
      ensures RowExpands(late, keys, after, after.db.rows[id])
    {
      EnqueuedRowExpands(cfg, late, graph, keys, s, w, id);
    }
    forall v, i: nat | InQueue(after, v, i)
      ensures TaskExpands(late, after, v, i)
    {
      EnqueuedTaskExpands(cfg, late, graph, keys, s, w, v, i);
    }
  }

  lemma FinishedRowExpands(cfg: Config, late: bool, graph: Graph, keys: seq<Key>, s: Sys, w: WorkerId, after: Sys,
                           id: nat)
    requires FenceInv(s) && QueueInv(s) && RowInv(cfg, s) && ExpandInv(cfg, late, graph, keys, s)
    requires Busy(s, w) && Finished(cfg, s, w, after) && after.expansions == s.expansions && id in after.db.rows
    requires s.workers[w].phase.Enqueued? && Head(s, w).id in after.db.rows ==> late
    ensures RowExpands(late, keys, after, after.db.rows[id])
  {
    assert InQueue(s, w, 0) && TaskFits(s, w, 0) && TaskExpands(late, s, w, 0);
    assert id in s.db.rows && RowExpands(late, keys, s, s.db.rows[id]);
    assert GrantFits(s.db, Head(s, w));
  }

  lemma FinishExpands(cfg: Config, late: bool, graph: Graph, keys: seq<Key>, s: Sys, w: WorkerId, after: Sys)
    requires FenceInv(s) && QueueInv(s) && RowInv(cfg, s) && ExpandInv(cfg, late, graph, keys, s)
    requires Busy(s, w) && Finished(cfg, s, w, after) && after.expansions == s.expansions && after.db.succeeded == s.db.succeeded
    requires s.workers[w].phase.Enqueued? && Head(s, w).id in after.db.rows ==> late
    ensures ExpandInv(cfg, late, graph, keys, after)
  {
    forall key
      ensures KeyExpands(cfg, late, keys, after, key)
    {
      assert KeyExpands(cfg, late, keys, s, key);
    }
    forall id | id in after.db.rows
      ensures RowExpands(late, keys, after, after.db.rows[id])
    {
      FinishedRowExpands(cfg, late, graph, keys, s, w, after, id);
    }
    forall v, i: nat | InQueue(after, v, i)
      ensures TaskExpands(late, after, v, i)
    {
      var j: nat := if v == w then i + 1 else i;
      assert InQueue(s, v, j) && TaskExpands(late, s, v, j);
    }
  }

  lemma PollExpands(cfg: Config, late: bool, graph: Graph, keys: seq<Key>, s: Sys, e: Event)
    requires RowInv(cfg, s) && ExpandInv(cfg, late, graph, keys, s) && e.Poll?
    ensures ExpandInv(cfg, late, graph, keys, Next(cfg, s, e))
  {
    if e.worker in s.workers && s.workers[e.worker].queue == [] {
      var query := Query(Some(s.workers[e.worker].source), e.limit, e.backfillOnly);
      if Lists(e.order, Chosen(s.db, query, s.now)) {
        TakenExpands(cfg, late, graph, keys, s, e.worker, query, e.order);
      }
    }
  }

  lemma EndExpands(cfg: Config, late: bool, graph: Graph, keys: seq<Key>, s: Sys, e: Event)
    requires FenceInv(s) && QueueInv(s) && RowInv(cfg, s) && ExpandInv(cfg, late, graph, keys, s)
    requires DrainStep(late, graph, s, e) && (e.CompleteTask? || e.GenericError?)
    ensures ExpandInv(cfg, late, graph, keys, Next(cfg, s, e))
  {
    if Busy(s, e.worker) && (e.GenericError? || s.workers[e.worker].phase.Enqueued?) {
      assert InQueue(s, e.worker, 0) && TaskFits(s, e.worker, 0);
      FinishExpands(cfg, late, graph, keys, s, e.worker, Next(cfg, s, e));
    }
  }

  lemma ExpandStep(cfg: Config, late: bool, graph: Graph, keys: seq<Key>, s: Sys, e: Event)
    requires Inv(s) && RowInv(cfg, s) && ExpandInv(cfg, late, graph, keys, s) && FiniteGraph(graph, keys) && DrainStep(late, graph, s, e)
    ensures ExpandInv(cfg, late, graph, keys, Next(cfg, s, e))
  {
    if e.Poll? {
      PollExpands(cfg, late, graph, keys, s, e);
    } else if e.EnqueueDiscovered? {
      if Busy(s, e.worker) && s.workers[e.worker].phase.Persisted? {
        EnqueueExpands(cfg, late, graph, keys, s, e.worker);
      }
    } else if e.CompleteTask? || e.GenericError? {
      EndExpands(cfg, late, graph, keys, s, e);
    } else {
      StayStep(cfg, late, graph, s, e);
      PhasesStay(cfg, late, graph, s, e);
      StayExpands(cfg, late, graph, keys, s, Next(cfg, s, e));
    }
  }

  ghost predicate PhasesKept(graph: Graph, s: Sys, after: Sys) {
    && BatchesFollow(graph, after)
    && after.expansions == s.expansions && s.db.succeeded <= after.db.succeeded
    && forall v | v in s.workers && v in after.workers && s.workers[v].queue != [] ::
         after.workers[v].phase.Enqueued? == s.workers[v].phase.Enqueued?
  }

  lemma CheckKeepsPhases(cfg: Config, late: bool, graph: Graph, s: Sys, w: WorkerId, batch: Batch)
    requires RowInv(cfg, s) && BatchesFollow(graph, s) && DrainStep(late, graph, s, CheckLease(w, batch))
    ensures PhasesKept(graph, s, Next(cfg, s, CheckLease(w, batch)))
  {
    if Busy(s, w) {
      assert InQueue(s, w, 0) && TaskFits(s, w, 0);
    }
  }

  lemma PhasesStay(cfg: Config, late: bool, graph: Graph, s: Sys, e: Event)
    requires QueueInv(s) && RowInv(cfg, s) && BatchesFollow(graph, s) && DrainStep(late, graph, s, e)
    requires e.Spawn? || e.CheckLease? || e.Heartbeat? || e.PersistBatch? || e.Tick?
    ensures PhasesKept(graph, s, Next(cfg, s, e))
  {
    if e.CheckLease? {
      CheckKeepsPhases(cfg, late, graph, s, e.worker, e.batch);
    }
  }

  lemma StayExpands(cfg: Config, late: bool, graph: Graph, keys: seq<Key>, s: Sys, after: Sys)
    requires ExpandInv(cfg, late, graph, keys, s) && SameQueues(s, after) && LeasesGrow(s.db, after.db) && PhasesKept(graph, s, after)
    ensures ExpandInv(cfg, late, graph, keys, after)
  {
    forall key
      ensures KeyExpands(cfg, late, keys, after, key)
    {
      assert KeyExpands(cfg, late, keys, s, key);
    }
    forall id | id in after.db.rows
      ensures RowExpands(late, keys, after, after.db.rows[id])
    {
      assert RowExpands(late, keys, s, s.db.rows[id]);
    }
    forall v, i: nat | InQueue(after, v, i)
      ensures TaskExpands(late, after, v, i)
    {
      assert InQueue(s, v, i) && TaskExpands(late, s, v, i);
    }
  }

  lemma EnqueueKeepsCompleted(cfg: Config, late: bool, graph: Graph, keys: seq<Key>, s: Sys, w: WorkerId)
    requires Inv(s) && RowInv(cfg, s) && ExpandInv(cfg, late, graph, keys, s) && CompleteInv(s) && FiniteGraph(graph, keys)
    requires Busy(s, w) && s.workers[w].phase.Persisted?
    ensures CompleteInv(DoEnqueue(s, w))
  {
    var after := DoEnqueue(s, w);
    PersistedHead(cfg, late, graph, keys, s, w);
    UpsertsSettle(s.db, s.workers[w].phase.batch.discovered);
    forall c | c in s.completions
      ensures Expanded(after, c.task.key) > 0
      ensures forall id | id in after.db.rows :: after.db.rows[id].key != c.task.key
    {
      OneMoreExpansion(s, w, c.task.key);
      assert KeyExpands(cfg, late, keys, s, c.task.key);
      forall id | id in after.db.rows
        ensures after.db.rows[id].key != c.task.key
      {
        if id !in s.db.rows {
          InsertedRow(graph, keys, s.db, s.workers[w].phase.batch, Head(s, w).key, id);
        }
      }
    }
  }

  lemma LogsStay(cfg: Config, s: Sys, e: Event)
    requires !e.EnqueueDiscovered? && !e.CompleteTask?
    ensures Next(cfg, s, e).completions == s.completions && Next(cfg, s, e).expansions == s.expansions
  {
  }

  lemma CompletedGrows(before: Sys, after: Sys, c: Completion)
    requires CompleteInv(before) && after.expansions == before.expansions
    requires forall key | Live(after.db, key) :: Live(before.db, key)
    requires after.completions == before.completions + [c]
    requires Expanded(before, c.task.key) > 0 && Live(before.db, c.task.key) && !Live(after.db, c.task.key)
    ensures CompleteInv(after)
  {
  }

  lemma CompletionKeepsCompleted(cfg: Config, late: bool, graph: Graph, keys: seq<Key>, s: Sys, w: WorkerId)
    requires FenceInv(s) && RowInv(cfg, s) && ExpandInv(cfg, late, graph, keys, s) && CompleteInv(s)
    requires forall key | Live(DoComplete(s, w).db, key) :: Live(s.db, key)
    ensures CompleteInv(DoComplete(s, w))
  {
    var after := DoComplete(s, w);
    if after.completions != s.completions {
      CompletedIsGone(cfg, late, graph, keys, s, w);
      CompletedGrows(s, after, Completion(Head(s, w), s.workers[w].phase.batch));
    }
  }

  lemma CompleteStep(cfg: Config, late: bool, graph: Graph, keys: seq<Key>, s: Sys, e: Event)
    requires Inv(s) && RowInv(cfg, s) && ExpandInv(cfg, late, graph, keys, s) && CompleteInv(s)
    requires FiniteGraph(graph, keys) && DrainStep(late, graph, s, e)
    ensures CompleteInv(Next(cfg, s, e))
  {
    if e.EnqueueDiscovered? {
      if Busy(s, e.worker) && s.workers[e.worker].phase.Persisted? {
        EnqueueKeepsCompleted(cfg, late, graph, keys, s, e.worker);
      }
    } else {
      RowsShrink(cfg, s, e);
      LiveShrinks(s.db, Next(cfg, s, e).db);
      if e.CompleteTask? {
        CompletionKeepsCompleted(cfg, late, graph, keys, s, e.worker);
      } else {
        LogsStay(cfg, s, e);
      }
    }
  }

  lemma LiveShrinks(before: Db, after: Db)
    requires after.rows.Keys <= before.rows.Keys
    requires forall id | id in after.rows :: after.rows[id].key == before.rows[id].key
    ensures forall key | Live(after, key) :: Live(before, key)
  {
    forall key | Live(after, key)
      ensures Live(before, key)
    {
      var id :| id in after.rows && after.rows[id].key == key;
      assert before.rows[id].key == key;
    }
  }

  lemma CompletedIsGone(cfg: Config, late: bool, graph: Graph, keys: seq<Key>, s: Sys, w: WorkerId)
    requires FenceInv(s) && RowInv(cfg, s) && ExpandInv(cfg, late, graph, keys, s) && Busy(s, w) && s.workers[w].phase.Enqueued?
    ensures Live(s.db, Head(s, w).key) && Expanded(s, Head(s, w).key) > 0
    ensures !Live(DoComplete(s, w).db, Head(s, w).key)
  {
    assert InQueue(s, w, 0) && TaskFits(s, w, 0) && TaskExpands(late, s, w, 0);
  }

  lemma NoRowsAdded(cfg: Config, s: Sys, e: Event)
    requires !e.Seed? && !e.EnqueueDiscovered?
    ensures Next(cfg, s, e).db.nextId == s.db.nextId && Next(cfg, s, e).expansions == s.expansions
  {
  }

  lemma CountStep(cfg: Config, late: bool, graph: Graph, keys: seq<Key>, seeds: seq<Item>, s: Sys, e: Event)
    requires Inv(s) && BatchesFollow(graph, s) && CountInv(graph, seeds, s) && DrainStep(late, graph, s, e)
    ensures CountInv(graph, seeds, Next(cfg, s, e))
  {
    if e.EnqueueDiscovered? {
      var w := e.worker;
      if Busy(s, w) && s.workers[w].phase.Persisted? {
        EnqueueRows(s.db, s.workers[w].phase.batch.discovered);
        assert Next(cfg, s, e).expansions[..|s.expansions|] == s.expansions;
      }
    } else {
      NoRowsAdded(cfg, s, e);
    }
  }

  // ---------------------------------------------------------------- whole drains

  ghost predicate SeedsWithin(seeds: seq<Item>, keys: seq<Key>) {
    forall item | item in seeds :: item.key in keys
  }

  lemma SeededRow(cfg: Config, keys: seq<Key>, seeds: seq<Item>, id: nat)
    requires SeedsWithin(seeds, keys) && id in Upserts(EmptyDb, seeds).rows
    ensures Idle(Upserts(EmptyDb, seeds).rows[id]) && Upserts(EmptyDb, seeds).rows[id].attempt == 0
    ensures Upserts(EmptyDb, seeds).rows[id].key in keys
  {
    EnqueueRows(EmptyDb, seeds);
    NewRowsAreNeeded(EmptyDb, seeds);
    assert id !in EmptyDb.rows;
  }

  lemma SeededRows(cfg: Config, late: bool, graph: Graph, keys: seq<Key>, seeds: seq<Item>)
    requires SeedsWithin(seeds, keys)
    ensures var s := Next(cfg, Start, Seed(seeds)); RowInv(cfg, s) && ExpandInv(cfg, late, graph, keys, s)
  {
    var s := Next(cfg, Start, Seed(seeds));
    UpsertsSettle(EmptyDb, seeds);
    forall id | id in s.db.rows
      ensures RowFits(cfg, s, id) && s.db.rows[id].key in keys
    {
      SeededRow(cfg, keys, seeds, id);
    }
  }

  lemma SeededInv(cfg: Config, late: bool, graph: Graph, keys: seq<Key>, seeds: seq<Item>)
    requires SeedsWithin(seeds, keys)
    ensures DrainInv(cfg, late, graph, keys, seeds, Next(cfg, Start, Seed(seeds)))
  {
    InvAlways(cfg, []);
    InvStep(cfg, Start, Seed(seeds));
    SeededRows(cfg, late, graph, keys, seeds);
    EnqueueRows(EmptyDb, seeds);
  }

  lemma {:induction false} DrainAlways(cfg: Config, late: bool, graph: Graph, keys: seq<Key>, seeds: seq<Item>,
                                       run: seq<Event>)
    requires FiniteGraph(graph, keys) && SeedsWithin(seeds, keys) && Drain(cfg, late, graph, seeds, run)
    ensures DrainInv(cfg, late, graph, keys, seeds, Exec(cfg, run))
  {
    var front, e := run[..|run| - 1], run[|run| - 1];
    if |run| == 1 {
      assert front == [];
      SeededInv(cfg, late, graph, keys, seeds);
    } else {
      DrainAlways(cfg, late, graph, keys, seeds, front);
      var s := Exec(cfg, front);
      InvStep(cfg, s, e);
      RowStep(cfg, late, graph, s, e);
      ExpandStep(cfg, late, graph, keys, s, e);
      CompleteStep(cfg, late, graph, keys, s, e);
      CountStep(cfg, late, graph, keys, seeds, s, e);
    }
  }

  // The number of tasks a drain can hand out: every seed may get a row, and so may every discovery,
  // each time it is enqueued; every row is handed out so often.
  function ClaimBound(cfg: Config, late: bool, graph: Graph, keys: seq<Key>, seeds: seq<Item>): nat {
    (|seeds| + Repeats(cfg, late) * Links(graph, keys)) * Cap(cfg)
  }

  // A task handed out is for an inserted row, and within the cap.
  lemma GrantIsBounded(cfg: Config, s: Sys, i: nat)
    requires FenceInv(s) && RowInv(cfg, s) && i < |s.grants|
    ensures s.grants[i].id < s.db.nextId && 1 <= s.grants[i].attempt <= Cap(cfg)
  {
    assert GrantFits(s.db, s.grants[i]);
    if s.grants[i].id in s.db.rows {
      assert RowFits(cfg, s, s.grants[i].id);
    } else {
      assert InHistory(s.db, s.grants[i].id);
    }
  }

  lemma GrantsAreBounded(cfg: Config, s: Sys)
    requires FenceInv(s) && RowInv(cfg, s)
    ensures forall i | 0 <= i < |s.grants| :: 1 <= s.grants[i].attempt <= Cap(cfg)
    ensures |s.grants| <= s.db.nextId * Cap(cfg)
  {
    forall i | 0 <= i < |s.grants|
      ensures s.grants[i].id < s.db.nextId && 1 <= s.grants[i].attempt <= Cap(cfg)
    {
      GrantIsBounded(cfg, s, i);
    }
    TokensFit(s.grants, s.db.nextId, Cap(cfg));
  }

  lemma StateIsBounded(cfg: Config, late: bool, graph: Graph, keys: seq<Key>, seeds: seq<Item>, s: Sys)
    requires FiniteGraph(graph, keys) && DrainInv(cfg, late, graph, keys, seeds, s)
    ensures forall i | 0 <= i < |s.grants| :: 1 <= s.grants[i].attempt <= Cap(cfg)
    ensures forall i, j | 0 <= i < j < |s.completions| :: s.completions[i].task.key != s.completions[j].task.key
    ensures forall key :: Expanded(s, key) <= Repeats(cfg, late)
    ensures |s.grants| <= ClaimBound(cfg, late, graph, keys, seeds)
  {
    GrantsAreBounded(cfg, s);
    forall key
      ensures Expanded(s, key) <= Repeats(cfg, late) && ListedAtMost(s.expansions, keys, Repeats(cfg, late), key)
    {
      assert KeyExpands(cfg, late, keys, s, key);
    }
    SomeLinksFit(graph, s.expansions, keys, Repeats(cfg, late));
    TimesIsProduct(Repeats(cfg, late), Links(graph, keys));
    Monotone(s.db.nextId, |seeds| + Repeats(cfg, late) * Links(graph, keys), Cap(cfg));
  }

  // In a drain no row is handed out more than max(1, max_attempts) times and no entity is completed
  // twice. Discoveries of an entity are enqueued at most max(1, max_attempts) times, and once if
  // complete never raises; all hand-outs together number at most max(1, max_attempts) times the
  // seeds plus the lengths of the discovered lists, each taken that often.
  lemma {:induction false} DrainIsBounded(cfg: Config, late: bool, graph: Graph, keys: seq<Key>, seeds: seq<Item>,
                                          run: seq<Event>)
    requires FiniteGraph(graph, keys) && SeedsWithin(seeds, keys) && Drain(cfg, late, graph, seeds, run)
    ensures var s := Exec(cfg, run);
            && (forall i | 0 <= i < |s.grants| :: 1 <= s.grants[i].attempt <= Cap(cfg))
            && (forall i, j | 0 <= i < j < |s.completions| :: s.completions[i].task.key != s.completions[j].task.key)
            && (forall key :: Expanded(s, key) <= Repeats(cfg, late))
            && |s.grants| <= ClaimBound(cfg, late, graph, keys, seeds)
  {
    DrainAlways(cfg, late, graph, keys, seeds, run);
    StateIsBounded(cfg, late, graph, keys, seeds, Exec(cfg, run));
  }

  // ---------------------------------------------------------------- steps

  // The steps a worker still has in front of it: four for each task, less those done for the first.
  function Remaining(worker: Worker): nat {
    if worker.queue == [] then 0
    else 4 * |worker.queue| - Ranks(worker.phase)
  }

  function Work(workers: map<WorkerId, Worker>, n: nat): nat {
    if n == 0 then 0
    else Work(workers, n - 1) + if n - 1 in workers then Remaining(workers[n - 1]) else 0
  }

  lemma {:induction false} WorkChanges(before: map<WorkerId, Worker>, after: map<WorkerId, Worker>, n: nat, w: WorkerId)
    requires w in before && w in after
    requires forall v: WorkerId | v < n && v != w :: (v in before <==> v in after) && (v in before ==> before[v] == after[v])
    ensures Work(after, n) - Work(before, n) == if w < n then Remaining(after[w]) - Remaining(before[w]) else 0
  {
    if n > 0 {
      WorkChanges(before, after, n - 1, w);
    }
  }

  // The event did some of the work: tasks were handed out, or a worker moved on.
  ghost predicate Progress(before: Sys, after: Sys) {
    before.grants != after.grants
    || exists w :: w in before.workers && w in after.workers && before.workers[w] != after.workers[w]
  }

  ghost function Steps(cfg: Config, run: seq<Event>): nat {
    if run == [] then 0
    else
      var front := run[..|run| - 1];
      Steps(cfg, front) + if Progress(Exec(cfg, front), Exec(cfg, run)) then 1 else 0
  }

  // What an event that one worker does leaves behind, for the measure of work.
  ghost predicate Spends(s: Sys, after: Sys, w: WorkerId) {
    && after.workers.Keys == s.workers.Keys && after.nextWorker == s.nextWorker
    && (forall v | v in s.workers && v != w :: after.workers[v] == s.workers[v])
    && (w in s.workers && after.workers[w] != s.workers[w] ==>
          Remaining(after.workers[w]) < Remaining(s.workers[w]) + 5 * (|after.grants| - |s.grants|))
    && (w !in s.workers || after.workers[w] == s.workers[w] ==> after.grants == s.grants)
  }

  lemma PollSpends(cfg: Config, s: Sys, e: Event)
    requires e.Poll? && QueueInv(s)
    ensures Spends(s, Next(cfg, s, e), e.worker)
  {
    var after := Next(cfg, s, e);
    if e.worker in s.workers && s.workers[e.worker].queue == [] && after.grants != s.grants {
      assert |after.grants| - |s.grants| == |after.workers[e.worker].queue|;
    }
  }

  lemma MoveSpends(s: Sys, after: Sys, w: WorkerId)
    requires MovesOn(s, after, w)
    ensures Spends(s, after, w)
  {
  }

  lemma ActorStepSpends(cfg: Config, late: bool, graph: Graph, s: Sys, e: Event)
    requires QueueInv(s) && DrainStep(late, graph, s, e) && !e.Spawn? && !e.Tick?
    ensures Spends(s, Next(cfg, s, e), e.worker)
  {
    if e.Poll? {
      PollSpends(cfg, s, e);
    } else {
      EventMovesOn(cfg, s, e);
      MoveSpends(s, Next(cfg, s, e), e.worker);
    }
  }

  lemma StepSpends(cfg: Config, late: bool, graph: Graph, s: Sys, e: Event)
    requires QueueInv(s) && RowInv(cfg, s) && DrainStep(late, graph, s, e)
    ensures var after := Next(cfg, s, e);
            Work(after.workers, after.nextWorker) + (if Progress(s, after) then 1 else 0)
            <= Work(s.workers, s.nextWorker) + 5 * (|after.grants| - |s.grants|)
  {
    var after := Next(cfg, s, e);
    if e.Spawn? {
      SpawnAddsNoWork(s.workers, after.workers, s.nextWorker);
    } else if !e.Tick? {
      ActorStepSpends(cfg, late, graph, s, e);
      if e.worker in s.workers {
        WorkChanges(s.workers, after.workers, s.nextWorker, e.worker);
      } else {
        assert after.workers == s.workers;
      }
    }
  }

  lemma {:induction false} SpawnAddsNoWork(before: map<WorkerId, Worker>, after: map<WorkerId, Worker>, n: nat)
    requires forall v: WorkerId | v < n :: (v in before <==> v in after) && (v in before ==> before[v] == after[v])
    ensures Work(after, n) == Work(before, n)
  {
    if n > 0 {
      SpawnAddsNoWork(before, after, n - 1);
    }
  }

  lemma {:induction false} StepsAreSpent(cfg: Config, late: bool, graph: Graph, keys: seq<Key>, seeds: seq<Item>,
                                         run: seq<Event>)
    requires FiniteGraph(graph, keys) && SeedsWithin(seeds, keys) && Drain(cfg, late, graph, seeds, run)
    ensures var s := Exec(cfg, run); Steps(cfg, run) + Work(s.workers, s.nextWorker) <= 5 * |s.grants|
  {
    var front, e := run[..|run| - 1], run[|run| - 1];
    if |run| == 1 {
      assert front == [];
      assert Exec(cfg, run) == Next(cfg, Start, Seed(seeds));
      assert Steps(cfg, []) == 0;
    } else {
      StepsAreSpent(cfg, late, graph, keys, seeds, front);
      DrainAlways(cfg, late, graph, keys, seeds, front);
      StepSpends(cfg, late, graph, Exec(cfg, front), e);
    }
  }

  // Drains terminate: however the clock, the heartbeats, the idle polls and the starting workers are
  // mixed in, the events that do some of the work are bounded in number.
  lemma {:induction false} DrainTerminates(cfg: Config, late: bool, graph: Graph, keys: seq<Key>, seeds: seq<Item>,
                                           run: seq<Event>)
    requires FiniteGraph(graph, keys) && SeedsWithin(seeds, keys) && Drain(cfg, late, graph, seeds, run)
    ensures Steps(cfg, run) <= 5 * ClaimBound(cfg, late, graph, keys, seeds)
  {
    StepsAreSpent(cfg, late, graph, keys, seeds, run);
    DrainIsBounded(cfg, late, graph, keys, seeds, run);
  }

  // Drains do not get stuck: every row left is in the queue of a worker, or it is free and a claim
  // for its source takes a row as soon as the row's available_at has come.
  lemma {:induction false} DrainCannotStall(cfg: Config, late: bool, graph: Graph, keys: seq<Key>, seeds: seq<Item>,
                                            run: seq<Event>, id: nat)
    requires FiniteGraph(graph, keys) && SeedsWithin(seeds, keys) && Drain(cfg, late, graph, seeds, run)
    requires id in Exec(cfg, run).db.rows
    ensures var s := Exec(cfg, run);
            var row := s.db.rows[id];
            || (exists w, i: nat :: InQueue(s, w, i) && s.workers[w].queue[i] == Task(id, row.key, row.attempt))
            || (forall later, limit: nat | later >= s.now && later >= row.availableAt && limit > 0 ::
                  Chosen(s.db, Query(Some(row.key.source), limit, false), later) != {})
    ensures var s := Exec(cfg, run);
            (forall w | w in s.workers :: s.workers[w].queue == []) ==>
              forall seconds: nat :: DrainStep(late, graph, s, Tick(seconds))
  {
    DrainAlways(cfg, late, graph, keys, seeds, run);
    var s := Exec(cfg, run);
    var row := s.db.rows[id];
    assert RowFits(cfg, s, id);
    if row.leaseOwner.Some? {
      var w := row.leaseOwner.value;
      var i := HolderPosition(s, id, w);
      assert TaskFits(s, w, i);
    } else {
      forall later, limit: nat | later >= s.now && later >= row.availableAt && limit > 0
        ensures Chosen(s.db, Query(Some(row.key.source), limit, false), later) != {}
      {
        var query := Query(Some(row.key.source), limit, false);
        assert id in EligibleIds(s.db, query, later);
        ClaimSelectsPrefix(s.db, query, later);
      }
    }
    if forall w | w in s.workers :: s.workers[w].queue == [] {
      forall other | other in s.db.rows
        ensures s.db.rows[other].leasedUntil.None?
      {
        assert RowFits(cfg, s, other);
        if s.db.rows[other].leaseOwner.Some? {
          var i := HolderPosition(s, other, s.db.rows[other].leaseOwner.value);
        }
      }
    }
  }
}
