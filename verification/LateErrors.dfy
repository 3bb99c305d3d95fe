// What it costs when complete raises: a drain in which the discoveries of one entity are enqueued
// twice, and more tasks are handed out than a drain without such errors ever hands out.
module LateErrors {
  import opened Types
  import opened Frontier
  import opened Extraction
  import opened Workers
  import opened DrainTermination

  const PARENT := Key(ZakupSk, Notice, "1")
  const CHILD := Key(ZakupSk, Lot, "2")
  const FOUND := Item(CHILD, 10, false, 0)
  const BATCH := Batch([Envelope(PARENT, "hash", "content", 0, true)], [], [FOUND])
  const SEED := Item(PARENT, 0, false, 0)
  const CFG := Config(10, 2)

  function Family(key: Key): seq<Key> {
    if key == PARENT then [CHILD] else []
  }

  // One worker, a table, and the number of tasks handed out. The child has not been stored.
  ghost predicate Stands(s: Sys, rows: map<nat, Row>, nextId: nat, now: Time, phase: Phase, queue: seq<Task>,
                         grants: nat) {
    && s.db.rows == rows && s.db.nextId == nextId && s.now == now && CHILD !in s.db.succeeded
    && s.workers == map[0 := Worker(ZakupSk, phase, queue)] && |s.grants| == grants
  }

  ghost predicate Ends(run: seq<Event>, rows: map<nat, Row>, nextId: nat, now: Time, phase: Phase, queue: seq<Task>,
                       grants: nat) {
    Drain(CFG, true, Family, [SEED], run) && Stands(Exec(CFG, run), rows, nextId, now, phase, queue, grants)
  }

  lemma Extend(run: seq<Event>, e: Event)
    requires Drain(CFG, true, Family, [SEED], run) && DrainStep(true, Family, Exec(CFG, run), e)
    ensures Drain(CFG, true, Family, [SEED], run + [e]) && Exec(CFG, run + [e]) == Next(CFG, Exec(CFG, run), e)
  {
    assert (run + [e])[..|run|] == run;
  }

  lemma Begins() returns (run: seq<Event>)
    ensures Ends(run, map[0 := NewRow(SEED)], 1, 0, Working, [], 0)
  {
    run := [Seed([SEED])];
    UpsertsOne(EmptyDb, SEED);
    assert run[..0] == [];
    assert Exec(CFG, run) == Next(CFG, Start, Seed([SEED]));
    Extend(run, Spawn(ZakupSk));
    run := run + [Spawn(ZakupSk)];
  }

  predicate Free(row: Row, now: Time) {
    row.leaseOwner.None? && row.leasedUntil.None? && row.availableAt <= now && row.key.source == ZakupSk
  }

  function Leased(row: Row, now: Time): Row {
    row.(leaseOwner := Some(0), leasedUntil := Some(now + 10), attempt := row.attempt + 1)
  }

  // The one row that is available is claimed.
  lemma Claims(run: seq<Event>, rows: map<nat, Row>, nextId: nat, now: Time, grants: nat,
               id: nat) returns (more: seq<Event>)
    requires Ends(run, rows, nextId, now, Working, [], grants) && id in rows && Free(rows[id], now)
    requires forall other | other in rows && other != id :: rows[other].availableAt > now
    ensures Ends(more, rows[id := Leased(rows[id], now)], nextId, now, Working,
                 [Task(id, rows[id].key, rows[id].attempt + 1)], grants + 1)
  {
    var s, e, query := Exec(CFG, run), Poll(0, 1, false, [id]), Query(Some(ZakupSk), 1, false);
    assert EligibleIds(s.db, query, now) == {id};
    assert Ahead(s.db, {id}, id) == {};
    assert Chosen(s.db, query, now) == {id};
    assert Lists([id], {id});
    assert TasksOf(Claim(s.db, 0, query, 10, now), [id]) == [Task(id, rows[id].key, rows[id].attempt + 1)];
    Extend(run, e);
    more := run + [e];
    assert Exec(CFG, more).db.rows == rows[id := Leased(rows[id], now)];
  }

  // The worker's task fails, for good or for another attempt.
  lemma Fails(run: seq<Event>, rows: map<nat, Row>, nextId: nat, now: Time, phase: Phase, grants: nat, task: Task,
              permanent: bool)
      returns (more: seq<Event>)
    requires Ends(run, rows, nextId, now, phase, [task], grants)
    requires task.id in rows && rows[task.id].attempt == task.attempt && (!permanent ==> task.attempt < 2)
    ensures Ends(more, if permanent then rows - {task.id}
                       else rows[task.id := rows[task.id].(leaseOwner := None, leasedUntil := None,
                                                           availableAt := now + RetryDelay(task.attempt))],
                 nextId, now, Working, [], grants)
  {
    var e := GenericError(0, permanent);
    assert [task][1..] == [];
    Extend(run, e);
    more := run + [e];
  }

  lemma Waits(run: seq<Event>, rows: map<nat, Row>, nextId: nat, now: Time, grants: nat,
              seconds: nat) returns (more: seq<Event>)
    requires Ends(run, rows, nextId, now, Working, [], grants)
    requires forall id | id in rows :: rows[id].leasedUntil.None?
    ensures Ends(more, rows, nextId, now + seconds, Working, [], grants)
  {
    Extend(run, Tick(seconds));
    more := run + [Tick(seconds)];
  }

  lemma Checks(run: seq<Event>, rows: map<nat, Row>, nextId: nat, now: Time, grants: nat,
               task: Task) returns (more: seq<Event>)
    requires Ends(run, rows, nextId, now, Working, [task], grants) && task.key == PARENT
    requires task.id in rows && rows[task.id].attempt == task.attempt && rows[task.id].leaseOwner == Some(0)
    ensures Ends(more, rows[task.id := rows[task.id].(leasedUntil := Some(now + 10))], nextId, now, Checked(BATCH), [task], grants)
  {
    assert BATCH.entities[0].key == PARENT;
    AcceptedIffWellFormed(BATCH, PARENT);
    Extend(run, CheckLease(0, BATCH));
    more := run + [CheckLease(0, BATCH)];
  }

  lemma Stores(run: seq<Event>, rows: map<nat, Row>, nextId: nat, now: Time, grants: nat,
               task: Task) returns (more: seq<Event>)
    requires Ends(run, rows, nextId, now, Checked(BATCH), [task], grants)
    ensures Ends(more, rows, nextId, now, Persisted(BATCH), [task], grants)
  {
    assert |BATCH.entities| == 1 && BATCH.entities[0].key == PARENT;
    assert CHILD !in EntityKeys(BATCH);
    Extend(run, PersistBatch(0));
    more := run + [PersistBatch(0)];
  }

  lemma Enqueues(run: seq<Event>, rows: map<nat, Row>, nextId: nat, now: Time, grants: nat,
                 task: Task) returns (more: seq<Event>)
    requires Ends(run, rows, nextId, now, Persisted(BATCH), [task], grants)
    requires forall id | id in rows :: rows[id].key != CHILD
    ensures Ends(more, rows[nextId := NewRow(FOUND)], nextId + 1, now, Enqueued(BATCH), [task], grants)
  {
    var s := Exec(CFG, run);
    UpsertsOne(s.db, FOUND);
    assert !Live(s.db, CHILD);
    Extend(run, EnqueueDiscovered(0));
    more := run + [EnqueueDiscovered(0)];
  }

  // The parent is claimed, extracted, stored and expanded; the child gets a row.
  lemma Expands(run: seq<Event>, row: Row, nextId: nat, now: Time, grants: nat) returns (more: seq<Event>)
    requires Ends(run, map[0 := row], nextId, now, Working, [], grants) && Free(row, now) && row.key == PARENT && nextId > 0
    ensures Ends(more, map[0 := Leased(row, now), nextId := NewRow(FOUND)], nextId + 1, now,
                 Enqueued(BATCH), [Task(0, PARENT, row.attempt + 1)], grants + 1)
  {
    var task := Task(0, PARENT, row.attempt + 1);
    more := Claims(run, map[0 := row], nextId, now, grants, 0);
    assert map[0 := row][0 := Leased(row, now)] == map[0 := Leased(row, now)];
    more := Checks(more, map[0 := Leased(row, now)], nextId, now, grants + 1, task);
    assert map[0 := Leased(row, now)][0 := Leased(row, now)] == map[0 := Leased(row, now)];
    more := Stores(more, map[0 := Leased(row, now)], nextId, now, grants + 1, task);
    more := Enqueues(more, map[0 := Leased(row, now)], nextId, now, grants + 1, task);
    assert map[0 := Leased(row, now)][nextId := NewRow(FOUND)] == map[0 := Leased(row, now), nextId := NewRow(FOUND)];
  }

  function Retried(row: Row, now: Time): Row {
    row.(leaseOwner := None, leasedUntil := None, attempt := row.attempt + 1, availableAt := now + RetryDelay(row.attempt + 1))
  }

  // The parent's first complete raises; the child fails for good.
  lemma ChildComesOnce() returns (run: seq<Event>)
    ensures Ends(run, map[0 := Retried(NewRow(SEED), 0)], 2, 0, Working, [], 2)
  {
    var parent, child := NewRow(SEED), NewRow(FOUND);
    run := Begins();
    run := Expands(run, parent, 1, 0, 0);
    var rows := map[0 := Leased(parent, 0), 1 := child];
    run := Fails(run, rows, 2, 0, Enqueued(BATCH), 1, Task(0, PARENT, 1), false);
    rows := map[0 := Retried(parent, 0), 1 := child];
    assert Ends(run, rows, 2, 0, Working, [], 1);
    run := Claims(run, rows, 2, 0, 1, 1);
    rows := rows[1 := Leased(child, 0)];
    run := Fails(run, rows, 2, 0, Working, 2, Task(1, CHILD, 1), true);
    assert rows - {1} == map[0 := Retried(parent, 0)];
  }

  // The parent comes again and gives the child a second row, before it fails.
  lemma ChildComesTwice() returns (run: seq<Event>)
    ensures Ends(run, map[2 := NewRow(FOUND)], 3, 5, Working, [], 3)
  {
    var parent := Retried(NewRow(SEED), 0);
    run := ChildComesOnce();
    run := Waits(run, map[0 := parent], 2, 0, 2, 5);
    run := Expands(run, parent, 2, 5, 2);
    var rows := map[0 := Leased(parent, 5), 2 := NewRow(FOUND)];
    run := Fails(run, rows, 3, 5, Enqueued(BATCH), 3, Task(0, PARENT, 2), true);
    assert rows - {0} == map[2 := NewRow(FOUND)];
  }

  // With max_attempts 2, two entities and one discovery, a drain in which complete never raises
  // hands out four tasks at most. Here complete raises, and there are five.
  lemma LateErrorsCostMore() returns (run: seq<Event>)
    ensures FiniteGraph(Family, [PARENT, CHILD]) && SeedsWithin([SEED], [PARENT, CHILD])
    ensures Drain(CFG, true, Family, [SEED], run)
    ensures |Exec(CFG, run).grants| == 5 && ClaimBound(CFG, false, Family, [PARENT, CHILD], [SEED]) == 4
  {
    var child := NewRow(FOUND);
    run := ChildComesTwice();
    run := Claims(run, map[2 := child], 3, 5, 3, 2);
    var rows := map[2 := Leased(child, 5)];
    assert Ends(run, rows, 3, 5, Working, [Task(2, CHILD, 1)], 4);
    run := Fails(run, rows, 3, 5, Working, 4, Task(2, CHILD, 1), false);
    rows := map[2 := Retried(child, 5)];
    assert Ends(run, rows, 3, 5, Working, [], 4);
    run := Waits(run, rows, 3, 5, 4, 5);
    run := Claims(run, rows, 3, 10, 4, 2);
    LinksAppend(Family, [PARENT], CHILD);
    LinksAppend(Family, [], PARENT);
    assert [PARENT] + [CHILD] == [PARENT, CHILD] && [] + [PARENT] == [PARENT];
  }
}
