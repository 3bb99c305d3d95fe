// PostgresFrontierRepository: the transactions as methods that update the tables, each proved
// against the function of the same transaction in Frontier.
module FrontierRepository {
  import opened Types
  import opened Frontier
  import opened EnqueueOrder

  // How many items enqueue does not skip.
  function Taken(db: Db, items: seq<Item>): nat {
    if items == [] then 0
    else Taken(db, items[..|items| - 1]) + if Skipped(db, items[|items| - 1]) then 0 else 1
  }

  // Only what has been stored decides it.
  lemma {:induction false} TakenSame(a: Db, b: Db, items: seq<Item>)
    requires a.succeeded == b.succeeded
    ensures Taken(a, items) == Taken(b, items)
  {
    if items != [] {
      TakenSame(a, b, items[..|items| - 1]);
    }
  }

  lemma {:induction false} TakenConcat(db: Db, a: seq<Item>, b: seq<Item>)
    ensures Taken(db, a + b) == Taken(db, a) + Taken(db, b)
  {
    if b == [] {
      assert a + b == a;
    } else {
      TakenConcat(db, a, b[..|b| - 1]);
      assert (a + b)[..|a + b| - 1] == a + b[..|b| - 1];
    }
  }

  lemma {:induction false} TakenInsert(db: Db, item: Item, items: seq<Item>)
    ensures Taken(db, Insert(item, items)) == Taken(db, items) + if Skipped(db, item) then 0 else 1
  {
    if items == [] {
      assert [item][..0] == [];
    } else {
      var front, last := items[..|items| - 1], items[|items| - 1];
      if KeyLeq(last.key, item.key) {
        assert (items + [item])[..|items|] == items;
      } else {
        TakenInsert(db, item, front);
        assert (Insert(item, front) + [last])[..|Insert(item, front)|] == Insert(item, front);
      }
    }
  }

  lemma {:induction false} TakenSorted(db: Db, items: seq<Item>)
    ensures Taken(db, Sorted(items)) == Taken(db, items)
  {
    if items != [] {
      TakenSorted(db, items[..|items| - 1]);
      TakenInsert(db, items[|items| - 1], Sorted(items[..|items| - 1]));
    }
  }

  datatype Activity = Activity(depth: nat, ready: nat, delayed: nat, leased: nat)

  // The rows of a source: all, those a claim could take now, those not available yet, and those
  // whose lease still runs.
  function OfSource(db: Db, source: Source): set<nat> {
    set id | id in db.rows && db.rows[id].key.source == source
  }

  function ReadyOf(db: Db, source: Source, now: Time): set<nat> {
    set id | id in OfSource(db, source) && db.rows[id].availableAt <= now && Unleased(db.rows[id], now)
  }

  function DelayedOf(db: Db, source: Source, now: Time): set<nat> {
    set id | id in OfSource(db, source) && db.rows[id].availableAt > now
  }

  function LeasedOf(db: Db, source: Source, now: Time): set<nat> {
    set id | id in OfSource(db, source) && !Unleased(db.rows[id], now)
  }

  // What the counts of these sets tell.
  lemma ActivityTells(db: Db, source: Source, now: Time)
    ensures |OfSource(db, source)| == 0 <==> forall id | id in db.rows :: db.rows[id].key.source != source
    ensures |LeasedOf(db, source, now)| == 0 <==>
            forall id | id in db.rows && db.rows[id].key.source == source :: Unleased(db.rows[id], now)
    ensures forall limit: nat ::
              |Chosen(db, Query(Some(source), limit, false), now)| == Min(limit, |ReadyOf(db, source, now)|)
    ensures var busy := |OfSource(db, source)| - |ReadyOf(db, source, now)|;
            Max(|DelayedOf(db, source, now)|, |LeasedOf(db, source, now)|) <= busy
            <= |DelayedOf(db, source, now)| + |LeasedOf(db, source, now)|
  {
    var all, ready, delayed, leased := OfSource(db, source), ReadyOf(db, source, now), DelayedOf(db, source, now), LeasedOf(db, source, now);
    if id :| id in db.rows && db.rows[id].key.source == source {
      assert id in all;
      if !Unleased(db.rows[id], now) {
        assert id in leased;
      }
    }
    forall id | id in db.rows && db.rows[id].key.source == source && !Unleased(db.rows[id], now)
      ensures leased != {}
    {
      assert id in leased;
    }
    forall limit: nat
      ensures |Chosen(db, Query(Some(source), limit, false), now)| == Min(limit, |ready|)
    {
      assert EligibleIds(db, Query(Some(source), limit, false), now) == ready;
      ClaimSelectsPrefix(db, Query(Some(source), limit, false), now);
    }
    assert all == ready + (delayed + leased) && ready !! (delayed + leased);
    assert |all| == |ready| + |delayed + leased|;
    SubsetSize(delayed, delayed + leased);
    SubsetSize(leased, delayed + leased);
    UnionSize(delayed, leased);
  }

  lemma UnionSize(a: set<nat>, b: set<nat>)
    ensures |a + b| <= |a| + |b|
  {
    assert a + b == a + (b - a) && a !! (b - a);
    SubsetSize(b - a, b);
  }

  lemma IdsGrow(tasks: seq<Task>, task: Task)
    ensures Ids(tasks + [task]) == Ids(tasks) + {task.id}
  {
    var all := tasks + [task];
    assert all[|tasks|] == task;
    forall id
      ensures id in Ids(all) <==> id in Ids(tasks) + {task.id}
    {
      if id in Ids(tasks) {
        var i :| 0 <= i < |tasks| && tasks[i].id == id;
        assert all[i].id == id;
      }
    }
  }

  class Repository {
    var rows: map<nat, Row>
    var nextId: nat
    var succeeded: set<Key>
    var history: seq<HistoryRow>

    function Table(): Db
      reads this
    {
      Db(rows, nextId, succeeded, history)
    }

    constructor ()
      ensures Table() == EmptyDb
    {
      rows, nextId, succeeded, history := map[], 0, {}, [];
    }

    method Enqueue(items: seq<Item>) returns (inserted: nat)
      modifies this
      ensures Table() == Upserts(old(Table()), items)
      ensures inserted == Taken(old(Table()), items)
    {
      inserted := 0;
      if items == [] {
        assert Sorted(items) == [];
        return;
      }
      var sorted := Sorted(items);
      for i := 0 to |sorted|
        invariant Table() == Fold(old(Table()), sorted[..i])
        invariant succeeded == old(succeeded)
        invariant inserted == Taken(old(Table()), sorted[..i])
      {
        var item := sorted[i];
        assert sorted[..i + 1][..i] == sorted[..i];
        if !item.refreshExisting && item.key in succeeded {
          continue;
        }
        if exists id :: id in rows && rows[id].key == item.key {
          rows := map id | id in rows :: if rows[id].key == item.key then Merge(rows[id], item) else rows[id];
        } else {
          rows := rows[nextId := NewRow(item)];
          nextId := nextId + 1;
        }
        inserted := inserted + 1;
      }
      assert sorted[..|sorted|] == sorted;
      TakenSorted(old(Table()), items);
    }

    // UPDATE ... WHERE id IN (first rows) ... RETURNING, then one FrontierTask for each returned
    // row. The set is fixed, the order is not. An eligible row is left only when the limit is reached,
    // by rows of higher priority, or of the same and available earlier, or then of lower id.
    method Claim(worker: WorkerId, query: Query, lease: nat, now: Time) returns (tasks: seq<Task>)
      modifies this`rows
      ensures Table() == Frontier.Claim(old(Table()), worker, query, lease, now)
      ensures |tasks| == Min(query.limit, |EligibleIds(old(Table()), query, now)|)
      ensures forall i, j | 0 <= i < j < |tasks| :: tasks[i].id != tasks[j].id
      ensures forall i | 0 <= i < |tasks| ::
                var id := tasks[i].id;
                && id in old(rows) && Eligible(old(rows)[id], query, now)
                && tasks[i] == Task(id, old(rows)[id].key, old(rows)[id].attempt + 1)
      ensures forall id | id in old(rows) ::
                && id in rows
                && rows[id] == if id in Ids(tasks)
                               then old(rows)[id].(leaseOwner := Some(worker), leasedUntil := Some(now + lease),
                                                   attempt := old(rows)[id].attempt + 1)
                               else old(rows)[id]
      ensures forall first, id | first in Ids(tasks) && first in old(rows) && id in old(rows) && id !in Ids(tasks)
                                 && Eligible(old(rows)[id], query, now) ::
                var taken, left := old(rows)[first], old(rows)[id];
                && |tasks| == query.limit
                && taken.priority >= left.priority
                && (taken.priority == left.priority ==> taken.availableAt <= left.availableAt)
                && (taken.priority == left.priority && taken.availableAt == left.availableAt ==> first < id)
    {
      var chosen := Chosen(Table(), query, now);
      ClaimSelectsPrefix(Table(), query, now);
      ClaimTakesMostUrgent(Table(), query, now);
      rows := Frontier.Claim(Table(), worker, query, lease, now).rows;
      tasks := TasksOf(chosen);
    }

    // One task for each of these rows, in any order.
    method TasksOf(chosen: set<nat>) returns (tasks: seq<Task>)
      requires chosen <= rows.Keys
      ensures |tasks| == |chosen| && Ids(tasks) == chosen
      ensures forall i | 0 <= i < |tasks| ::
                tasks[i].id in rows && tasks[i] == Task(tasks[i].id, rows[tasks[i].id].key, rows[tasks[i].id].attempt)
      ensures forall i, j | 0 <= i < j < |tasks| :: tasks[i].id != tasks[j].id
    {
      tasks := [];
      var left := chosen;
      while left != {}
        invariant left <= chosen
        invariant |tasks| + |left| == |chosen|
        invariant Ids(tasks) == chosen - left
        invariant forall i | 0 <= i < |tasks| ::
                    tasks[i].id in rows && tasks[i] == Task(tasks[i].id, rows[tasks[i].id].key, rows[tasks[i].id].attempt)
        invariant forall i, j | 0 <= i < j < |tasks| :: tasks[i].id != tasks[j].id
        decreases |left|
      {
        var id :| id in left;
        IdsGrow(tasks, Task(id, rows[id].key, rows[id].attempt));
        tasks := tasks + [Task(id, rows[id].key, rows[id].attempt)];
        left := left - {id};
      }
    }

    method Complete(task: Task, contentHash: Option<string>)
      modifies this`rows, this`history
      ensures Table() == Close(old(Table()), task, Success(contentHash))
    {
      if !(task.id in rows && rows[task.id].attempt == task.attempt) {
        return;
      }
      history := history + [HistoryRow(task.id, rows[task.id].key, rows[task.id].attempt, Success(contentHash))];
      rows := rows - {task.id};
    }

    method Fail(task: Task)
      modifies this`rows, this`history
      ensures Table() == Close(old(Table()), task, Failed)
    {
      if !(task.id in rows && rows[task.id].attempt == task.attempt) {
        return;
      }
      history := history + [HistoryRow(task.id, rows[task.id].key, rows[task.id].attempt, Failed)];
      rows := rows - {task.id};
    }

    method Retry(task: Task, delay: int, now: Time)
      modifies this`rows
      ensures Table() == Frontier.Retry(old(Table()), task, delay, now)
    {
      if task.id in rows && rows[task.id].attempt == task.attempt {
        var row := rows[task.id];
        rows := rows[task.id := row.(leaseOwner := None, leasedUntil := None, availableAt := now + delay)];
      }
    }

    method ExtendLease(task: Task, worker: WorkerId, lease: int, now: Time) returns (extended: bool)
      modifies this`rows
      ensures Table() == Frontier.ExtendLease(old(Table()), task, worker, lease, now)
      ensures extended <==> Owns(old(Table()), task, worker)
    {
      extended := task.id in rows && rows[task.id].attempt == task.attempt && rows[task.id].leaseOwner == Some(worker);
      if extended {
        var row := rows[task.id];
        rows := rows[task.id := row.(leasedUntil := Some(now + Max(1, lease)))];
      }
    }

    method Release(tasks: seq<Task>, worker: WorkerId) returns (released: nat)
      modifies this`rows
      ensures Table() == Frontier.Release(old(Table()), Ids(tasks), worker)
      ensures released == |set id | id in Ids(tasks) && id in old(rows) && old(rows)[id].leaseOwner == Some(worker)|
    {
      var ids := Ids(tasks);
      released := |set id | id in ids && id in rows && rows[id].leaseOwner == Some(worker)|;
      rows := map id | id in rows ::
                if id in ids && rows[id].leaseOwner == Some(worker) then Unlease(rows[id]) else rows[id];
    }

    method ReleaseByOwner(worker: WorkerId) returns (released: nat)
      modifies this`rows
      ensures Table() == Frontier.ReleaseByOwner(old(Table()), worker)
      ensures released == |set id | id in old(rows) && old(rows)[id].leaseOwner == Some(worker)|
    {
      released := |set id | id in rows && rows[id].leaseOwner == Some(worker)|;
      rows := map id | id in rows :: if rows[id].leaseOwner == Some(worker) then Unlease(rows[id]) else rows[id];
    }

    method ReleaseStaleLeases(only: Option<Source>, now: Time) returns (released: nat)
      modifies this`rows
      ensures Table() == ReleaseStale(old(Table()), only, now)
      ensures forall id | id in old(rows) ::
                && id in rows
                && var row := old(rows)[id];
                   rows[id] == if row.leaseOwner != None && row.leasedUntil != None && row.leasedUntil.value < now
                                  && (only == None || only == Some(row.key.source))
                               then row.(leaseOwner := None, leasedUntil := None)
                               else row
      ensures released == |set id | id in old(rows) && Stale(old(rows)[id], only, now)|
    {
      released := |set id | id in rows && Stale(rows[id], only, now)|;
      rows := map id | id in rows :: if Stale(rows[id], only, now) then Unlease(rows[id]) else rows[id];
    }

    // The part of PostgresEntityRepository.persist that enqueue looks at.
    method MarkSucceeded(batch: Batch)
      modifies this`succeeded
      ensures Table() == Frontier.MarkSucceeded(old(Table()), EntityKeys(batch))
    {
      succeeded := succeeded + EntityKeys(batch);
    }

    // What the numbers mean: depth 0, no row of the source is left; leased 0, nobody is at work on
    // one; and a claim for the source takes as many rows as are ready, up to its limit.
    method CountActivity(source: Source, now: Time) returns (activity: Activity)
      ensures activity == Activity(|OfSource(Table(), source)|, |ReadyOf(Table(), source, now)|,
                                   |DelayedOf(Table(), source, now)|, |LeasedOf(Table(), source, now)|)
      ensures activity.depth == 0 <==> forall id | id in rows :: rows[id].key.source != source
      ensures activity.leased == 0 <==> forall id | id in rows && rows[id].key.source == source :: Unleased(rows[id], now)
      ensures forall limit: nat :: |Chosen(Table(), Query(Some(source), limit, false), now)| == Min(limit, activity.ready)
      ensures Max(activity.delayed, activity.leased) <= activity.depth - activity.ready <= activity.delayed + activity.leased
    {
      activity := CountRows(source, now);
      ActivityTells(Table(), source, now);
    }

    // The four counts of the query, in one pass over the table.
    method CountRows(source: Source, now: Time) returns (activity: Activity)
      ensures activity == Activity(|OfSource(Table(), source)|, |ReadyOf(Table(), source, now)|,
                                   |DelayedOf(Table(), source, now)|, |LeasedOf(Table(), source, now)|)
    {
      var depth, ready, delayed, leased := 0, 0, 0, 0;
      var left := rows.Keys;
      ghost var db := Table();
      while left != {}
        invariant left <= rows.Keys
        invariant depth == |OfSource(db, source) - left| && ready == |ReadyOf(db, source, now) - left|
        invariant delayed == |DelayedOf(db, source, now) - left| && leased == |LeasedOf(db, source, now) - left|
        decreases |left|
      {
        var id :| id in left;
        OneMoreRow(db, source, now, left, id);
        left := left - {id};
        var row := rows[id];
        if row.key.source == source {
          var taken := row.leasedUntil.Some? && row.leasedUntil.value >= now;
          depth := depth + 1;
          ready := ready + if row.availableAt <= now && !taken then 1 else 0;
          delayed := delayed + if row.availableAt > now then 1 else 0;
          leased := leased + if taken then 1 else 0;
        }
      }
      assert left == {};
      AllRows(OfSource(db, source), left);
      AllRows(ReadyOf(db, source, now), left);
      AllRows(DelayedOf(db, source, now), left);
      AllRows(LeasedOf(db, source, now), left);
      activity := Activity(depth, ready, delayed, leased);
    }
  }

  lemma AllRows(ids: set<nat>, left: set<nat>)
    requires left == {}
    ensures ids - left == ids
  {
  }

  lemma Leaves(ids: set<nat>, left: set<nat>, id: nat)
    requires id in left
    ensures |ids - (left - {id})| == |ids - left| + if id in ids then 1 else 0
  {
    assert ids - (left - {id}) == if id in ids then (ids - left) + {id} else ids - left;
  }

  lemma OneMoreRow(db: Db, source: Source, now: Time, left: set<nat>, id: nat)
    requires id in left && id in db.rows
    ensures var row := db.rows[id];
            var taken := row.leasedUntil.Some? && row.leasedUntil.value >= now;
            var mine := row.key.source == source;
            && |OfSource(db, source) - (left - {id})| == |OfSource(db, source) - left| + (if mine then 1 else 0)
            && |ReadyOf(db, source, now) - (left - {id})|
               == |ReadyOf(db, source, now) - left| + (if mine && row.availableAt <= now && !taken then 1 else 0)
            && |DelayedOf(db, source, now) - (left - {id})|
               == |DelayedOf(db, source, now) - left| + (if mine && row.availableAt > now then 1 else 0)
            && |LeasedOf(db, source, now) - (left - {id})|
               == |LeasedOf(db, source, now) - left| + (if mine && taken then 1 else 0)
  {
    Leaves(OfSource(db, source), left, id);
    Leaves(ReadyOf(db, source, now), left, id);
    Leaves(DelayedOf(db, source, now), left, id);
    Leaves(LeasedOf(db, source, now), left, id);
  }
}
