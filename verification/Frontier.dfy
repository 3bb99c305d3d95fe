// The crawl_frontier table and the transactions PostgresFrontierRepository runs on it, one
// function for each transaction.
module Frontier {
  import opened Types

  type WorkerId = nat

  // One crawl_frontier row.
  datatype Row = Row(key: Key, priority: int, availableAt: Time, leaseOwner: Option<WorkerId>,
                     leasedUntil: Option<Time>, attempt: nat)

  // How a row was closed; complete notes the content hash.
  datatype Outcome = Success(contentHash: Option<string>) | Failed

  // One crawl_task_history row. `rowId` remembers which frontier row it closed.
  datatype HistoryRow = HistoryRow(rowId: nat, key: Key, attempt: nat, outcome: Outcome)

  // `succeeded` holds the entities whose last_success_at is set; `nextId` is the id sequence.
  datatype Db = Db(rows: map<nat, Row>, nextId: nat, succeeded: set<Key>, history: seq<HistoryRow>)

  const EmptyDb := Db(map[], 0, {}, [])

  predicate Live(db: Db, key: Key) {
    exists id :: id in db.rows && db.rows[id].key == key
  }

  predicate FailedOnce(db: Db, key: Key) {
    exists n :: 0 <= n < |db.history| && db.history[n].key == key && db.history[n].outcome == Failed
  }

  predicate InHistory(db: Db, id: nat) {
    exists n :: 0 <= n < |db.history| && db.history[n].rowId == id
  }

  // ---------------------------------------------------------------- enqueue

  function Merge(row: Row, item: Item): Row {
    row.(priority := Max(row.priority, item.priority), availableAt := Min(row.availableAt, item.availableAt))
  }

  function NewRow(item: Item): Row {
    Row(item.key, item.priority, item.availableAt, None, None, 0)
  }

  predicate Skipped(db: Db, item: Item) {
    !item.refreshExisting && item.key in db.succeeded
  }

  // One round of enqueue's loop: skip, merge into the row of the same entity, or insert.
  function Upsert(db: Db, item: Item): Db {
    if Skipped(db, item) then db
    else if Live(db, item.key) then
      db.(rows := map id | id in db.rows ::
            if db.rows[id].key == item.key then Merge(db.rows[id], item) else db.rows[id])
    else
      db.(rows := db.rows[db.nextId := NewRow(item)],
          nextId := db.nextId + 1)
  }

  function Fold(db: Db, items: seq<Item>): Db {
    if items == [] then db
    else Upsert(Fold(db, items[..|items| - 1]), items[|items| - 1])
  }

  // Python's order on str: by code point, a prefix first.
  predicate StringLeq(a: string, b: string) {
    a == "" || (b != "" && (a[0] < b[0] || (a[0] == b[0] && StringLeq(a[1..], b[1..]))))
  }

  // The order of the enum values "lot", "notice", "organization", "plan_item".
  function Rank(kind: EntityType): nat {
    match kind
    case Lot => 0
    case Notice => 1
    case Organization => 2
    case PlanItem => 3
  }

  // _identity_sort_key
  predicate KeyLeq(a: Key, b: Key) {
    if a.source != b.source then a.source == EepMitwork
    else if a.kind != b.kind then Rank(a.kind) < Rank(b.kind)
    else StringLeq(a.id, b.id)
  }

  function Insert(item: Item, items: seq<Item>): (sorted: seq<Item>)
    ensures multiset(sorted) == multiset(items) + multiset{item}
  {
    if items == [] then [item]
    else if KeyLeq(items[|items| - 1].key, item.key) then items + [item]
    else
      assert items == items[..|items| - 1] + [items[|items| - 1]];
      Insert(item, items[..|items| - 1]) + [items[|items| - 1]]
  }

  // sorted(items, key=_identity_sort_key), which is stable.
  function Sorted(items: seq<Item>): (sorted: seq<Item>)
    ensures multiset(sorted) == multiset(items)
  {
    if items == [] then []
    else
      assert items == items[..|items| - 1] + [items[|items| - 1]];
      Insert(items[|items| - 1], Sorted(items[..|items| - 1]))
  }

  // The enqueue transaction.
  function Upserts(db: Db, items: seq<Item>): Db {
    Fold(db, Sorted(items))
  }

  lemma UpsertsOne(db: Db, item: Item)
    ensures Upserts(db, [item]) == Upsert(db, item)
  {
    assert [item][..0] == [];
    assert Sorted([item]) == [item];
    assert Fold(db, [item]) == Upsert(Fold(db, [item][..0]), item);
  }

  lemma SortedSame(items: seq<Item>)
    ensures |Sorted(items)| == |items|
    ensures forall item :: item in Sorted(items) <==> item in items
    ensures Keys(Sorted(items)) == Keys(items)
  {
    var sorted := Sorted(items);
    assert |multiset(sorted)| == |sorted| && |multiset(items)| == |items|;
    forall item
      ensures item in sorted <==> item in items
    {
      assert item in sorted <==> item in multiset(sorted);
      assert item in items <==> item in multiset(items);
    }
    KeysByMembers(sorted, items);
    KeysByMembers(items, sorted);
  }

  lemma KeysByMembers(a: seq<Item>, b: seq<Item>)
    requires forall item | item in a :: item in b
    ensures Keys(a) <= Keys(b)
  {
    forall key | key in Keys(a)
      ensures key in Keys(b)
    {
      var i :| 0 <= i < |a| && a[i].key == key;
      assert a[i] in b;
      var j :| 0 <= j < |b| && b[j] == a[i];
    }
  }

  // ---------------------------------------------------------------- claim

  // ORDER BY priority DESC, available_at ASC, id ASC
  predicate Before(db: Db, i: nat, j: nat)
    requires i in db.rows && j in db.rows
  {
    var a, b := db.rows[i], db.rows[j];
    a.priority > b.priority
    || (a.priority == b.priority
        && (a.availableAt < b.availableAt || (a.availableAt == b.availableAt && i < j)))
  }

  datatype Query = Query(source: Option<Source>, limit: nat, backfillOnly: bool)

  predicate Unleased(row: Row, now: Time) {
    row.leasedUntil.None? || row.leasedUntil.value < now
  }

  predicate Eligible(row: Row, query: Query, now: Time) {
    && row.availableAt <= now
    && Unleased(row, now)
    && (query.source.Some? ==> row.key.source == query.source.value)
    && (query.backfillOnly ==> row.priority <= 0)
  }

  function EligibleIds(db: Db, query: Query, now: Time): set<nat> {
    set id | id in db.rows && Eligible(db.rows[id], query, now)
  }

  // The members of `ids` that the claim order puts in front of row `id`.
  function Ahead(db: Db, ids: set<nat>, id: nat): set<nat>
    requires ids <= db.rows.Keys && id in db.rows
  {
    set j | j in ids && Before(db, j, id)
  }

  // The rows a claim leases: those with fewer than `limit` eligible rows in front of them.
  function Chosen(db: Db, query: Query, now: Time): set<nat> {
    var ids := EligibleIds(db, query, now);
    set id | id in ids && |Ahead(db, ids, id)| < query.limit
  }

  function Claim(db: Db, worker: WorkerId, query: Query, lease: nat, now: Time): Db {
    var chosen := Chosen(db, query, now);
    db.(rows := map id | id in db.rows ::
          if id in chosen then
            db.rows[id].(leaseOwner := Some(worker), leasedUntil := Some(now + lease),
                         attempt := db.rows[id].attempt + 1)
          else db.rows[id])
  }

  // ---------------------------------------------------------------- the other transactions

  // WHERE id = task.id AND attempt = task.attempt
  predicate Current(db: Db, task: Task) {
    task.id in db.rows && db.rows[task.id].attempt == task.attempt
  }

  predicate Owns(db: Db, task: Task, worker: WorkerId) {
    Current(db, task) && db.rows[task.id].leaseOwner == Some(worker)
  }

  function ExtendLease(db: Db, task: Task, worker: WorkerId, lease: int, now: Time): Db {
    if Owns(db, task, worker)
    then db.(rows := db.rows[task.id := db.rows[task.id].(leasedUntil := Some(now + Max(1, lease)))])
    else db
  }

  // Complete and fail differ only in the outcome they write.
  function Close(db: Db, task: Task, outcome: Outcome): Db {
    if Current(db, task)
    then db.(rows := db.rows - {task.id},
             history := db.history + [HistoryRow(task.id, db.rows[task.id].key, db.rows[task.id].attempt, outcome)])
    else db
  }

  function Retry(db: Db, task: Task, delay: int, now: Time): Db {
    if Current(db, task)
    then db.(rows := db.rows[task.id := db.rows[task.id].(leaseOwner := None, leasedUntil := None,
                                                          availableAt := now + delay)])
    else db
  }

  function Unlease(row: Row): Row {
    row.(leaseOwner := None, leasedUntil := None)
  }

  function Release(db: Db, ids: set<nat>, worker: WorkerId): Db {
    db.(rows := map id | id in db.rows ::
          if id in ids && db.rows[id].leaseOwner == Some(worker) then Unlease(db.rows[id]) else db.rows[id])
  }

  function ReleaseByOwner(db: Db, worker: WorkerId): Db {
    db.(rows := map id | id in db.rows ::
          if db.rows[id].leaseOwner == Some(worker) then Unlease(db.rows[id]) else db.rows[id])
  }

  predicate Stale(row: Row, source: Option<Source>, now: Time) {
    && row.leaseOwner.Some?
    && row.leasedUntil.Some? && row.leasedUntil.value < now
    && (source.Some? ==> row.key.source == source.value)
  }

  function ReleaseStale(db: Db, source: Option<Source>, now: Time): Db {
    db.(rows := map id | id in db.rows ::
          if Stale(db.rows[id], source, now) then Unlease(db.rows[id]) else db.rows[id])
  }

  // persist sets last_success_at of every entity of the batch; EntityStore models the rest of it.
  function MarkSucceeded(db: Db, keys: set<Key>): Db {
    db.(succeeded := db.succeeded + keys)
  }

  // When a row that was handed out can be claimed again: a retried one from the end of its delay on,
  // and one with a lease after that is over.
  lemma EligibleAgain(db: Db, task: Task, worker: WorkerId, query: Query, wait: int, now: Time, at: Time)
    requires Current(db, task)
    ensures var row := db.rows[task.id];
            var wanted := (query.source.Some? ==> row.key.source == query.source.value) && (query.backfillOnly ==> row.priority <= 0);
            && (task.id in EligibleIds(Retry(db, task, wait, now), query, at) <==> wanted && at >= now + wait)
            && (row.leaseOwner == Some(worker) && row.availableAt <= now <= at ==>
                  (task.id in EligibleIds(ExtendLease(db, task, worker, wait, now), query, at)
                   <==> wanted && at > now + (if wait >= 1 then wait else 1)))
  {
  }

  // The same of a row that is claimed now.
  lemma ClaimedAgain(db: Db, worker: WorkerId, query: Query, lease: nat, now: Time, id: nat, at: Time)
    requires id in Chosen(db, query, now) && at >= now
    ensures id in EligibleIds(Claim(db, worker, query, lease, now), query, at) <==> at > now + lease
  {
  }

  // ---------------------------------------------------------------- claim selection

  ghost predicate FirstEligible(ids: set<nat>, query: Query, db: Db, now: Time) {
    && ids <= EligibleIds(db, query, now)
    && |ids| == Min(query.limit, |EligibleIds(db, query, now)|)
    && (forall i, j | i in ids && j in EligibleIds(db, query, now) - ids :: Before(db, i, j))
  }

  lemma SubsetSize<T>(a: set<T>, b: set<T>)
    requires a <= b
    ensures |a| <= |b|
    ensures |a| == |b| ==> a == b
  {
    assert b == a + (b - a);
  }

  lemma OrderIsAsymmetric(db: Db, i: nat, j: nat)
    requires i in db.rows && j in db.rows
    ensures !(Before(db, i, j) && Before(db, j, i))
  {
  }

  // Among finitely many rows there is a last one in claim order.
  lemma LastInOrder(db: Db, ids: set<nat>) returns (last: nat)
    requires ids <= db.rows.Keys && ids != {}
    ensures last in ids && forall i | i in ids && i != last :: Before(db, i, last)
  {
    var first: nat :| first in ids;
    var rest := ids - {first};
    last := first;
    if rest == {} {
      assert ids == {first};
    } else {
      var other := LastInOrder(db, rest);
      last := if Before(db, first, other) then other else first;
      forall i | i in ids && i != last
        ensures Before(db, i, last)
      {
        assert i == first || i == other || Before(db, i, other);
      }
    }
  }

  // The last row has all others ahead of it, and is ahead of none.
  lemma AheadWithoutLast(db: Db, ids: set<nat>, last: nat)
    requires ids <= db.rows.Keys && last in ids && forall id | id in ids && id != last :: Before(db, id, last)
    ensures Ahead(db, ids, last) == ids - {last}
    ensures forall id | id in ids - {last} :: Ahead(db, ids, id) == Ahead(db, ids - {last}, id)
  {
    forall id | id in ids - {last}
      ensures Ahead(db, ids, id) == Ahead(db, ids - {last}, id)
    {
      OrderIsAsymmetric(db, id, last);
    }
  }

  ghost function FirstOnes(db: Db, ids: set<nat>, limit: nat): set<nat>
    requires ids <= db.rows.Keys
  {
    set id | id in ids && |Ahead(db, ids, id)| < limit
  }

  // The rows with fewer than `limit` predecessors are a prefix of the order, of the right size.
  lemma {:induction false} PrefixSize(db: Db, ids: set<nat>, limit: nat)
    requires ids <= db.rows.Keys
    ensures |FirstOnes(db, ids, limit)| == Min(limit, |ids|)
    decreases |ids|
  {
    var chosen := FirstOnes(db, ids, limit);
    if ids == {} {
      assert chosen == {};
    } else {
      var last := LastInOrder(db, ids);
      var rest := ids - {last};
      PrefixSize(db, rest, limit);
      AheadWithoutLast(db, ids, last);
      if |rest| < limit {
        assert chosen == FirstOnes(db, rest, limit) + {last};
      } else {
        assert chosen == FirstOnes(db, rest, limit);
      }
    }
  }

  // A claim leases exactly the first min(limit, eligible) eligible rows, and no other set of rows
  // fits that description.
  lemma ClaimSelectsPrefix(db: Db, query: Query, now: Time)
    ensures FirstEligible(Chosen(db, query, now), query, db, now)
    ensures forall ids | FirstEligible(ids, query, db, now) :: ids == Chosen(db, query, now)
  {
    var eligible := EligibleIds(db, query, now);
    var chosen := Chosen(db, query, now);
    PrefixSize(db, eligible, query.limit);
    assert chosen == FirstOnes(db, eligible, query.limit);
    forall i, j | i in chosen && j in eligible - chosen
      ensures Before(db, i, j)
    {
      if !Before(db, i, j) {
        assert i != j;
        assert Ahead(db, eligible, j) <= Ahead(db, eligible, i);
        SubsetSize(Ahead(db, eligible, j), Ahead(db, eligible, i));
      }
    }
    forall ids | FirstEligible(ids, query, db, now)
      ensures ids == chosen
    {
      if ids != chosen {
        if ids <= chosen {
          SubsetSize(ids, chosen);
        } else if chosen <= ids {
          SubsetSize(chosen, ids);
        } else {
          var i :| i in ids && i !in chosen;
          var j :| j in chosen && j !in ids;
          OrderIsAsymmetric(db, i, j);
          assert false;
        }
      }
    }
  }

  // What that means for the rows. A row may be claimed when it is available and free, of the source
  // asked for and, for a backfill claim, without priority. One that is left behind is there only
  // because the limit is reached, by rows of higher priority, or of the same and available earlier,
  // or then of lower id.
  lemma ClaimTakesMostUrgent(db: Db, query: Query, now: Time)
    ensures forall id | id in db.rows ::
              var row := db.rows[id];
              Eligible(row, query, now) <==> && row.availableAt <= now
                                             && (row.leasedUntil.Some? ==> row.leasedUntil.value < now)
                                             && (query.source == None || query.source == Some(row.key.source))
                                             && !(query.backfillOnly && row.priority > 0)
    ensures forall id | id in Chosen(db, query, now) :: id in db.rows && Eligible(db.rows[id], query, now)
    ensures forall first, id | first in Chosen(db, query, now) && id in db.rows && id !in Chosen(db, query, now)
                               && Eligible(db.rows[id], query, now) ::
              var taken, left := db.rows[first], db.rows[id];
              && |Chosen(db, query, now)| == query.limit
              && taken.priority >= left.priority
              && (taken.priority == left.priority ==> taken.availableAt <= left.availableAt)
              && (taken.priority == left.priority && taken.availableAt == left.availableAt ==> first < id)
  {
    ClaimSelectsPrefix(db, query, now);
    var eligible, chosen := EligibleIds(db, query, now), Chosen(db, query, now);
    forall first, id | first in chosen && id in db.rows && id !in chosen && Eligible(db.rows[id], query, now)
      ensures Before(db, first, id) && |chosen| == query.limit
    {
      assert id in eligible;
      SubsetSize(chosen, eligible);
    }
  }

  // A backfill worker asks first for rows of priority at most 0 (limit at least 1). It comes away
  // empty-handed, and asks again without the filter, only when there was no such row.
  lemma BackfillFirst(db: Db, query: Query, now: Time)
    requires query.backfillOnly && query.limit > 0
    ensures Chosen(db, query, now) == {} <==>
            forall id | id in db.rows && Eligible(db.rows[id], query.(backfillOnly := false), now) :: db.rows[id].priority > 0
  {
    ClaimSelectsPrefix(db, query, now);
    if id :| id in db.rows && Eligible(db.rows[id], query.(backfillOnly := false), now) && db.rows[id].priority <= 0 {
      assert id in EligibleIds(db, query, now);
    }
  }
}
