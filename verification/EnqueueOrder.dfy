// What enqueue does to the table, read by entity: the order of the items, which only decides who
// gets which row id, does not matter.
module EnqueueOrder {
  import opened Types
  import opened Frontier

  // uq_frontier_entity_task: one row for each entity.
  ghost predicate UniqueKeys(db: Db) {
    forall i, j | i in db.rows && j in db.rows && db.rows[i].key == db.rows[j].key :: i == j
  }

  // `view` is the frontier without its row ids: the row of each live entity.
  ghost predicate IsView(db: Db, view: map<Key, Row>) {
    && (forall id | id in db.rows :: db.rows[id].key in view && view[db.rows[id].key] == db.rows[id])
    && (forall key | key in view :: Live(db, key))
  }

  ghost predicate IdsBelow(db: Db) {
    forall id | id in db.rows :: id < db.nextId
  }

  // The shape enqueue relies on and keeps.
  ghost predicate Keyed(db: Db) {
    UniqueKeys(db) && IdsBelow(db)
  }

  function Put(view: map<Key, Row>, succeeded: set<Key>, item: Item): map<Key, Row> {
    if !item.refreshExisting && item.key in succeeded then view
    else if item.key in view then view[item.key := Merge(view[item.key], item)]
    else view[item.key := NewRow(item)]
  }

  function Puts(view: map<Key, Row>, succeeded: set<Key>, items: seq<Item>): map<Key, Row> {
    if items == [] then view
    else Put(Puts(view, succeeded, items[..|items| - 1]), succeeded, items[|items| - 1])
  }

  lemma MergeView(db: Db, view: map<Key, Row>, item: Item)
    requires Keyed(db) && IsView(db, view) && !Skipped(db, item) && Live(db, item.key)
    ensures Keyed(Upsert(db, item)) && IsView(Upsert(db, item), Put(view, db.succeeded, item))
  {
    var rows := Upsert(db, item).rows;
    assert forall id | id in db.rows :: rows[id].key == db.rows[id].key;
    assert Keyed(Upsert(db, item));
    var at :| at in db.rows && db.rows[at].key == item.key;
    assert view[item.key] == db.rows[at];
    var put := Put(view, db.succeeded, item);
    assert put == view[item.key := Merge(view[item.key], item)];
    forall id | id in rows
      ensures rows[id].key in put && put[rows[id].key] == rows[id]
    {
      assert id in db.rows;
    }
    forall key | key in put
      ensures Live(Upsert(db, item), key)
    {
      assert key in view;
      var id :| id in db.rows && db.rows[id].key == key;
      assert id in rows && rows[id].key == key;
    }
  }

  lemma InsertView(db: Db, view: map<Key, Row>, item: Item)
    requires Keyed(db) && IsView(db, view) && !Skipped(db, item) && !Live(db, item.key)
    ensures Keyed(Upsert(db, item)) && IsView(Upsert(db, item), Put(view, db.succeeded, item))
  {
    var after := Upsert(db, item);
    assert after.rows[db.nextId] == NewRow(item);
    forall key | key in view
      ensures Live(after, key)
    {
      var id :| id in db.rows && db.rows[id].key == key;
      assert after.rows[id].key == key;
    }
  }

  // The loop of enqueue is the fold of Put over the items, whatever ids the rows get.
  lemma {:induction false} FoldView(db: Db, view: map<Key, Row>, items: seq<Item>)
    requires Keyed(db) && IsView(db, view)
    ensures Keyed(Fold(db, items)) && IsView(Fold(db, items), Puts(view, db.succeeded, items))
    ensures Fold(db, items).succeeded == db.succeeded
    ensures Fold(db, items).history == db.history
  {
    if items != [] {
      var front, last := items[..|items| - 1], items[|items| - 1];
      FoldView(db, view, front);
      var before := Fold(db, front);
      if !Skipped(before, last) {
        if Live(before, last.key) {
          MergeView(before, Puts(view, db.succeeded, front), last);
        } else {
          InsertView(before, Puts(view, db.succeeded, front), last);
        }
      }
    }
  }

  lemma PutsCommute(view: map<Key, Row>, succeeded: set<Key>, a: Item, b: Item)
    ensures Put(Put(view, succeeded, a), succeeded, b) == Put(Put(view, succeeded, b), succeeded, a)
  {
  }

  lemma {:induction false} PutsConcat(view: map<Key, Row>, succeeded: set<Key>, a: seq<Item>, b: seq<Item>)
    ensures Puts(view, succeeded, a + b) == Puts(Puts(view, succeeded, a), succeeded, b)
  {
    if b == [] {
      assert a + b == a;
    } else {
      PutsConcat(view, succeeded, a, b[..|b| - 1]);
      assert (a + b)[..|a + b| - 1] == a + b[..|b| - 1];
    }
  }

  // One item may be put first or last.
  lemma {:induction false} PutEarlier(view: map<Key, Row>, succeeded: set<Key>, item: Item, items: seq<Item>)
    ensures Put(Puts(view, succeeded, items), succeeded, item) == Puts(Put(view, succeeded, item), succeeded, items)
  {
    if items != [] {
      var front := items[..|items| - 1];
      PutEarlier(view, succeeded, item, front);
      PutsCommute(Puts(view, succeeded, front), succeeded, items[|items| - 1], item);
    }
  }

  // An item in the middle may as well come last.
  lemma PutLast(view: map<Key, Row>, succeeded: set<Key>, left: seq<Item>, item: Item, right: seq<Item>)
    ensures Puts(view, succeeded, left + ([item] + right)) == Put(Puts(view, succeeded, left + right), succeeded, item)
  {
    var view1 := Puts(view, succeeded, left);
    PutsConcat(view, succeeded, left, right);
    PutsConcat(view, succeeded, left, [item] + right);
    PutsConcat(view1, succeeded, [item], right);
    assert Puts(view1, succeeded, [item]) == Put(Puts(view1, succeeded, []), succeeded, item);
    PutEarlier(view1, succeeded, item, right);
  }

  // Two orders of the same items leave the same frontier.
  lemma {:induction false} OrderDoesNotMatter(view: map<Key, Row>, succeeded: set<Key>, a: seq<Item>, b: seq<Item>)
    requires multiset(a) == multiset(b)
    ensures Puts(view, succeeded, a) == Puts(view, succeeded, b)
    decreases |a|
  {
    if a == [] {
      assert |multiset(b)| == 0;
      assert b == [];
    } else {
      var item, front := a[|a| - 1], a[..|a| - 1];
      assert a == front + [item];
      assert item in multiset(b);
      var at :| 0 <= at < |b| && b[at] == item;
      var left, right := b[..at], b[at + 1..];
      assert b == left + ([item] + right);
      assert multiset(left + right) == multiset(b) - multiset{item};
      assert multiset(front) == multiset(a) - multiset{item};
      OrderDoesNotMatter(view, succeeded, front, left + right);
      PutLast(view, succeeded, left, item, right);
    }
  }

  // Enqueue sorts the items by identity. The frontier it leaves is that of any other order.
  lemma EnqueueView(db: Db, view: map<Key, Row>, items: seq<Item>)
    requires Keyed(db) && IsView(db, view)
    ensures Keyed(Upserts(db, items)) && IsView(Upserts(db, items), Puts(view, db.succeeded, items))
    ensures Upserts(db, items).succeeded == db.succeeded
    ensures Upserts(db, items).history == db.history
  {
    FoldView(db, view, Sorted(items));
    OrderDoesNotMatter(view, db.succeeded, Sorted(items), items);
  }

  // An item is absorbed when enqueue would skip it or its entity has a row that is at least as
  // urgent already.
  ghost predicate Absorbed(view: map<Key, Row>, succeeded: set<Key>, item: Item) {
    || (!item.refreshExisting && item.key in succeeded)
    || (item.key in view && view[item.key].priority >= item.priority && view[item.key].availableAt <= item.availableAt)
  }

  // After an enqueue its own items are absorbed, also when they come back with a later
  // available_at.
  lemma {:induction false} EnqueueAbsorbs(view: map<Key, Row>, succeeded: set<Key>, items: seq<Item>, item: Item,
                                          later: Time)
    requires item in items && later >= item.availableAt
    ensures Absorbed(Puts(view, succeeded, items), succeeded, item.(availableAt := later))
  {
    var front, last := items[..|items| - 1], items[|items| - 1];
    if item in front {
      EnqueueAbsorbs(view, succeeded, front, item, later);
    } else {
      assert item == last;
    }
  }

  // Absorbed items change nothing, in any number: an enqueue may be repeated safely.
  lemma {:induction false} AbsorbedIsNoOp(db: Db, view: map<Key, Row>, items: seq<Item>)
    requires Keyed(db) && IsView(db, view)
    requires forall item | item in items :: Absorbed(view, db.succeeded, item)
    ensures Fold(db, items) == db
  {
    if items != [] {
      var front, last := items[..|items| - 1], items[|items| - 1];
      AbsorbedIsNoOp(db, view, front);
      assert last in items;
      if !Skipped(db, last) {
        assert last.key in view;
        assert Upsert(db, last).rows == db.rows;
      }
    }
  }

  // `again` asks for items of `items`, refetched at a later time.
  ghost predicate Refetched(items: seq<Item>, again: seq<Item>) {
    forall next | next in again ::
      exists item :: item in items && next == item.(availableAt := next.availableAt)
                     && next.availableAt >= item.availableAt
  }

  // Enqueueing the same items a second time, refetched later, leaves the table as it is.
  lemma RepeatedEnqueueIsNoOp(db: Db, view: map<Key, Row>, items: seq<Item>, again: seq<Item>)
    requires Keyed(db) && IsView(db, view) && Refetched(items, again)
    ensures Upserts(Upserts(db, items), again) == Upserts(db, items)
  {
    EnqueueView(db, view, items);
    var after := Puts(view, db.succeeded, items);
    forall next | next in again
      ensures Absorbed(after, db.succeeded, next)
    {
      var item :| item in items && next == item.(availableAt := next.availableAt)
                  && next.availableAt >= item.availableAt;
      EnqueueAbsorbs(view, db.succeeded, items, item, next.availableAt);
    }
    SortedSame(again);
    AbsorbedIsNoOp(Upserts(db, items), after, Sorted(again));
  }

  // ---------------------------------------------------------------- the order of identities

  function SourceName(source: Source): string {
    match source
    case EepMitwork => "eep-mitwork"
    case ZakupSk => "zakup-sk"
  }

  function KindName(kind: EntityType): string {
    match kind
    case Lot => "lot"
    case Notice => "notice"
    case PlanItem => "plan_item"
    case Organization => "organization"
  }

  // The order is that of the names: source, then type, then id.
  lemma KeysOrderedByName(a: Key, b: Key)
    ensures KeyLeq(a, b) <==> if a.source != b.source then StringLeq(SourceName(a.source), SourceName(b.source))
                              else if a.kind != b.kind then StringLeq(KindName(a.kind), KindName(b.kind))
                              else StringLeq(a.id, b.id)
  {
  }

  // A string comes before another if it begins it, or has the lower character where they first differ.
  lemma {:induction false} StringsOrderedByFirstDifference(a: string, b: string)
    ensures StringLeq(a, b) <==> a <= b || exists k: nat :: FirstDifference(a, b, k) && a[k] < b[k]
  {
    if a != "" && b != "" && a[0] == b[0] {
      StringsOrderedByFirstDifference(a[1..], b[1..]);
      if k: nat :| FirstDifference(a[1..], b[1..], k) && a[1..][k] < b[1..][k] {
        assert a[..k + 1] == [a[0]] + a[1..][..k] && b[..k + 1] == [b[0]] + b[1..][..k];
        assert FirstDifference(a, b, k + 1);
      }
      if k: nat :| FirstDifference(a, b, k) && a[k] < b[k] {
        assert k > 0 && a[1..][..k - 1] == a[..k][1..] && b[1..][..k - 1] == b[..k][1..];
        assert FirstDifference(a[1..], b[1..], k - 1);
      }
      assert a <= b <==> a[1..] <= b[1..] by {
        assert a == [a[0]] + a[1..] && b == [b[0]] + b[1..];
      }
    } else if a != "" && b != "" && a[0] < b[0] {
      assert FirstDifference(a, b, 0);
    }
  }

  ghost predicate FirstDifference(a: string, b: string, k: nat) {
    k < |a| && k < |b| && a[k] != b[k] && a[..k] == b[..k]
  }

  lemma {:induction false} StringLeqTotal(a: string, b: string, c: string)
    ensures StringLeq(a, b) || StringLeq(b, a)
    ensures StringLeq(a, b) && StringLeq(b, c) ==> StringLeq(a, c)
  {
    if a != "" && b != "" {
      StringLeqTotal(a[1..], b[1..], if c != "" then c[1..] else "");
    }
  }

  lemma KeyLeqTotal(a: Key, b: Key, c: Key)
    ensures KeyLeq(a, b) || KeyLeq(b, a)
    ensures KeyLeq(a, b) && KeyLeq(b, c) ==> KeyLeq(a, c)
  {
    StringLeqTotal(a.id, b.id, c.id);
  }

  ghost predicate InOrder(items: seq<Item>) {
    forall i, j | 0 <= i < j < |items| :: KeyLeq(items[i].key, items[j].key)
  }

  lemma {:induction false} InsertKeepsOrder(item: Item, items: seq<Item>)
    requires InOrder(items)
    ensures InOrder(Insert(item, items))
  {
    if items != [] {
      var front, last := items[..|items| - 1], items[|items| - 1];
      KeyLeqTotal(last.key, item.key, item.key);
      if KeyLeq(last.key, item.key) {
        forall i | 0 <= i < |items|
          ensures KeyLeq(items[i].key, item.key)
        {
          KeyLeqTotal(items[i].key, last.key, item.key);
        }
      } else {
        InsertKeepsOrder(item, front);
        forall x | x in Insert(item, front)
          ensures KeyLeq(x.key, last.key)
        {
          assert x in multiset(Insert(item, front));
        }
      }
    }
  }

  // So a batch is put in, and its new rows get their ids, in the order of its identities.
  lemma {:induction false} SortedInOrder(items: seq<Item>)
    ensures InOrder(Sorted(items))
  {
    if items != [] {
      SortedInOrder(items[..|items| - 1]);
      InsertKeepsOrder(items[|items| - 1], Sorted(items[..|items| - 1]));
    }
  }
}
