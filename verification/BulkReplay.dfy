// PostgresLotBulkReplayer: a whole file of lots through a staging table, against the same rows
// replayed one at a time.
module BulkReplay {
  import opened Types
  import opened EntityStore

  // One replayed row; `content` stands for its titles, status and payload.
  datatype Record = Record(source: Source, id: string, hash: string, content: string, fetchedAt: Time)

  function KeyOf(row: Record): Key {
    Key(row.source, Lot, row.id)
  }

  // SELECT DISTINCT ON (source, source_entity_id) ... ORDER BY ..., fetched_at DESC: for each lot one
  // of its latest rows. Which one, if several are the latest, is not said.
  ghost predicate IsLatest(rows: seq<Record>, latest: map<Key, Record>) {
    && (forall row | row in rows :: KeyOf(row) in latest && row.fetchedAt <= latest[KeyOf(row)].fetchedAt)
    && (forall k | k in latest :: latest[k] in rows && KeyOf(latest[k]) == k)
  }

  // INSERT INTO source_entities ... ON CONFLICT DO UPDATE
  function UpsertEntities(s: Store, latest: map<Key, Record>): Store {
    s.(entities := s.entities + map k | k in latest :: Entity(Some(latest[k].hash), Some(latest[k].fetchedAt)))
  }

  predicate Writes(s: Store, latest: map<Key, Record>, key: Key) {
    key in latest && (key !in s.tables || s.tables[key].hash != latest[key].hash)
  }

  // INSERT INTO lots ... ON CONFLICT DO UPDATE ... WHERE the hash IS DISTINCT FROM the new one
  function UpsertLots(s: Store, latest: map<Key, Record>): Store {
    s.(tables := map k | k in s.tables.Keys + latest.Keys ::
         if Writes(s, latest, k) then Stored(latest[k].hash, latest[k].content, latest[k].fetchedAt) else s.tables[k])
  }

  // The two statements select from the staging table separately.
  function Replayed(s: Store, first: map<Key, Record>, second: map<Key, Record>): Store {
    UpsertLots(UpsertEntities(s, first), second)
  }

  ghost function Joined(chunks: seq<seq<Record>>): seq<Record> {
    if chunks == [] then [] else Joined(chunks[..|chunks| - 1]) + chunks[|chunks| - 1]
  }

  class BulkReplayer {
    const chunkSize: int
    var entities: map<Key, Entity>
    var tables: map<Key, Stored>
    const revisions: seq<Revision>
    const links: set<Link>

    function Value(): Store
      reads this
    {
      Store(entities, tables, revisions, links)
    }

    constructor (s: Store, chunkSize: int)
      ensures Value() == s && this.chunkSize == chunkSize
    {
      this.chunkSize := chunkSize;
      entities, tables, revisions, links := s.entities, s.tables, s.revisions, s.links;
    }

    // Every row reaches the staging table once, in order, in chunks of the configured size but for the
    // last.
    method Stage(rows: seq<Record>) returns (staging: seq<Record>, total: nat, ghost chunks: seq<seq<Record>>)
      ensures staging == rows && total == |rows| && Joined(chunks) == rows
      ensures forall i | 0 <= i < |chunks| :: 0 < |chunks[i]| <= Max(1, chunkSize)
      ensures forall i | 0 <= i < |chunks| - 1 :: |chunks[i]| == Max(1, chunkSize)
    {
      var chunk: seq<Record>;
      staging, chunk, total, chunks := [], [], 0, [];
      for i := 0 to |rows|
        invariant staging + chunk == rows[..i] && total == |staging| && Joined(chunks) == staging
        invariant |chunk| < Max(1, chunkSize)
        invariant forall j | 0 <= j < |chunks| :: |chunks[j]| == Max(1, chunkSize)
      {
        chunk := chunk + [rows[i]];
        if |chunk| >= chunkSize {
          staging := staging + chunk;
          total := total + |chunk|;
          chunks := chunks + [chunk];
          chunk := [];
        }
      }
      if chunk != [] {
        staging := staging + chunk;
        total := total + |chunk|;
        chunks := chunks + [chunk];
      }
      assert rows[..|rows|] == rows;
    }

    method DistinctOn(staging: seq<Record>) returns (latest: map<Key, Record>)
      ensures IsLatest(staging, latest)
    {
      latest := map[];
      for i := 0 to |staging|
        invariant IsLatest(staging[..i], latest)
      {
        var row := staging[i];
        assert staging[..i + 1] == staging[..i] + [row];
        if KeyOf(row) !in latest || latest[KeyOf(row)].fetchedAt <= row.fetchedAt {
          latest := latest[KeyOf(row) := row];
        }
      }
      assert staging[..|staging|] == staging;
    }

    method Replay(rows: seq<Record>) returns (total: nat, ghost first: map<Key, Record>, ghost second: map<Key, Record>)
      modifies this
      ensures total == |rows| && IsLatest(rows, first) && IsLatest(rows, second)
      ensures Value() == Replayed(old(Value()), first, second)
    {
      var staging;
      ghost var chunks;
      staging, total, chunks := Stage(rows);
      var upserted := DistinctOn(staging);
      entities := UpsertEntities(Value(), upserted).entities;
      first := upserted;
      var selected := DistinctOn(staging);
      tables := UpsertLots(Value(), selected).tables;
      second := selected;
    }
  }

  // ---------------------------------------------------------------- one row at a time

  // Replaying a file of one row.
  function ReplayOne(s: Store, row: Record): Store {
    Replayed(s, map[KeyOf(row) := row], map[KeyOf(row) := row])
  }

  function ReplayEach(s: Store, rows: seq<Record>): Store {
    if rows == [] then s else ReplayOne(ReplayEach(s, rows[..|rows| - 1]), rows[|rows| - 1])
  }

  // The last row of a lot, in the order of the list.
  function LastOf(rows: seq<Record>, key: Key): (row: Option<Record>)
    ensures row.Some? ==> row.value in rows && KeyOf(row.value) == key
    ensures row.None? ==> forall r | r in rows :: KeyOf(r) != key
  {
    if rows == [] then None
    else if KeyOf(rows[|rows| - 1]) == key then Some(rows[|rows| - 1])
    else
      assert rows == rows[..|rows| - 1] + [rows[|rows| - 1]];
      LastOf(rows[..|rows| - 1], key)
  }

  // Equal hashes of one lot mean equal content.
  ghost predicate HashTells(s: Store, rows: seq<Record>) {
    && (forall a, b | a in rows && b in rows && KeyOf(a) == KeyOf(b) && a.hash == b.hash :: a.content == b.content)
    && (forall a | a in rows && KeyOf(a) in s.tables && s.tables[KeyOf(a)].hash == a.hash :: s.tables[KeyOf(a)].content == a.content)
  }

  // What a store says of a lot, apart from when the lot's table row was written.
  ghost predicate Says(s: Store, key: Key, row: Record) {
    && key in s.entities && s.entities[key] == Entity(Some(row.hash), Some(row.fetchedAt))
    && key in s.tables && s.tables[key].hash == row.hash && s.tables[key].content == row.content
  }

  // Both stores say the same of the entity.
  ghost predicate SameAt(s: Store, t: Store, key: Key) {
    && (key in t.entities <==> key in s.entities) && (key in s.entities ==> t.entities[key] == s.entities[key])
    && (key in t.tables <==> key in s.tables) && (key in s.tables ==> t.tables[key] == s.tables[key])
  }

  // Row by row, the last row of a lot wins, and lots without a row stay as they were.
  lemma {:induction false} EachLeavesLast(s: Store, rows: seq<Record>, key: Key)
    requires HashTells(s, rows)
    ensures var last := LastOf(rows, key);
            if last.Some? then Says(ReplayEach(s, rows), key, last.value) else SameAt(s, ReplayEach(s, rows), key)
  {
    if rows != [] {
      var front, row := rows[..|rows| - 1], rows[|rows| - 1];
      assert rows == front + [row];
      assert HashTells(s, front);
      EachLeavesLast(s, front, key);
      var before := ReplayEach(s, front);
      assert row in rows;
      var last := LastOf(front, key);
      if KeyOf(row) == key && key in before.tables && before.tables[key].hash == row.hash {
        assert before.tables[key].content == row.content;
      }
    }
  }

  // In bulk the latest row of a lot wins, whatever the order of the file.
  lemma BulkLeavesLatest(s: Store, rows: seq<Record>, first: map<Key, Record>, second: map<Key, Record>, key: Key)
    requires IsLatest(rows, first) && IsLatest(rows, second) && HashTells(s, rows)
    requires key in first ==> key in second && second[key] == first[key]
    ensures if key in first then Says(Replayed(s, first, second), key, first[key])
            else SameAt(s, Replayed(s, first, second), key)
  {
    if key in second {
      assert second[key] in rows;
    }
  }

  // Rows of one lot with the same timestamp are the same row.
  ghost predicate NoTies(rows: seq<Record>) {
    forall a, b | a in rows && b in rows && KeyOf(a) == KeyOf(b) && a.fetchedAt == b.fetchedAt :: a == b
  }

  ghost predicate Ascending(rows: seq<Record>) {
    forall i: nat, j: nat | i < j < |rows| && KeyOf(rows[i]) == KeyOf(rows[j]) :: rows[i].fetchedAt <= rows[j].fetchedAt
  }

  lemma {:induction false} LastIsLatest(rows: seq<Record>, key: Key, row: Record)
    requires Ascending(rows) && row in rows && KeyOf(row) == key
    ensures LastOf(rows, key).Some? && row.fetchedAt <= LastOf(rows, key).value.fetchedAt
  {
    var n := |rows|;
    var i: nat :| i < n && rows[i] == row;
    if KeyOf(rows[n - 1]) != key {
      assert rows[..n - 1][i] == row;
      LastIsLatest(rows[..n - 1], key, row);
    }
  }

  // One bulk replay of a file in any order, through chunks of any size, says of every lot what
  // replaying its rows one at a time, the oldest first, says of it.
  lemma {:induction false} BulkIsOneByOne(s: Store, rows: seq<Record>, first: map<Key, Record>,
                                          second: map<Key, Record>, each: seq<Record>, key: Key)
    requires IsLatest(rows, first) && IsLatest(rows, second) && NoTies(rows) && HashTells(s, rows)
    requires (forall row :: row in each <==> row in rows) && Ascending(each)
    ensures key in first <==> exists row :: row in rows && KeyOf(row) == key
    ensures if key in first
            then Says(Replayed(s, first, second), key, first[key]) && Says(ReplayEach(s, each), key, first[key])
            else SameAt(s, Replayed(s, first, second), key) && SameAt(s, ReplayEach(s, each), key)
  {
    if key in first {
      LastIsLatest(each, key, first[key]);
      var last := LastOf(each, key).value;
      assert last in rows && first[key] in rows && second[key] in rows;
      assert last.fetchedAt == first[key].fetchedAt == second[key].fetchedAt;
      assert last == first[key] == second[key];
    }
    assert HashTells(s, each);
    EachLeavesLast(s, each, key);
    BulkLeavesLatest(s, rows, first, second, key);
  }

  // A row no other row of its lot is later than.
  ghost predicate Newest(rows: seq<Record>, row: Record) {
    row in rows && forall other | other in rows && KeyOf(other) == KeyOf(row) :: other.fetchedAt <= row.fetchedAt
  }

  // Rows that tie for the latest of a lot have one hash.
  ghost predicate OneNewestHash(rows: seq<Record>) {
    forall a, b | Newest(rows, a) && Newest(rows, b) && KeyOf(a) == KeyOf(b) :: a.hash == b.hash
  }

  lemma {:induction false} LatestExists(rows: seq<Record>) returns (latest: map<Key, Record>)
    ensures IsLatest(rows, latest)
  {
    latest := map[];
    if rows != [] {
      var front, row := rows[..|rows| - 1], rows[|rows| - 1];
      assert rows == front + [row];
      latest := LatestExists(front);
      if KeyOf(row) !in latest || latest[KeyOf(row)].fetchedAt <= row.fetchedAt {
        latest := latest[KeyOf(row) := row];
      }
    }
  }

  lemma KeyStaysAgreed(s: Store, first: map<Key, Record>, second: map<Key, Record>, key: Key)
    requires KeyAgrees(s, key) && (key in first <==> key in second)
    ensures KeyAgrees(Replayed(s, first, second), key) <==> (key in first ==> first[key].hash == second[key].hash)
  {
    var after := Replayed(s, first, second);
    assert key in after.tables <==> key in s.tables || key in second;
  }

  lemma BulkKeepsAgreement(s: Store, rows: seq<Record>, first: map<Key, Record>, second: map<Key, Record>)
    requires Agree(s) && OneNewestHash(rows) && IsLatest(rows, first) && IsLatest(rows, second)
    ensures Agree(Replayed(s, first, second))
  {
    forall k
      ensures KeyAgrees(Replayed(s, first, second), k)
    {
      assert KeyAgrees(s, k);
      if k in first || k in second {
        assert k in first && k in second && Newest(rows, first[k]) && Newest(rows, second[k]);
      }
      KeyStaysAgreed(s, first, second, k);
    }
  }

  lemma AnyNewestIsLatest(rows: seq<Record>, latest: map<Key, Record>, row: Record)
    requires IsLatest(rows, latest) && Newest(rows, row)
    ensures IsLatest(rows, latest[KeyOf(row) := row])
  {
  }

  lemma BulkBreaksAgreement(s: Store, rows: seq<Record>) returns (first: map<Key, Record>, second: map<Key, Record>)
    requires Agree(s) && !OneNewestHash(rows)
    ensures IsLatest(rows, first) && IsLatest(rows, second) && !Agree(Replayed(s, first, second))
  {
    var a, b :| Newest(rows, a) && Newest(rows, b) && KeyOf(a) == KeyOf(b) && a.hash != b.hash;
    var latest := LatestExists(rows);
    var key := KeyOf(a);
    first, second := latest[key := a], latest[key := b];
    AnyNewestIsLatest(rows, latest, a);
    AnyNewestIsLatest(rows, latest, b);
    assert KeyAgrees(s, key);
    KeyStaysAgreed(s, first, second, key);
    assert !KeyAgrees(Replayed(s, first, second), key);
  }

  ghost predicate SurelyAgrees(s: Store, rows: seq<Record>) {
    forall first, second | IsLatest(rows, first) && IsLatest(rows, second) :: Agree(Replayed(s, first, second))
  }

  // The statements select separately, so a bulk replay is sure to keep the two stored hashes of
  // every lot equal just when the rows that tie for the latest of a lot have one hash.
  lemma BulkAgreesIff(s: Store, rows: seq<Record>)
    requires Agree(s)
    ensures SurelyAgrees(s, rows) <==> OneNewestHash(rows)
  {
    if OneNewestHash(rows) {
      forall first, second | IsLatest(rows, first) && IsLatest(rows, second)
        ensures Agree(Replayed(s, first, second))
      {
        BulkKeepsAgreement(s, rows, first, second);
      }
    } else {
      var first, second := BulkBreaksAgreement(s, rows);
    }
  }

  // ---------------------------------------------------------------- when the table row was written

  // A content hash, and when it was fetched.
  datatype Stamp = Stamp(hash: string, at: Time)

  // What is stored of a lot, and then its rows, in the order of the list.
  function Stamps(s: Store, rows: seq<Record>, key: Key): seq<Stamp> {
    if rows == [] then
      if key in s.tables then [Stamp(s.tables[key].hash, s.tables[key].fetchedAt)] else []
    else
      var row := rows[|rows| - 1];
      Stamps(s, rows[..|rows| - 1], key) + if KeyOf(row) == key then [Stamp(row.hash, row.fetchedAt)] else []
  }

  // The last run of equal hashes begins at position i.
  predicate LastRunFrom(stamps: seq<Stamp>, i: nat) {
    && i < |stamps|
    && (forall j | i <= j < |stamps| :: stamps[j].hash == stamps[|stamps| - 1].hash)
    && (i > 0 ==> stamps[i - 1].hash != stamps[|stamps| - 1].hash)
  }

  lemma {:induction false} LastRunBegins(stamps: seq<Stamp>) returns (i: nat)
    requires stamps != []
    ensures LastRunFrom(stamps, i)
  {
    var front, n := stamps[..|stamps| - 1], |stamps|;
    if n == 1 || stamps[n - 2].hash != stamps[n - 1].hash {
      i := n - 1;
    } else {
      i := LastRunBegins(front);
    }
  }

  // Row by row, the table row of a lot is as old as the first of the last run of equal hashes.
  lemma {:induction false} EachKeepsRunStart(s: Store, rows: seq<Record>, key: Key, i: nat)
    requires LastRunFrom(Stamps(s, rows, key), i)
    ensures var stamps, tables := Stamps(s, rows, key), ReplayEach(s, rows).tables;
            key in tables && tables[key].hash == stamps[i].hash && tables[key].fetchedAt == stamps[i].at
  {
    if rows != [] {
      var front, row := rows[..|rows| - 1], rows[|rows| - 1];
      var stamps, before := Stamps(s, rows, key), Stamps(s, front, key);
      if KeyOf(row) != key {
        assert stamps == before;
        EachKeepsRunStart(s, front, key, i);
      } else if before == [] {
        NothingStored(s, front, key);
      } else {
        assert stamps[|stamps| - 2] == before[|before| - 1];
        var k := LastRunBegins(before);
        EachKeepsRunStart(s, front, key, k);
        RunGrows(before, stamps[|stamps| - 1], k, i);
      }
    }
  }

  lemma {:induction false} NothingStored(s: Store, rows: seq<Record>, key: Key)
    requires Stamps(s, rows, key) == []
    ensures key !in ReplayEach(s, rows).tables
  {
    if rows != [] {
      NothingStored(s, rows[..|rows| - 1], key);
    }
  }

  lemma RunGrows(before: seq<Stamp>, stamp: Stamp, k: nat, i: nat)
    requires LastRunFrom(before, k) && LastRunFrom(before + [stamp], i)
    ensures i == if before[|before| - 1].hash == stamp.hash then k else |before|
  {
    var all := before + [stamp];
    assert all[|before| - 1] == before[|before| - 1];
    var grown := if before[|before| - 1].hash == stamp.hash then k else |before|;
    assert grown > 0 ==> all[grown - 1] == before[grown - 1];
    OneRunStart(all, grown, i);
  }

  // In bulk it is as old as what was stored, if the hash is still the same, and else as the latest row.
  function BulkTime(s: Store, latest: Record): Time {
    var key := KeyOf(latest);
    if key in s.tables && s.tables[key].hash == latest.hash then s.tables[key].fetchedAt else latest.fetchedAt
  }

  // The last run of equal hashes of the lot begins at the time bulk leaves.
  ghost predicate TimesAgree(s: Store, each: seq<Record>, latest: Record) {
    var stamps := Stamps(s, each, KeyOf(latest));
    exists i: nat :: LastRunFrom(stamps, i) && stamps[i].at == BulkTime(s, latest)
  }

  lemma OneRunStart(stamps: seq<Stamp>, i: nat, j: nat)
    requires LastRunFrom(stamps, i) && LastRunFrom(stamps, j)
    ensures i == j
  {
  }

  lemma {:induction false} StampsOfRow(s: Store, rows: seq<Record>, row: Record)
    requires row in rows
    ensures Stamps(s, rows, KeyOf(row)) != []
  {
    var front := rows[..|rows| - 1];
    if row in front {
      StampsOfRow(s, front, row);
    } else {
      assert rows == front + [rows[|rows| - 1]];
    }
  }

  lemma TimesAgreeAt(s: Store, each: seq<Record>, latest: Record, i: nat)
    requires LastRunFrom(Stamps(s, each, KeyOf(latest)), i)
    ensures TimesAgree(s, each, latest) <==> Stamps(s, each, KeyOf(latest))[i].at == BulkTime(s, latest)
  {
    forall j: nat | LastRunFrom(Stamps(s, each, KeyOf(latest)), j)
      ensures i == j
    {
      OneRunStart(Stamps(s, each, KeyOf(latest)), i, j);
    }
  }

  // When exactly both ways give the table row of a lot the same time.
  lemma TableTimesAgreeIff(s: Store, rows: seq<Record>, first: map<Key, Record>, second: map<Key, Record>,
                           each: seq<Record>, key: Key)
    requires IsLatest(rows, first) && IsLatest(rows, second) && NoTies(rows)
    requires (forall row :: row in each <==> row in rows) && key in first
    ensures var bulk, single := Replayed(s, first, second).tables, ReplayEach(s, each).tables;
            key in bulk && key in single && (bulk[key].fetchedAt == single[key].fetchedAt <==> TimesAgree(s, each, first[key]))
  {
    assert first[key] in rows && second[key] in rows;
    assert first[key] == second[key];
    StampsOfRow(s, each, first[key]);
    var i := LastRunBegins(Stamps(s, each, key));
    EachKeepsRunStart(s, each, key, i);
    TimesAgreeAt(s, each, first[key], i);
  }

  lemma StoreOfKeys(a: Store, b: Store)
    requires a.revisions == b.revisions && a.links == b.links
    ensures a == b <==> forall key :: SameAt(a, b, key)
  {
    if forall key :: SameAt(a, b, key) {
      forall key
        ensures key in a.entities.Keys <==> key in b.entities.Keys
        ensures key in a.tables.Keys <==> key in b.tables.Keys
        ensures key in a.entities ==> a.entities[key] == b.entities[key]
        ensures key in a.tables ==> a.tables[key] == b.tables[key]
      {
        assert SameAt(a, b, key);
      }
      assert a.entities == b.entities && a.tables == b.tables;
    }
  }

  lemma LotSameIff(s: Store, rows: seq<Record>, first: map<Key, Record>, second: map<Key, Record>, each: seq<Record>,
                   key: Key)
    requires IsLatest(rows, first) && IsLatest(rows, second) && NoTies(rows) && HashTells(s, rows)
    requires (forall row :: row in each <==> row in rows) && Ascending(each)
    ensures SameAt(Replayed(s, first, second), ReplayEach(s, each), key) <==> (key in first ==> TimesAgree(s, each, first[key]))
  {
    BulkIsOneByOne(s, rows, first, second, each, key);
    if key in first {
      TableTimesAgreeIff(s, rows, first, second, each, key);
    }
  }

  // So one bulk replay leaves exactly the store that replaying the rows singly leaves just when, for
  // every lot, the last run of equal hashes begins at the time bulk leaves.
  lemma StoresEqualIff(s: Store, rows: seq<Record>, first: map<Key, Record>, second: map<Key, Record>, each: seq<Record>)
    requires IsLatest(rows, first) && IsLatest(rows, second) && NoTies(rows) && HashTells(s, rows)
    requires (forall row :: row in each <==> row in rows) && Ascending(each)
    ensures Replayed(s, first, second) == ReplayEach(s, each) <==> forall key | key in first :: TimesAgree(s, each, first[key])
  {
    EachKeepsTheRest(s, each);
    StoreOfKeys(Replayed(s, first, second), ReplayEach(s, each));
    forall key
      ensures SameAt(Replayed(s, first, second), ReplayEach(s, each), key) <==> (key in first ==> TimesAgree(s, each, first[key]))
    {
      LotSameIff(s, rows, first, second, each, key);
    }
  }

  lemma {:induction false} EachKeepsTheRest(s: Store, rows: seq<Record>)
    ensures ReplayEach(s, rows).revisions == s.revisions && ReplayEach(s, rows).links == s.links
  {
    if rows != [] {
      EachKeepsTheRest(s, rows[..|rows| - 1]);
    }
  }

  // A hash that comes twice keeps its first time row by row, and has its last one in bulk.
  lemma TableTimesDiffer(source: Source, id: string, a: Time, b: Time)
    requires a < b
    ensures var rows := [Record(source, id, "h", "x", a), Record(source, id, "h", "x", b)];
            var latest := map[KeyOf(rows[1]) := rows[1]];
            IsLatest(rows, latest) && Replayed(EmptyStore, latest, latest) != ReplayEach(EmptyStore, rows)
  {
    var rows := [Record(source, id, "h", "x", a), Record(source, id, "h", "x", b)];
    var key := KeyOf(rows[1]);
    var latest := map[key := rows[1]];
    assert forall row :: row in rows <==> row == rows[0] || row == rows[1];
    assert IsLatest(rows, latest);
    assert rows[..1] == [rows[0]] && rows[..1][..0] == [];
    assert Stamps(EmptyStore, rows[..1], key) == [Stamp("h", a)];
    assert Stamps(EmptyStore, rows, key) == [Stamp("h", a), Stamp("h", b)];
    assert LastRunFrom(Stamps(EmptyStore, rows, key), 0);
    TableTimesAgreeIff(EmptyStore, rows, latest, latest, rows, key);
    forall i: nat | LastRunFrom(Stamps(EmptyStore, rows, key), i)
      ensures i == 0
    {
      OneRunStart(Stamps(EmptyStore, rows, key), 0, i);
    }
  }
}
