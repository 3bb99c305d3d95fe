// PostgresEntityRepository.persist: hash-aware upserts, the revision log, and relations that are
// reconciled with what the batch says.
module EntityStore {
  import opened Types
  import opened Frontier

  // source_entities: current_content_hash and last_success_at.
  datatype Entity = Entity(hash: Option<string>, lastSuccess: Option<Time>)

  // The row of an entity in the table of its type.
  datatype Stored = Stored(hash: string, content: string, fetchedAt: Time)

  // entity_revisions
  datatype Revision = Revision(key: Key, hash: string, content: string)

  // entity_relations, whose unique key is the whole of this.
  datatype Link = Link(kind: RelationType, parent: Key, child: Key)

  datatype Store = Store(entities: map<Key, Entity>, tables: map<Key, Stored>, revisions: seq<Revision>, links: set<Link>)

  const EmptyStore := Store(map[], map[], [], {})

  // ---------------------------------------------------------------- the transaction

  // _ensure_source_entity
  function Ensure(s: Store, key: Key): Store {
    if key in s.entities then s else s.(entities := s.entities[key := Entity(None, None)])
  }

  function EnsureAll(s: Store, keys: seq<Key>): Store {
    if keys == [] then s else Ensure(EnsureAll(s, keys[..|keys| - 1]), keys[|keys| - 1])
  }

  // The stored hash a revision is filed under: the entity's, or the table's if there is none.
  function RevisionHash(entity: Entity, row: Stored): string {
    if entity.hash.Some? && entity.hash.value != "" then entity.hash.value else row.hash
  }

  // _persist_envelope
  function StoreEnvelope(s: Store, changes: bool, e: Envelope): Store {
    var known := Ensure(s, e.key);
    var entity := known.entities[e.key];
    if entity.hash == Some(e.contentHash) then
      known.(entities := known.entities[e.key := entity.(lastSuccess := Some(e.fetchedAt))])
    else
      known.(entities := known.entities[e.key := Entity(Some(e.contentHash), Some(e.fetchedAt))],
             revisions := if e.key in known.tables && changes then
                            known.revisions + [Revision(e.key, RevisionHash(entity, known.tables[e.key]), known.tables[e.key].content)]
                          else known.revisions,
             tables := if e.key !in known.tables || known.tables[e.key].hash != e.contentHash then
                         known.tables[e.key := Stored(e.contentHash, e.content, e.fetchedAt)]
                       else known.tables)
  }

  function StoreAll(s: Store, changes: bool, envelopes: seq<Envelope>): Store {
    if envelopes == [] then s
    else StoreEnvelope(StoreAll(s, changes, envelopes[..|envelopes| - 1]), changes, envelopes[|envelopes| - 1])
  }

  function InsertEnvelope(e: Envelope, envelopes: seq<Envelope>): seq<Envelope> {
    if envelopes == [] then [e]
    else if KeyLeq(envelopes[|envelopes| - 1].key, e.key) then envelopes + [e]
    else InsertEnvelope(e, envelopes[..|envelopes| - 1]) + [envelopes[|envelopes| - 1]]
  }

  // sorted(entities, key=_identity_sort_key)
  function InOrder(envelopes: seq<Envelope>): seq<Envelope> {
    if envelopes == [] then []
    else InsertEnvelope(envelopes[|envelopes| - 1], InOrder(envelopes[..|envelopes| - 1]))
  }

  function LinkOf(relation: Relation): Link {
    Link(relation.kind, relation.parent, relation.child)
  }

  ghost function Links(relations: seq<Relation>): set<Link> {
    set i | 0 <= i < |relations| :: LinkOf(relations[i])
  }

  // _reconcile_relations: the batch's entities lose the stored relations it does not name.
  ghost function Reconciled(links: set<Link>, batch: Batch): set<Link> {
    set l | l in links && (l.parent in EntityKeys(batch) ==> l in Links(batch.relations))
  }

  // Every identity of the batch, the entities' first.
  function Identities(batch: Batch): seq<Key> {
    seq(|batch.entities|, i requires 0 <= i < |batch.entities| => batch.entities[i].key)
    + seq(|batch.relations|, i requires 0 <= i < |batch.relations| => batch.relations[i].parent)
    + seq(|batch.relations|, i requires 0 <= i < |batch.relations| => batch.relations[i].child)
  }

  ghost function Persisted(s: Store, changes: bool, batch: Batch): Store {
    var stored := StoreAll(EnsureAll(s, Identities(batch)), changes, InOrder(batch.entities));
    stored.(links := Reconciled(stored.links, batch) + Links(batch.relations))
  }

  class EntityRepository {
    const changes: bool
    var entities: map<Key, Entity>
    var tables: map<Key, Stored>
    var revisions: seq<Revision>
    var links: set<Link>

    function Value(): Store
      reads this
    {
      Store(entities, tables, revisions, links)
    }

    // revision_mode == "changes"
    constructor (changes: bool)
      ensures this.changes == changes && Value() == EmptyStore
    {
      this.changes := changes;
      entities, tables, revisions, links := map[], map[], [], {};
    }

    method EnsureSourceEntity(key: Key)
      modifies this`entities
      ensures Value() == Ensure(old(Value()), key)
    {
      if key !in entities {
        entities := entities[key := Entity(None, None)];
      }
    }

    method PersistEnvelope(e: Envelope)
      modifies this`entities, this`tables, this`revisions
      ensures Value() == StoreEnvelope(old(Value()), changes, e)
    {
      EnsureSourceEntity(e.key);
      var entity := entities[e.key];
      if entity.hash == Some(e.contentHash) {
        entities := entities[e.key := entity.(lastSuccess := Some(e.fetchedAt))];
        return;
      }
      if e.key in tables && changes {
        revisions := revisions + [Revision(e.key, RevisionHash(entity, tables[e.key]), tables[e.key].content)];
      }
      if e.key !in tables || tables[e.key].hash != e.contentHash {
        tables := tables[e.key := Stored(e.contentHash, e.content, e.fetchedAt)];
      }
      entities := entities[e.key := Entity(Some(e.contentHash), Some(e.fetchedAt))];
    }

    // Called when persist has ensured every identity.
    method ReconcileRelations(batch: Batch)
      modifies this`links
      ensures links == Reconciled(old(links), batch)
    {
      var desiredByParent: map<Key, set<Link>> := map[];
      for i := 0 to |batch.relations|
        invariant links == old(links)
        invariant forall l: Link :: (l.parent in desiredByParent && l in desiredByParent[l.parent]) <==> l in Links(batch.relations[..i])
      {
        var link := LinkOf(batch.relations[i]);
        var desired := if link.parent in desiredByParent then desiredByParent[link.parent] else {};
        desiredByParent := desiredByParent[link.parent := desired + {link}];
        LinksGrow(batch.relations, i);
      }
      assert batch.relations[..|batch.relations|] == batch.relations;
      for i := 0 to |batch.entities|
        invariant forall l: Link :: l in links <==> l in old(links) && (NamedIn(batch.entities[..i], l.parent) ==> l in Links(batch.relations))
      {
        var parent := batch.entities[i].key;
        var desired := if parent in desiredByParent then desiredByParent[parent] else {};
        var stale := set l | l in links && l.parent == parent && l !in desired;
        links := links - stale;
        forall k
          ensures NamedIn(batch.entities[..i + 1], k) <==> NamedIn(batch.entities[..i], k) || k == parent
        {
          NamedGrows(batch.entities, i, k);
        }
      }
      assert batch.entities[..|batch.entities|] == batch.entities;
      forall k
        ensures NamedIn(batch.entities, k) <==> k in EntityKeys(batch)
      {
      }
    }

    // The three loops of persist.
    method EnsureIdentities(identities: seq<Key>)
      modifies this`entities
      ensures Value() == EnsureAll(old(Value()), identities)
    {
      for i := 0 to |identities|
        invariant Value() == EnsureAll(old(Value()), identities[..i])
      {
        assert identities[..i + 1][..i] == identities[..i];
        EnsureSourceEntity(identities[i]);
      }
      assert identities[..|identities|] == identities;
    }

    method PersistEnvelopes(envelopes: seq<Envelope>)
      modifies this`entities, this`tables, this`revisions
      ensures Value() == StoreAll(old(Value()), changes, envelopes)
    {
      for i := 0 to |envelopes|
        invariant Value() == StoreAll(old(Value()), changes, envelopes[..i])
      {
        assert envelopes[..i + 1][..i] == envelopes[..i];
        PersistEnvelope(envelopes[i]);
      }
      assert envelopes[..|envelopes|] == envelopes;
    }

    method PersistRelations(relations: seq<Relation>)
      modifies this`links
      ensures links == old(links) + Links(relations)
    {
      for i := 0 to |relations|
        invariant links == old(links) + Links(relations[..i])
      {
        LinksGrow(relations, i);
        links := links + {LinkOf(relations[i])};
      }
      assert relations[..|relations|] == relations;
    }

    method Persist(batch: Batch)
      modifies this
      ensures Value() == Persisted(old(Value()), changes, batch)
      ensures forall kind, parent, child ::
                Link(kind, parent, child) in links
                <==> || (exists r :: r in batch.relations && r.kind == kind && r.parent == parent && r.child == child)
                     || ((forall e | e in batch.entities :: e.key != parent) && Link(kind, parent, child) in old(links))
    {
      RelationsAreTheBatchs(Value(), changes, batch);
      EnsureIdentities(Identities(batch));
      PersistEnvelopes(InOrder(batch.entities));
      ReconcileRelations(batch);
      PersistRelations(batch.relations);
    }
  }

  ghost predicate NamedIn(envelopes: seq<Envelope>, key: Key) {
    exists i: nat :: i < |envelopes| && envelopes[i].key == key
  }

  lemma NamedGrows(envelopes: seq<Envelope>, i: nat, key: Key)
    requires i < |envelopes|
    ensures NamedIn(envelopes[..i + 1], key) <==> NamedIn(envelopes[..i], key) || key == envelopes[i].key
  {
    var all, front := envelopes[..i + 1], envelopes[..i];
    if NamedIn(all, key) && key != envelopes[i].key {
      var j: nat :| j < |all| && all[j].key == key;
      assert front[j].key == key;
    }
    if NamedIn(front, key) {
      var j: nat :| j < |front| && front[j].key == key;
      assert all[j].key == key;
    }
    assert all[i] == envelopes[i];
  }

  lemma LinksGrow(relations: seq<Relation>, i: nat)
    requires i < |relations|
    ensures Links(relations[..i + 1]) == Links(relations[..i]) + {LinkOf(relations[i])}
  {
    var all, front := relations[..i + 1], relations[..i];
    forall l
      ensures l in Links(all) <==> l in Links(front) + {LinkOf(relations[i])}
    {
      if l in Links(all) {
        var j :| 0 <= j < |all| && LinkOf(all[j]) == l;
        assert j < i ==> front[j] == all[j];
      }
      if l in Links(front) {
        var j :| 0 <= j < |front| && LinkOf(front[j]) == l;
        assert all[j] == front[j];
      }
      assert all[i] == relations[i];
    }
  }

  // ---------------------------------------------------------------- relations

  lemma {:induction false} EnsureKeeps(s: Store, keys: seq<Key>)
    ensures EnsureAll(s, keys) == s.(entities := EnsureAll(s, keys).entities)
    ensures forall k :: k in EnsureAll(s, keys).entities <==> k in s.entities || k in keys
    ensures forall k | k in EnsureAll(s, keys).entities ::
              EnsureAll(s, keys).entities[k] == if k in s.entities then s.entities[k] else Entity(None, None)
  {
    if keys != [] {
      EnsureKeeps(s, keys[..|keys| - 1]);
      assert keys == keys[..|keys| - 1] + [keys[|keys| - 1]];
    }
  }

  lemma {:induction false} StoreKeepsLinks(s: Store, changes: bool, envelopes: seq<Envelope>)
    ensures StoreAll(s, changes, envelopes).links == s.links
  {
    if envelopes != [] {
      StoreKeepsLinks(s, changes, envelopes[..|envelopes| - 1]);
    }
  }

  // After persist the batch's entities have, as parents, exactly the relations of the batch; every
  // other parent keeps what it had and gains what the batch says of it.
  lemma RelationsAreTheBatchs(s: Store, changes: bool, batch: Batch)
    ensures forall kind, parent, child ::
              Link(kind, parent, child) in Persisted(s, changes, batch).links
              <==> || (exists r :: r in batch.relations && r.kind == kind && r.parent == parent && r.child == child)
                   || ((forall e | e in batch.entities :: e.key != parent) && Link(kind, parent, child) in s.links)
  {
    EnsureKeeps(s, Identities(batch));
    StoreKeepsLinks(EnsureAll(s, Identities(batch)), changes, InOrder(batch.entities));
    forall kind, parent, child
      ensures (exists r :: r in batch.relations && r.kind == kind && r.parent == parent && r.child == child)
              <==> Link(kind, parent, child) in Links(batch.relations)
    {
    }
  }

  lemma NamedByBatch(batch: Batch, key: Key)
    ensures key in Identities(batch) <==> || (exists e :: e in batch.entities && e.key == key)
                                          || (exists r :: r in batch.relations && (r.parent == key || r.child == key))
  {
    var own := seq(|batch.entities|, i requires 0 <= i < |batch.entities| => batch.entities[i].key);
    var parents := seq(|batch.relations|, i requires 0 <= i < |batch.relations| => batch.relations[i].parent);
    var children := seq(|batch.relations|, i requires 0 <= i < |batch.relations| => batch.relations[i].child);
    assert key in Identities(batch) <==> key in own || key in parents || key in children;
    if e :| e in batch.entities && e.key == key {
      var i :| 0 <= i < |batch.entities| && batch.entities[i] == e;
      assert own[i] == key;
    }
    if r :| r in batch.relations && (r.parent == key || r.child == key) {
      var i :| 0 <= i < |batch.relations| && batch.relations[i] == r;
      assert parents[i] == r.parent && children[i] == r.child;
    }
  }

  // Persist makes known exactly the entities, parents and children of the batch that were not.
  lemma KnownAfterwards(s: Store, changes: bool, batch: Batch, key: Key)
    ensures key in Persisted(s, changes, batch).entities
            <==> || key in s.entities
                 || (exists e :: e in batch.entities && e.key == key)
                 || (exists r :: r in batch.relations && (r.parent == key || r.child == key))
  {
    EnsureKeeps(s, Identities(batch));
    StoreKnows(EnsureAll(s, Identities(batch)), changes, InOrder(batch.entities), key);
    InOrderKeys(batch.entities);
    NamedByBatch(batch, key);
    assert key in KeysOf(batch.entities) ==> exists e :: e in batch.entities && e.key == key;
  }

  lemma {:induction false} StoreKnows(s: Store, changes: bool, envelopes: seq<Envelope>, key: Key)
    ensures key in StoreAll(s, changes, envelopes).entities <==> key in s.entities || key in KeysOf(envelopes)
  {
    if envelopes == [] {
      assert KeysOf(envelopes) == {};
    } else {
      var front, last := envelopes[..|envelopes| - 1], envelopes[|envelopes| - 1];
      StoreKnows(s, changes, front, key);
      KeysOfAppend(front, last);
      assert envelopes == front + [last];
    }
  }

  // ---------------------------------------------------------------- hashes

  ghost predicate KeyAgrees(s: Store, key: Key) {
    && (key in s.tables ==> key in s.entities)
    && (key !in s.tables ==> RevisionsOf(s.revisions, key) == [])
    && (key in s.entities ==>
          && s.entities[key].hash == (if key in s.tables then Some(s.tables[key].hash) else None)
          && (s.entities[key].lastSuccess.Some? <==> s.entities[key].hash.Some?))
  }

  // The two places a content hash is stored in agree, and only what is stored has revisions.
  ghost predicate Agree(s: Store) {
    forall k :: KeyAgrees(s, k)
  }

  lemma EnvelopeAgrees(s: Store, changes: bool, e: Envelope)
    requires Agree(s)
    ensures Agree(StoreEnvelope(s, changes, e))
  {
    var after := StoreEnvelope(s, changes, e);
    assert KeyAgrees(s, e.key);
    forall k
      ensures KeyAgrees(after, k)
    {
      assert KeyAgrees(s, k);
      if after.revisions != s.revisions && k != e.key {
        assert after.revisions[..|after.revisions| - 1] == s.revisions;
      }
    }
  }

  lemma {:induction false} AllAgree(s: Store, changes: bool, envelopes: seq<Envelope>)
    requires Agree(s)
    ensures Agree(StoreAll(s, changes, envelopes))
  {
    if envelopes != [] {
      AllAgree(s, changes, envelopes[..|envelopes| - 1]);
      EnvelopeAgrees(StoreAll(s, changes, envelopes[..|envelopes| - 1]), changes, envelopes[|envelopes| - 1]);
    }
  }

  lemma EnsuredAgree(s: Store, keys: seq<Key>)
    requires Agree(s)
    ensures Agree(EnsureAll(s, keys))
  {
    EnsureKeeps(s, keys);
    forall k
      ensures KeyAgrees(EnsureAll(s, keys), k)
    {
      assert KeyAgrees(s, k);
    }
  }

  // The stores persist leads to, batch after batch.
  ghost function Persists(s: Store, changes: bool, batches: seq<Batch>): Store {
    if batches == [] then s
    else Persisted(Persists(s, changes, batches[..|batches| - 1]), changes, batches[|batches| - 1])
  }

  lemma PersistedAgrees(s: Store, changes: bool, batch: Batch)
    requires Agree(s)
    ensures Agree(Persisted(s, changes, batch))
  {
    EnsuredAgree(s, Identities(batch));
    var stored := StoreAll(EnsureAll(s, Identities(batch)), changes, InOrder(batch.entities));
    AllAgree(EnsureAll(s, Identities(batch)), changes, InOrder(batch.entities));
    forall k
      ensures KeyAgrees(Persisted(s, changes, batch), k)
    {
      assert KeyAgrees(stored, k);
    }
  }

  lemma {:induction false} HashesAlwaysAgree(s: Store, changes: bool, batches: seq<Batch>)
    requires Agree(s)
    ensures Agree(Persists(s, changes, batches))
  {
    if batches != [] {
      HashesAlwaysAgree(s, changes, batches[..|batches| - 1]);
      PersistedAgrees(Persists(s, changes, batches[..|batches| - 1]), changes, batches[|batches| - 1]);
    }
  }

  // ---------------------------------------------------------------- the revision log

  datatype Version = Version(hash: string, content: string)

  // The versions of one entity that a list of envelopes offers, in its order.
  function Offered(envelopes: seq<Envelope>, key: Key): seq<Version> {
    if envelopes == [] then []
    else
      var last := envelopes[|envelopes| - 1];
      Offered(envelopes[..|envelopes| - 1], key) + if last.key == key then [Version(last.contentHash, last.content)] else []
  }

  function OfferedBy(batches: seq<Batch>, key: Key): seq<Version> {
    if batches == [] then []
    else OfferedBy(batches[..|batches| - 1], key) + Offered(batches[|batches| - 1].entities, key)
  }

  function RevisionsOf(revisions: seq<Revision>, key: Key): seq<Version> {
    if revisions == [] then []
    else
      var last := revisions[|revisions| - 1];
      RevisionsOf(revisions[..|revisions| - 1], key) + if last.key == key then [Version(last.hash, last.content)] else []
  }

  // The revisions of an entity, and its current version after them.
  function Log(s: Store, key: Key): seq<Version> {
    RevisionsOf(s.revisions, key) + if key in s.tables then [Version(s.tables[key].hash, s.tables[key].content)] else []
  }

  // A list of versions without those that have the hash of their left neighbour.
  function Dedup(versions: seq<Version>): seq<Version> {
    if versions == [] then []
    else
      var n := |versions|;
      Dedup(versions[..n - 1]) + if n >= 2 && versions[n - 2].hash == versions[n - 1].hash then [] else [versions[n - 1]]
  }

  // One more version, unless it has the hash of the last one.
  function Absorb(log: seq<Version>, version: Version): seq<Version> {
    if log != [] && log[|log| - 1].hash == version.hash then log else log + [version]
  }

  function AbsorbAll(log: seq<Version>, versions: seq<Version>): seq<Version> {
    if versions == [] then log else Absorb(AbsorbAll(log, versions[..|versions| - 1]), versions[|versions| - 1])
  }

  lemma {:induction false} AbsorbIsDedup(versions: seq<Version>)
    ensures AbsorbAll([], versions) == Dedup(versions)
    ensures versions != [] ==> Dedup(versions) != [] && Dedup(versions)[|Dedup(versions)| - 1].hash == versions[|versions| - 1].hash
  {
    if versions != [] {
      AbsorbIsDedup(versions[..|versions| - 1]);
    }
  }

  lemma {:induction false} AbsorbConcat(log: seq<Version>, a: seq<Version>, b: seq<Version>)
    ensures AbsorbAll(log, a + b) == AbsorbAll(AbsorbAll(log, a), b)
  {
    if b == [] {
      assert a + b == a;
    } else {
      AbsorbConcat(log, a, b[..|b| - 1]);
      assert (a + b)[..|a + b| - 1] == a + b[..|b| - 1];
    }
  }

  lemma EnvelopeLogs(s: Store, e: Envelope, key: Key)
    requires Agree(s)
    ensures Log(StoreEnvelope(s, true, e), key)
            == if e.key == key then Absorb(Log(s, key), Version(e.contentHash, e.content)) else Log(s, key)
  {
    assert KeyAgrees(s, e.key);
    var known := Ensure(s, e.key);
    var after := StoreEnvelope(s, true, e);
    if known.entities[e.key].hash != Some(e.contentHash) && e.key in known.tables {
      var row := known.tables[e.key];
      var revision := Revision(e.key, row.hash, row.content);
      assert after.revisions == known.revisions + [revision];
      assert after.revisions[..|after.revisions| - 1] == known.revisions;
      if e.key == key {
        assert Log(s, key) == RevisionsOf(s.revisions, key) + [Version(row.hash, row.content)];
        assert Log(after, key) == Log(s, key) + [Version(e.contentHash, e.content)];
      } else {
        assert RevisionsOf(after.revisions, key) == RevisionsOf(s.revisions, key);
      }
    } else if e.key == key && e.key !in known.tables {
      assert Log(s, key) == [];
    }
  }

  lemma {:induction false} AllLog(s: Store, envelopes: seq<Envelope>, key: Key)
    requires Agree(s)
    ensures Log(StoreAll(s, true, envelopes), key) == AbsorbAll(Log(s, key), Offered(envelopes, key))
  {
    if envelopes != [] {
      var front, last := envelopes[..|envelopes| - 1], envelopes[|envelopes| - 1];
      AllLog(s, front, key);
      AllAgree(s, true, front);
      EnvelopeLogs(StoreAll(s, true, front), last, key);
      if last.key == key {
        assert Offered(envelopes, key)[..|Offered(envelopes, key)| - 1] == Offered(front, key);
      } else {
        assert Offered(envelopes, key) == Offered(front, key);
      }
    }
  }

  lemma {:induction false} StringLeqReflexive(a: string)
    ensures StringLeq(a, a)
  {
    if a != "" {
      StringLeqReflexive(a[1..]);
    }
  }

  lemma {:induction false} InsertIsStable(e: Envelope, envelopes: seq<Envelope>, key: Key)
    ensures Offered(InsertEnvelope(e, envelopes), key)
            == Offered(envelopes, key) + if e.key == key then [Version(e.contentHash, e.content)] else []
  {
    if envelopes == [] {
      assert [e][..0] == [];
    } else {
      var front, last := envelopes[..|envelopes| - 1], envelopes[|envelopes| - 1];
      if KeyLeq(last.key, e.key) {
        assert (envelopes + [e])[..|envelopes|] == envelopes;
      } else {
        StringLeqReflexive(e.key.id);
        InsertIsStable(e, front, key);
        assert (InsertEnvelope(e, front) + [last])[..|InsertEnvelope(e, front)|] == InsertEnvelope(e, front);
      }
    }
  }

  // Sorting a batch leaves the envelopes of one entity in their order.
  lemma {:induction false} SortIsStable(envelopes: seq<Envelope>, key: Key)
    ensures Offered(InOrder(envelopes), key) == Offered(envelopes, key)
  {
    if envelopes != [] {
      SortIsStable(envelopes[..|envelopes| - 1], key);
      InsertIsStable(envelopes[|envelopes| - 1], InOrder(envelopes[..|envelopes| - 1]), key);
    }
  }

  lemma PersistLogs(s: Store, batch: Batch, key: Key)
    requires Agree(s)
    ensures Log(Persisted(s, true, batch), key) == AbsorbAll(Log(s, key), Offered(batch.entities, key))
  {
    EnsureKeeps(s, Identities(batch));
    EnsuredAgree(s, Identities(batch));
    AllLog(EnsureAll(s, Identities(batch)), InOrder(batch.entities), key);
    SortIsStable(batch.entities, key);
  }

  lemma {:induction false} PersistsLog(s: Store, batches: seq<Batch>, key: Key)
    requires Agree(s)
    ensures Log(Persists(s, true, batches), key) == AbsorbAll(Log(s, key), OfferedBy(batches, key))
  {
    if batches != [] {
      var front, last := batches[..|batches| - 1], batches[|batches| - 1];
      PersistsLog(s, front, key);
      HashesAlwaysAgree(s, true, front);
      PersistLogs(Persists(s, true, front), last, key);
      AbsorbConcat(Log(s, key), OfferedBy(front, key), Offered(last.entities, key));
    }
  }

  // In "changes" mode the revisions of an entity, then its current version, are all the versions
  // ever persisted for it, in order, without immediate repeats.
  lemma RevisionsTellHistory(batches: seq<Batch>, key: Key)
    ensures Log(Persists(EmptyStore, true, batches), key) == Dedup(OfferedBy(batches, key))
  {
    assert Log(EmptyStore, key) == [];
    PersistsLog(EmptyStore, batches, key);
    AbsorbIsDedup(OfferedBy(batches, key));
  }

  // ---------------------------------------------------------------- repeats

  // Envelopes of one entity have one hash. A batch without duplicate entities is uniform.
  ghost predicate Uniform(envelopes: seq<Envelope>) {
    forall i: nat, j: nat | i < |envelopes| && j < |envelopes| && envelopes[i].key == envelopes[j].key ::
      envelopes[i].contentHash == envelopes[j].contentHash
  }

  ghost predicate SameHash(versions: seq<Version>, hash: string) {
    forall i: nat | i < |versions| :: versions[i].hash == hash
  }

  // Absorbing versions adds nothing just when they all have the hash the log ends with.
  lemma {:induction false} AbsorbsNothing(log: seq<Version>, versions: seq<Version>)
    requires log != []
    ensures |AbsorbAll(log, versions)| >= |log| && AbsorbAll(log, versions)[..|log|] == log
    ensures |AbsorbAll(log, versions)| == |log| <==> SameHash(versions, log[|log| - 1].hash)
  {
    if versions != [] {
      AbsorbsNothing(log, versions[..|versions| - 1]);
    }
  }

  lemma {:induction false} OfferedHas(envelopes: seq<Envelope>, key: Key, i: nat) returns (j: nat)
    requires i < |envelopes| && envelopes[i].key == key
    ensures j < |Offered(envelopes, key)| && Offered(envelopes, key)[j].hash == envelopes[i].contentHash
  {
    if i == |envelopes| - 1 {
      j := |Offered(envelopes, key)| - 1;
    } else {
      j := OfferedHas(envelopes[..|envelopes| - 1], key, i);
    }
  }

  lemma {:induction false} OfferedFrom(envelopes: seq<Envelope>, key: Key, j: nat) returns (i: nat)
    requires j < |Offered(envelopes, key)|
    ensures i < |envelopes| && envelopes[i].key == key && envelopes[i].contentHash == Offered(envelopes, key)[j].hash
  {
    var front := envelopes[..|envelopes| - 1];
    if j < |Offered(front, key)| {
      i := OfferedFrom(front, key, j);
    } else {
      i := |envelopes| - 1;
    }
  }

  // The log ends with the version that was absorbed last.
  lemma AbsorbedLast(log: seq<Version>, versions: seq<Version>)
    requires versions != []
    ensures AbsorbAll(log, versions) != []
    ensures AbsorbAll(log, versions)[|AbsorbAll(log, versions)| - 1].hash == versions[|versions| - 1].hash
  {
  }

  // Persisting a batch a second time adds no revision of an entity just when the batch has one hash
  // for it.
  lemma RepeatLogs(s: Store, batch: Batch, key: Key)
    requires Agree(s)
    ensures var once := Persisted(s, true, batch);
            var offered := Offered(batch.entities, key);
            Log(Persisted(once, true, batch), key) == Log(once, key)
            <==> (offered != [] ==> SameHash(offered, offered[|offered| - 1].hash))
  {
    var once, offered := Persisted(s, true, batch), Offered(batch.entities, key);
    PersistedAgrees(s, true, batch);
    PersistLogs(s, batch, key);
    PersistLogs(once, batch, key);
    if offered != [] {
      AbsorbedLast(Log(s, key), offered);
      AbsorbsNothing(Log(once, key), offered);
    }
  }

  // Persisting a batch a second time changes no log just when the batch is uniform, as a batch that
  // passes the worker's validation is.
  lemma RepeatAddsNothing(s: Store, batch: Batch)
    requires Agree(s)
    ensures var once := Persisted(s, true, batch);
            (forall key :: Log(Persisted(once, true, batch), key) == Log(once, key)) <==> Uniform(batch.entities)
  {
    var once, es := Persisted(s, true, batch), batch.entities;
    var twice := Persisted(once, true, batch);
    if Uniform(es) {
      forall key
        ensures Log(twice, key) == Log(once, key)
      {
        RepeatLogs(s, batch, key);
        var offered := Offered(es, key);
        forall j: nat | j < |offered|
          ensures offered[j].hash == offered[|offered| - 1].hash
        {
          var a := OfferedFrom(es, key, j);
          var b := OfferedFrom(es, key, |offered| - 1);
        }
      }
    }
    if forall key :: Log(twice, key) == Log(once, key) {
      forall i: nat, j: nat | i < |es| && j < |es| && es[i].key == es[j].key
        ensures es[i].contentHash == es[j].contentHash
      {
        assert Log(twice, es[i].key) == Log(once, es[i].key);
        RepeatLogs(s, batch, es[i].key);
        var a := OfferedHas(es, es[i].key, i);
        var b := OfferedHas(es, es[i].key, j);
      }
    }
  }

  // ---------------------------------------------------------------- what else persist leaves

  ghost function SucceededIn(s: Store): set<Key> {
    set k | k in s.entities && s.entities[k].lastSuccess.Some?
  }

  ghost function KeysOf(envelopes: seq<Envelope>): set<Key> {
    set i | 0 <= i < |envelopes| :: envelopes[i].key
  }

  lemma SuccessOne(s: Store, changes: bool, e: Envelope)
    ensures SucceededIn(StoreEnvelope(s, changes, e)) == SucceededIn(s) + {e.key}
  {
    var after := StoreEnvelope(s, changes, e);
    forall k
      ensures k in SucceededIn(after) <==> k in SucceededIn(s) + {e.key}
    {
    }
  }

  lemma {:induction false} SuccessAll(s: Store, changes: bool, envelopes: seq<Envelope>)
    ensures SucceededIn(StoreAll(s, changes, envelopes)) == SucceededIn(s) + KeysOf(envelopes)
  {
    if envelopes == [] {
      assert KeysOf(envelopes) == {};
    } else {
      var front, last := envelopes[..|envelopes| - 1], envelopes[|envelopes| - 1];
      SuccessAll(s, changes, front);
      SuccessOne(StoreAll(s, changes, front), changes, last);
      assert envelopes == front + [last];
      KeysOfAppend(front, last);
    }
  }

  lemma KeysOfAppend(front: seq<Envelope>, last: Envelope)
    ensures KeysOf(front + [last]) == KeysOf(front) + {last.key}
  {
    var all := front + [last];
    forall k
      ensures k in KeysOf(all) <==> k in KeysOf(front) + {last.key}
    {
      if k in KeysOf(all) {
        var i :| 0 <= i < |all| && all[i].key == k;
        assert i < |front| ==> front[i] == all[i];
      }
      if k in KeysOf(front) {
        var i :| 0 <= i < |front| && front[i].key == k;
        assert all[i] == front[i];
      }
      assert all[|front|] == last;
    }
  }

  lemma {:induction false} InsertKeys(e: Envelope, envelopes: seq<Envelope>)
    ensures KeysOf(InsertEnvelope(e, envelopes)) == KeysOf(envelopes) + {e.key}
  {
    if envelopes == [] {
      KeysOfAppend([], e);
      assert [] + [e] == [e];
    } else {
      var front, last := envelopes[..|envelopes| - 1], envelopes[|envelopes| - 1];
      KeysOfAppend(envelopes, e);
      if !KeyLeq(last.key, e.key) {
        InsertKeys(e, front);
        KeysOfAppend(InsertEnvelope(e, front), last);
        KeysOfAppend(front, last);
        assert front + [last] == envelopes;
      }
    }
  }

  lemma {:induction false} InOrderKeys(envelopes: seq<Envelope>)
    ensures KeysOf(InOrder(envelopes)) == KeysOf(envelopes)
  {
    if envelopes != [] {
      var front, last := envelopes[..|envelopes| - 1], envelopes[|envelopes| - 1];
      InOrderKeys(front);
      InsertKeys(last, InOrder(front));
      KeysOfAppend(front, last);
      assert front + [last] == envelopes;
    }
  }

  // persist marks as succeeded exactly what the frontier takes it to.
  lemma SucceededGrows(s: Store, changes: bool, batch: Batch, db: Db)
    requires db.succeeded == SucceededIn(s)
    ensures SucceededIn(Persisted(s, changes, batch)) == MarkSucceeded(db, EntityKeys(batch)).succeeded
  {
    var known := EnsureAll(s, Identities(batch));
    EnsureKeeps(s, Identities(batch));
    assert SucceededIn(known) == SucceededIn(s);
    SuccessAll(known, changes, InOrder(batch.entities));
    InOrderKeys(batch.entities);
    assert KeysOf(batch.entities) == EntityKeys(batch);
  }

  lemma {:induction false} ModesStore(s: Store, t: Store, envelopes: seq<Envelope>)
    requires t == s.(revisions := t.revisions)
    ensures var (a, b) := (StoreAll(s, true, envelopes), StoreAll(t, false, envelopes));
            b == a.(revisions := t.revisions)
  {
    if envelopes != [] {
      ModesStore(s, t, envelopes[..|envelopes| - 1]);
    }
  }

  // Without revisions, persist leaves the same entities, tables and relations.
  lemma ModesDifferInRevisionsOnly(s: Store, batch: Batch)
    ensures Persisted(s, false, batch) == Persisted(s, true, batch).(revisions := s.revisions)
  {
    var known := EnsureAll(s, Identities(batch));
    EnsureKeeps(s, Identities(batch));
    ModesStore(known, known, InOrder(batch.entities));
  }
}
