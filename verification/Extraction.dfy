// The contract WorkerService checks on every extracted batch before anything is written.
module Extraction {
  import opened Types

  datatype Verdict =
    | Accepted
    | WrongPrimaryCount(count: nat)
    | DuplicateEntities
    | CrossSourceEntity
    | CrossSourceRelation
    | CrossSourceDiscovery
    | EmptyPrimaryPayload

  function CountKey(entities: seq<Envelope>, key: Key): nat {
    if entities == [] then 0
    else CountKey(entities[..|entities| - 1], key) + if entities[|entities| - 1].key == key then 1 else 0
  }

  predicate DistinctKeys(entities: seq<Envelope>) {
    forall i, j | 0 <= i < j < |entities| :: entities[i].key != entities[j].key
  }

  predicate RelationWithin(relation: Relation, source: Source) {
    relation.source == source && relation.parent.source == source && relation.child.source == source
  }

  // The first envelope of the entity the task asked for.
  function Primary(entities: seq<Envelope>, key: Key): Option<Envelope> {
    if entities == [] then None
    else if entities[0].key == key then Some(entities[0])
    else Primary(entities[1..], key)
  }

  // _task_content_hash. The code raises where this is None, which no accepted batch gets to.
  function TaskHash(batch: Batch, key: Key): Option<string> {
    var primary := Primary(batch.entities, key);
    if primary.None? then None else Some(primary.value.contentHash)
  }

  // _validate_extracted_batch, with its checks in their order.
  function Validate(batch: Batch, key: Key): Verdict {
    var count := CountKey(batch.entities, key);
    if count != 1 then WrongPrimaryCount(count)
    else if !DistinctKeys(batch.entities) then DuplicateEntities
    else if exists e :: e in batch.entities && e.key.source != key.source then CrossSourceEntity
    else if exists r :: r in batch.relations && !RelationWithin(r, key.source) then CrossSourceRelation
    else if exists item :: item in batch.discovered && item.key.source != key.source then CrossSourceDiscovery
    else
      var primary := Primary(batch.entities, key);
      if primary.Some? && primary.value.hasRawPayload then Accepted else EmptyPrimaryPayload
  }

  lemma {:induction false} CountAndMembership(entities: seq<Envelope>, key: Key)
    ensures CountKey(entities, key) > 0 <==> exists i :: 0 <= i < |entities| && entities[i].key == key
    ensures DistinctKeys(entities) ==> CountKey(entities, key) <= 1
  {
    if entities != [] {
      var front := entities[..|entities| - 1];
      CountAndMembership(front, key);
      assert entities == front + [entities[|entities| - 1]];
    }
  }

  lemma {:induction false} PrimaryIsThere(entities: seq<Envelope>, key: Key)
    ensures Primary(entities, key).Some? <==> exists i :: 0 <= i < |entities| && entities[i].key == key
    ensures Primary(entities, key).Some? ==>
              Primary(entities, key).value in entities && Primary(entities, key).value.key == key
  {
    if entities != [] && entities[0].key != key {
      PrimaryIsThere(entities[1..], key);
      if i :| 0 <= i < |entities| && entities[i].key == key {
        assert entities[1..][i - 1].key == key;
      }
    }
  }

  // What an accepted batch is, without the counting: every entity once, the task's own entity with
  // its raw payload among them, and nothing from another source anywhere.
  ghost predicate WellFormed(batch: Batch, key: Key) {
    && DistinctKeys(batch.entities)
    && (exists e :: e in batch.entities && e.key == key && e.hasRawPayload)
    && (forall e | e in batch.entities :: e.key.source == key.source)
    && (forall r | r in batch.relations :: {r.source, r.parent.source, r.child.source} == {key.source})
    && (forall item | item in batch.discovered :: item.key.source == key.source)
  }

  lemma AcceptedIffWellFormed(batch: Batch, key: Key)
    ensures Validate(batch, key) == Accepted <==> WellFormed(batch, key)
  {
    CountAndMembership(batch.entities, key);
    PrimaryIsThere(batch.entities, key);
    if WellFormed(batch, key) {
      var e :| e in batch.entities && e.key == key && e.hasRawPayload;
      var i :| 0 <= i < |batch.entities| && batch.entities[i] == e;
      assert batch.entities[i].key == key;
    }
  }

  // The hash noted for the task is that of its own entity.
  lemma {:induction false} TaskHashIsOwn(batch: Batch, key: Key, e: Envelope)
    requires WellFormed(batch, key) && e in batch.entities && e.key == key
    ensures TaskHash(batch, key) == Some(e.contentHash)
  {
    var i :| 0 <= i < |batch.entities| && batch.entities[i] == e;
    PrimaryIsThere(batch.entities, key);
    var p := Primary(batch.entities, key).value;
    var j :| 0 <= j < |batch.entities| && batch.entities[j] == p;
    assert i == j;
  }
}
