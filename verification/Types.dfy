// The identities, batches and tasks that every part of the pipeline passes around
// (domain/models.py).
module Types {

  datatype Option<+T> = None | Some(value: T)

  datatype Source = EepMitwork | ZakupSk

  datatype EntityType = Lot | Notice | PlanItem | Organization

  // EntityIdentity.stable_key: two identities with equal keys are the same entity.
  datatype Key = Key(source: Source, kind: EntityType, id: string)

  // Instants and durations, in seconds.
  type Time = int

  // DiscoveredEntity: a request to put one entity on the frontier.
  datatype Item = Item(key: Key, priority: int, refreshExisting: bool, availableAt: Time)

  // EntityEnvelope: one parsed entity. `hasRawPayload` says that source_payload is not empty.
  datatype Envelope = Envelope(key: Key, contentHash: string, content: string, fetchedAt: Time, hasRawPayload: bool)

  datatype RelationType = PlanToNotice | PlanToLot | NoticeToLot | Customer | Organizer

  // EntityRelation, without its payload.
  datatype Relation = Relation(source: Source, kind: RelationType, parent: Key, child: Key)

  // ExtractedBatch: what one extraction produced.
  datatype Batch = Batch(entities: seq<Envelope>, relations: seq<Relation>, discovered: seq<Item>)

  // FrontierTask: the claim of one frontier row. (id, attempt) is the fencing token.
  datatype Task = Task(id: nat, key: Key, attempt: nat)

  function Max(a: int, b: int): int {
    if a >= b then a else b
  }

  function Min(a: int, b: int): int {
    if a <= b then a else b
  }

  // The entities a list of discovered items names.
  function Keys(items: seq<Item>): set<Key> {
    set i | 0 <= i < |items| :: items[i].key
  }

  // The entities a batch carries data for.
  function EntityKeys(batch: Batch): set<Key> {
    set i | 0 <= i < |batch.entities| :: batch.entities[i].key
  }

  function Ids(tasks: seq<Task>): set<nat> {
    set i | 0 <= i < |tasks| :: tasks[i].id
  }
}
