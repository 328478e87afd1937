/**
 * The stored records the services read and write: JSON attribute values,
 * models and their configurations, summaries and relationships.
 *
 * The repository is part-way through a schema migration, so field names
 * disagree between files. The records here keep one field per concept:
 * a summary's subject is `entityType`/`entityId` (the processors' `itemId`
 * is `entityId`), and a relationship's endpoints are
 * `sourceType`/`sourceId` and `targetType`/`targetId` (the entity's
 * `sourceItemId`/`targetItemId`).
 */
module Records {
  import opened Wrappers
  import Seqs

  /**
   * A Java double, represented by its `Double.toString` text (which tells
   * distinct doubles apart); the model does no floating-point arithmetic.
   */
  datatype Double = Double(text: string)

  /** The values of Java's `int` and `long`. */
  type Int32 = i: int | -0x8000_0000 <= i < 0x8000_0000
  type Int64 = i: int | -0x8000_0000_0000_0000 <= i < 0x8000_0000_0000_0000

  /** The range of Java's `long`, which every stored id lies in. */
  predicate IsLong(i: int) { -0x8000_0000_0000_0000 <= i < 0x8000_0000_0000_0000 }

  /** A JSON value, as Jackson's JsonNode holds it in a jsonb column. */
  datatype Json =
    | JNull
    | JText(s: string)
    | JInt(i: Int32)
    | JLong(l: Int64)
    | JDouble(d: Double)
    | JBool(b: bool)
    | JObject(fields: map<string, Json>)
    | JArray(elems: seq<Json>)

  /** `node.has(key)`: only an object has named members. */
  predicate Has(node: Json, key: string)
  {
    node.JObject? && key in node.fields
  }

  /** Java's `%s` of a possibly-null string. */
  function Str(o: Option<string>): string
  {
    match o
    case None => "null"
    case Some(s) => s
  }

  datatype Model = Model(id: int, modelName: Option<string>, modelProvider: Option<string>)

  /** A model together with the parameter object (`modelConfig`) to call it with. */
  datatype ModelConfiguration = ModelConfiguration(
    id: int,
    model: Option<Model>,
    modelConfig: Option<Json>,
    comment: Option<string>)

  /** A generated summary of one subject (an item, a collection or a relationship). */
  datatype Summary = Summary(
    id: int,
    name: Option<string>,
    entityType: Option<string>,
    entityId: Option<int>,
    content: Option<string>,
    batchId: Option<int>,
    configuration: Option<ModelConfiguration>,
    attributes: Option<Json>,
    createdAt: Option<int>)

  function SummaryIdOf(s: Summary): int { s.id }

  function SummaryWithId(s: Summary, id: int): (r: Summary)
    ensures SummaryIdOf(r) == id
  {
    s.(id := id)
  }

  /** A typed, directed link between two entities. */
  datatype Relationship = Relationship(
    id: int,
    relationshipType: string,
    name: Option<string>,
    sourceType: Option<string>,
    sourceId: int,
    targetType: Option<string>,
    targetId: int,
    attributes: Option<Json>)

  function RelationshipIdOf(r: Relationship): int { r.id }

  function RelationshipWithId(r: Relationship, id: int): (s: Relationship)
    ensures RelationshipIdOf(s) == id
  {
    r.(id := id)
  }

  /** Targets the collection `collectionId` with the given relationship type. */
  predicate TargetsCollection(r: Relationship, collectionId: int, relationshipType: string)
  {
    r.targetType == Some("collection") && r.targetId == collectionId
    && r.relationshipType == relationshipType
  }

  /**
   * The stored relationships of one type that point at the collection, in
   * table order: findCollectionMembers and findCollectionDefinition differ
   * only in that type.
   */
  function PointingAt(rows: seq<Relationship>, collectionId: int, relationshipType: string): (r: seq<Relationship>)
    ensures forall x :: x in r <==> x in rows && TargetsCollection(x, collectionId, relationshipType)
  {
    Seqs.Filter(rows, x => TargetsCollection(x, collectionId, relationshipType))
  }

  /** findCollectionMembers */
  function CollectionMembers(rows: seq<Relationship>, collectionId: int): seq<Relationship>
  {
    PointingAt(rows, collectionId, "collection")
  }

  /** findCollectionDefinition */
  function CollectionDefinitions(rows: seq<Relationship>, collectionId: int): seq<Relationship>
  {
    PointingAt(rows, collectionId, "collection_definition")
  }
}
