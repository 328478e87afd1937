/**
 * The collections client: collections are stored as relationships. A
 * 'collection_definition' relationship whose target is the collection item
 * defines a collection, and each 'collection' relationship from an item to
 * the collection makes the item a member.
 *
 * The HTTP calls are parameters: a call's answer is given to the function
 * that reads it, and a call that writes is returned as the data it posts.
 */
module CollectionsApi {
  import opened Wrappers
  import opened Text
  import J = Records
  import opened Seqs
  import opened Sorting

  /** A relationship as the relationships endpoints return it. */
  datatype Relationship = Relationship(
    id: int,
    name: string,
    relationshipType: string,
    sourceItemId: int,
    targetItemId: int,
    attributes: Option<map<string, J.Json>>)

  /** `rel.attributes?.[key]`: None is undefined. */
  function Attribute(rel: Relationship, key: string): Option<J.Json>
  {
    if rel.attributes.Some? && key in rel.attributes.value then Some(rel.attributes.value[key]) else None
  }

  /** A collection's definition; description and curator are the stored attribute values, unchecked. */
  datatype CollectionDefinition = CollectionDefinition(
    id: int, name: string, description: Option<J.Json>, curator: Option<J.Json>)

  /** An item's fields the client reads: its name, which may be empty or missing. */
  datatype ItemDetails = ItemDetails(name: Option<string>)

  /**
   * A member of a collection. The position is the stored number when it is
   * an integer (None otherwise); details are present once the item was
   * fetched.
   */
  datatype CollectionEntity = CollectionEntity(
    id: int,
    itemId: int,
    itemName: string,
    position: Option<int>,
    addedDate: Option<J.Json>,
    details: Option<ItemDetails>)

  const DefinitionType: string := "collection_definition"
  const MemberType: string := "collection"

  // ---------------------------------------------------------------------
  // getCollectionDefinitions
  // ---------------------------------------------------------------------

  /** The definition a collection_definition relationship stands for: the collection is its target. */
  function ToDefinition(rel: Relationship): (d: CollectionDefinition)
    ensures d.id == rel.targetItemId && d.name == rel.name
    ensures d.description == Attribute(rel, "description") && d.curator == Attribute(rel, "curator")
  {
    CollectionDefinition(rel.targetItemId, rel.name, Attribute(rel, "description"), Attribute(rel, "curator"))
  }

  /** getCollectionDefinitions, for the relationships of type collection_definition. */
  function CollectionDefinitions(rels: seq<Relationship>): seq<CollectionDefinition>
  {
    Map(rels, ToDefinition)
  }

  /** There is one definition per relationship, in order, each naming the relationship's target. */
  lemma DefinitionsFollowRelationships(rels: seq<Relationship>)
    ensures |CollectionDefinitions(rels)| == |rels|
    ensures forall k :: 0 <= k < |rels| ==>
      (CollectionDefinitions(rels)[k].id == rels[k].targetItemId && CollectionDefinitions(rels)[k].name == rels[k].name)
  {
    MapAt(rels, ToDefinition);
  }

  // ---------------------------------------------------------------------
  // getCollectionEntities
  // ---------------------------------------------------------------------

  /** Whether a relationship makes its source a member of the collection. */
  function IsMember(collectionId: int): Relationship -> bool
  {
    (rel: Relationship) => rel.relationshipType == MemberType && rel.targetItemId == collectionId
  }

  /** A stored number that is an integer. */
  function IntegerValue(v: Option<J.Json>): Option<int>
  {
    if v.Some? && v.value.JInt? then Some(v.value.i as int)
    else if v.Some? && v.value.JLong? then Some(v.value.l as int)
    else None
  }

  /** The entity a member relationship stands for: the member is its source. */
  function ToEntity(rel: Relationship): (e: CollectionEntity)
    ensures e.id == rel.id && e.itemId == rel.sourceItemId && e.itemName == rel.name && e.details.None?
  {
    CollectionEntity(rel.id, rel.sourceItemId, rel.name, IntegerValue(Attribute(rel, "position")),
      Attribute(rel, "added_date"), None)
  }

  /** The members of the collection, in the order the endpoint lists them. */
  function Members(rels: seq<Relationship>, collectionId: int): seq<CollectionEntity>
  {
    Map(Filter(rels, IsMember(collectionId)), ToEntity)
  }

  /**
   * Every member comes from a 'collection' relationship whose target is
   * the collection, with the relationship's source as its item; and there
   * is one member per such relationship.
   */
  lemma MembersAreMemberRelationships(rels: seq<Relationship>, collectionId: int)
    ensures |Members(rels, collectionId)| == Count(rels, IsMember(collectionId))
    ensures forall e :: e in Members(rels, collectionId) ==>
      exists rel :: (rel in rels && rel.relationshipType == MemberType && rel.targetItemId == collectionId
        && e.id == rel.id && e.itemId == rel.sourceItemId)
  {
    var kept := Filter(rels, IsMember(collectionId));
    CountIsFilterLength(rels, IsMember(collectionId));
    MapAt(kept, ToEntity);
    forall e | e in Members(rels, collectionId)
      ensures exists rel :: (rel in rels && rel.relationshipType == MemberType && rel.targetItemId == collectionId
        && e.id == rel.id && e.itemId == rel.sourceItemId)
    {
      var k :| 0 <= k < |kept| && Members(rels, collectionId)[k] == e;
      assert kept[k] in kept;
    }
  }

  /**
   * The member after its item was fetched: a fetched item brings its
   * details and, when its name is not empty, that name; a failed fetch
   * (None) keeps the member as it was.
   */
  function WithDetails(lookup: int -> Option<ItemDetails>): CollectionEntity -> CollectionEntity
  {
    (e: CollectionEntity) =>
      match lookup(e.itemId)
      case None => e
      case Some(item) => e.(itemName := if item.name.Some? && item.name.value != "" then item.name.value else e.itemName,
                            details := Some(item))
  }

  /** A failed fetch never drops a member: it stays, unchanged; a fetch changes at most the name and the details. */
  lemma FailedLookupKeepsMember(lookup: int -> Option<ItemDetails>, e: CollectionEntity)
    ensures lookup(e.itemId).None? ==> WithDetails(lookup)(e) == e
    ensures lookup(e.itemId).Some? ==>
      (WithDetails(lookup)(e).details == lookup(e.itemId)
       && WithDetails(lookup)(e).(itemName := e.itemName, details := e.details) == e)
  {
  }

  /** A position is truthy unless it is missing or 0. */
  predicate HasPosition(e: CollectionEntity)
  {
    e.position.Some? && e.position.value != 0
  }

  /**
   * The sort comparator, as "may come first": by position when both
   * members have one, by name otherwise.
   */
  function MemberOrder(): (CollectionEntity, CollectionEntity) -> bool
  {
    (a: CollectionEntity, b: CollectionEntity) =>
      if HasPosition(a) && HasPosition(b) then a.position.value <= b.position.value
      else LexLeq(a.itemName, b.itemName)
  }

  /** getCollectionEntities: the members with their details, sorted. */
  function CollectionEntities(rels: seq<Relationship>, collectionId: int, lookup: int -> Option<ItemDetails>)
    : seq<CollectionEntity>
  {
    SortBy(Map(Members(rels, collectionId), WithDetails(lookup)), MemberOrder())
  }

  lemma MemberOrderTotal()
    ensures Total(MemberOrder())
  {
    forall a: CollectionEntity, b: CollectionEntity ensures MemberOrder()(a, b) || MemberOrder()(b, a) {
      LexLeqTotal(a.itemName, b.itemName);
    }
  }

  /**
   * The listing holds every fetched member exactly once, and neighbours
   * are in order: by position when both have one, by name otherwise.
   */
  lemma EntitiesSorted(rels: seq<Relationship>, collectionId: int, lookup: int -> Option<ItemDetails>)
    ensures var r := CollectionEntities(rels, collectionId, lookup);
      && multiset(r) == multiset(Map(Members(rels, collectionId), WithDetails(lookup)))
      && forall i :: 0 <= i < |r| - 1 ==>
           if HasPosition(r[i]) && HasPosition(r[i + 1]) then r[i].position.value <= r[i + 1].position.value
           else LexLeq(r[i].itemName, r[i + 1].itemName)
  {
    MemberOrderTotal();
    SortByOrdered(Map(Members(rels, collectionId), WithDetails(lookup)), MemberOrder());
  }

  /** When every member has a position, the listing is in ascending order of position throughout. */
  lemma {:induction false} AllPositionedAscending(r: seq<CollectionEntity>)
    requires Ordered(r, MemberOrder())
    requires forall i :: 0 <= i < |r| ==> HasPosition(r[i])
    ensures forall i, j :: 0 <= i <= j < |r| ==> r[i].position.value <= r[j].position.value
  {
    if |r| > 1 {
      AllPositionedAscending(r[1..]);
      assert MemberOrder()(r[0], r[1]);
      forall i, j | 0 <= i <= j < |r| ensures r[i].position.value <= r[j].position.value {
        if 0 < i {
          assert r[i] == r[1..][i - 1] && r[j] == r[1..][j - 1];
        } else if 0 < j {
          assert r[1] == r[1..][0] && r[j] == r[1..][j - 1];
        }
      }
    }
  }

  // ---------------------------------------------------------------------
  // getCollectionWithEntities
  // ---------------------------------------------------------------------

  /** A collection with its members. */
  datatype CollectionWithEntities = CollectionWithEntities(definition: CollectionDefinition, entities: seq<CollectionEntity>)

  /** `defs.find(d => d.id === collectionId)` */
  function FindDefinition(defs: seq<CollectionDefinition>, collectionId: int): (r: Option<CollectionDefinition>)
    ensures r.None? <==> forall k :: 0 <= k < |defs| ==> defs[k].id != collectionId
    ensures r.Some? ==> exists k :: (0 <= k < |defs| && defs[k] == r.value && r.value.id == collectionId
      && forall j :: 0 <= j < k ==> defs[j].id != collectionId)
  {
    if defs == [] then None
    else if defs[0].id == collectionId then Some(defs[0])
    else
      var r := FindDefinition(defs[1..], collectionId);
      assert forall k :: 1 <= k < |defs| ==> defs[k] == defs[1..][k - 1];
      if r.Some? then
        var k :| 0 <= k < |defs[1..]| && defs[1..][k] == r.value && r.value.id == collectionId
          && forall j :: 0 <= j < k ==> defs[1..][j].id != collectionId;
        assert defs[k + 1] == r.value;
        r
      else r
  }

  /** The error getCollectionWithEntities throws for an unknown collection. */
  function NotFound(collectionId: int): Exception
  {
    RuntimeException("Collection with ID " + IntToString(collectionId) + " not found")
  }

  /**
   * getCollectionWithEntities, for the definition relationships, the
   * collection's relationships and the item lookups.
   */
  function CollectionWithMembers(definitionRels: seq<Relationship>, rels: seq<Relationship>, collectionId: int,
                                 lookup: int -> Option<ItemDetails>): (r: Result<CollectionWithEntities>)
  {
    match FindDefinition(CollectionDefinitions(definitionRels), collectionId)
    case None => Err(NotFound(collectionId))
    case Some(definition) => Ok(CollectionWithEntities(definition, CollectionEntities(rels, collectionId, lookup)))
  }

  /**
   * The call fails exactly when no definition relationship targets the
   * collection; otherwise it returns that collection's definition and its
   * sorted members.
   */
  lemma WithEntitiesFailsIffUnknown(definitionRels: seq<Relationship>, rels: seq<Relationship>, collectionId: int,
                                    lookup: int -> Option<ItemDetails>)
    ensures var r := CollectionWithMembers(definitionRels, rels, collectionId, lookup);
      && (r.Err? <==> forall k :: 0 <= k < |definitionRels| ==> definitionRels[k].targetItemId != collectionId)
      && (r.Err? ==> r.error == NotFound(collectionId))
      && (r.Ok? ==>
            (r.value.definition.id == collectionId && r.value.entities == CollectionEntities(rels, collectionId, lookup)))
  {
    DefinitionsFollowRelationships(definitionRels);
  }

  // ---------------------------------------------------------------------
  // createCollection, addItemToCollection, removeItemFromCollection
  // ---------------------------------------------------------------------

  /** A relationship as posted, before the server gives it an id. */
  datatype RelationshipData = RelationshipData(
    name: string, relationshipType: string, sourceItemId: int, targetItemId: int, attributes: map<string, J.Json>)

  /** The relationship the server stores for posted data. */
  function Stored(data: RelationshipData, id: int): Relationship
  {
    Relationship(id, data.name, data.relationshipType, data.sourceItemId, data.targetItemId, Some(data.attributes))
  }

  /** An object member that JSON.stringify writes only when it is defined. */
  function Member(key: string, value: Option<string>): map<string, J.Json>
  {
    if value.Some? then map[key := J.JText(value.value)] else map[]
  }

  /** A defined string as a stored attribute value. */
  function AsJson(value: Option<string>): Option<J.Json>
  {
    if value.Some? then Some(J.JText(value.value)) else None
  }

  /** The definition relationship createCollection posts for the new collection item. */
  function DefinitionData(collectionItemId: int, name: string, description: Option<string>, curator: Option<string>)
    : RelationshipData
  {
    RelationshipData(name, DefinitionType, collectionItemId, collectionItemId,
      Member("description", description) + Member("curator", curator))
  }

  /** What createCollection returns. */
  function CreatedDefinition(collectionItemId: int, name: string, description: Option<string>, curator: Option<string>)
    : CollectionDefinition
  {
    CollectionDefinition(collectionItemId, name, AsJson(description), AsJson(curator))
  }

  /**
   * The definition relationship starts and ends at the new collection
   * item, and once stored it reads back, through getCollectionDefinitions,
   * as the very definition createCollection returns.
   */
  lemma CreatedDefinitionReadsBack(collectionItemId: int, name: string, description: Option<string>,
                                   curator: Option<string>, relId: int)
    ensures var data := DefinitionData(collectionItemId, name, description, curator);
      && data.sourceItemId == collectionItemId && data.targetItemId == collectionItemId
      && data.relationshipType == DefinitionType
      && ToDefinition(Stored(data, relId)) == CreatedDefinition(collectionItemId, name, description, curator)
  {
    var attrs := Member("description", description) + Member("curator", curator);
    assert "description" != "curator";
    assert "description" in attrs <==> description.Some?;
    assert "curator" in attrs <==> curator.Some?;
  }

  /** The relationship addItemToCollection posts; `now` is the ISO timestamp of the call. */
  function MemberData(collectionId: int, itemId: int, position: Option<int>, now: string): RelationshipData
    requires position.Some? ==> J.IsLong(position.value)
  {
    RelationshipData("Item " + IntToString(itemId) + " in Collection " + IntToString(collectionId), MemberType,
      itemId, collectionId,
      (if position.Some? then map["position" := J.JLong(position.value)] else map[])["added_date" := J.JText(now)])
  }

  /**
   * Adding an item posts one relationship, and once it is stored the
   * collection has exactly one more member: the item, at the end of the
   * listing's input, with the given position.
   */
  lemma AddedItemBecomesMember(rels: seq<Relationship>, collectionId: int, itemId: int, position: Option<int>,
                               now: string, relId: int)
    requires position.Some? ==> J.IsLong(position.value)
    ensures var rel := Stored(MemberData(collectionId, itemId, position, now), relId);
      && Members(rels + [rel], collectionId) == Members(rels, collectionId) + [ToEntity(rel)]
      && ToEntity(rel).itemId == itemId && ToEntity(rel).position == position
  {
    var rel := Stored(MemberData(collectionId, itemId, position, now), relId);
    MemberAppended(rels, collectionId, rel);
    PositionStored(collectionId, itemId, position, now, relId);
  }

  /** A relationship added at the end that makes its source a member adds that member last. */
  lemma MemberAppended(rels: seq<Relationship>, collectionId: int, rel: Relationship)
    requires IsMember(collectionId)(rel)
    ensures Members(rels + [rel], collectionId) == Members(rels, collectionId) + [ToEntity(rel)]
  {
    FilterSnoc(rels, rel, IsMember(collectionId));
    var kept := Filter(rels, IsMember(collectionId));
    assert (kept + [rel])[..|kept|] == kept;
  }

  /** The posted position reads back as the member's position. */
  lemma PositionStored(collectionId: int, itemId: int, position: Option<int>, now: string, relId: int)
    requires position.Some? ==> J.IsLong(position.value)
    ensures ToEntity(Stored(MemberData(collectionId, itemId, position, now), relId)).position == position
  {
    assert "position" != "added_date";
  }

  /** Whether a relationship makes the item a member of the collection. */
  function MembershipOf(collectionId: int, itemId: int): Relationship -> bool
  {
    (rel: Relationship) => rel.relationshipType == MemberType && rel.sourceItemId == itemId && rel.targetItemId == collectionId
  }

  /** removeItemFromCollection's find: the id of the first relationship making the item a member. */
  function RelationshipToDelete(rels: seq<Relationship>, collectionId: int, itemId: int): (r: Option<int>)
    ensures r.None? <==> Count(rels, MembershipOf(collectionId, itemId)) == 0
    ensures r.Some? ==> exists k :: 0 <= k < |rels| && FirstMembership(rels, collectionId, itemId, k) && rels[k].id == r.value
  {
    if rels == [] then None
    else if MembershipOf(collectionId, itemId)(rels[0]) then
      assert FirstMembership(rels, collectionId, itemId, 0);
      Some(rels[0].id)
    else
      var r := RelationshipToDelete(rels[1..], collectionId, itemId);
      if r.Some? then
        var k :| 0 <= k < |rels[1..]| && FirstMembership(rels[1..], collectionId, itemId, k) && rels[1..][k].id == r.value;
        assert FirstMembership(rels, collectionId, itemId, k + 1) by {
          assert forall j :: 1 <= j <= k + 1 ==> rels[j] == rels[1..][j - 1];
        }
        r
      else r
  }

  /** rels[k] is the first relationship making the item a member. */
  predicate FirstMembership(rels: seq<Relationship>, collectionId: int, itemId: int, k: int)
  {
    0 <= k < |rels| && MembershipOf(collectionId, itemId)(rels[k])
    && forall j :: 0 <= j < k ==> !MembershipOf(collectionId, itemId)(rels[j])
  }

  /** Relationship ids are unique. */
  predicate IdsUnique(rels: seq<Relationship>)
  {
    forall i, j :: 0 <= i < j < |rels| ==> rels[i].id != rels[j].id
  }

  /** Whether a relationship does not have the id. */
  function NotId(id: int): Relationship -> bool
  {
    (rel: Relationship) => rel.id != id
  }

  /** The relationships left once removeItemFromCollection's delete, if any, is done. */
  function AfterRemove(rels: seq<Relationship>, collectionId: int, itemId: int): seq<Relationship>
  {
    match RelationshipToDelete(rels, collectionId, itemId)
    case None => rels
    case Some(id) => Filter(rels, NotId(id))
  }

  /** Deleting the relationship at k, whose id no other has, removes just that one. */
  lemma DeleteAt(rels: seq<Relationship>, k: int)
    requires IdsUnique(rels) && 0 <= k < |rels|
    ensures Filter(rels, NotId(rels[k].id)) == rels[..k] + rels[k + 1..]
  {
    var p := NotId(rels[k].id);
    var before, after := rels[..k], rels[k + 1..];
    forall i | 0 <= i < |before| ensures p(before[i]) {
      assert before[i] == rels[i];
    }
    forall i | 0 <= i < |after| ensures p(after[i]) {
      assert after[i] == rels[k + 1 + i];
    }
    SplitAt(rels, k);
    FilterDropsOne(before, rels[k], after, p);
  }

  /**
   * Removing an item deletes only the first relationship that makes it a
   * member: one membership fewer, the other relationships kept in order;
   * and nothing changes when the item is not a member.
   */
  lemma RemoveDeletesFirstOnly(rels: seq<Relationship>, collectionId: int, itemId: int)
    requires IdsUnique(rels)
    ensures var m := MembershipOf(collectionId, itemId);
      && (Count(rels, m) == 0 ==> AfterRemove(rels, collectionId, itemId) == rels)
      && (Count(rels, m) > 0 ==>
            (Count(AfterRemove(rels, collectionId, itemId), m) == Count(rels, m) - 1
             && exists k :: FirstMembership(rels, collectionId, itemId, k)
                  && AfterRemove(rels, collectionId, itemId) == rels[..k] + rels[k + 1..]))
  {
    var m := MembershipOf(collectionId, itemId);
    var r := RelationshipToDelete(rels, collectionId, itemId);
    if r.Some? {
      var k :| 0 <= k < |rels| && FirstMembership(rels, collectionId, itemId, k) && rels[k].id == r.value;
      DeleteAt(rels, k);
      CountWithoutAt(rels, k, m);
    }
  }
}
