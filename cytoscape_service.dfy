/**
 * CytoscapeService's selectors: which items, summaries and relationships
 * each graph view reads from the tables before handing them to a builder,
 * and the counts of the statistics view.
 */
module CytoscapeService {
  import opened Wrappers
  import opened Text
  import opened Records
  import opened ItemEntity
  import opened SummaryService
  import opened CytoscapeGraph
  import Seqs

  // ---------------------------------------------------------------------
  // Selection predicates
  // ---------------------------------------------------------------------

  /** The ids of the selected items, in their order. */
  function ItemIds(items: seq<ItemRecord>): seq<int>
  {
    seq(|items|, i requires 0 <= i < |items| => items[i].id)
  }

  /** itemIds.contains(summary.itemId()): a summary whose item is among the ids (a null item id never is). */
  function OfItems(ids: seq<int>): DetailedSummary -> bool
  {
    (s: DetailedSummary) => s.entityId.Some? && s.entityId.value in ids
  }

  /** A relationship with both endpoints among the ids. */
  function Between(ids: seq<int>): Relationship -> bool
  {
    (r: Relationship) => r.sourceId in ids && r.targetId in ids
  }

  /** The collection view's relationship filter: both endpoints among the members and not a membership itself. */
  function WithinCollection(ids: seq<int>): Relationship -> bool
  {
    (r: Relationship) => r.sourceId in ids && r.targetId in ids && r.relationshipType != "collection"
  }

  /** findAllById: the stored items whose id is listed, in table order. */
  function WithIdIn(ids: seq<int>): ItemRecord -> bool
  {
    (x: ItemRecord) => x.id in ids
  }

  /** findAllById over a list that may hold nulls, which match no row. */
  function WithIdAmong(refs: seq<Option<int>>): ItemRecord -> bool
  {
    (x: ItemRecord) => Some(x.id) in refs
  }

  /** findByItemTypeIn: the items whose type is listed. */
  function OfTypes(types: seq<string>): ItemRecord -> bool
  {
    (x: ItemRecord) => x.itemType in types
  }

  /** summary.modelId().equals(modelId) */
  function OfModel(modelId: int): DetailedSummary -> bool
  {
    (s: DetailedSummary) => s.modelId == modelId
  }

  /** The detailed summaries whose item is among the ids, in listing order. */
  function SummariesOf(summaryRows: seq<Summary>, ids: seq<int>): seq<DetailedSummary>
  {
    Seqs.Filter(DetailedSummaries(summaryRows), OfItems(ids))
  }

  // ---------------------------------------------------------------------
  // The selectors
  // ---------------------------------------------------------------------

  /** getItemsSummariesGraph: every item, and the summaries of those items. */
  function ItemsSummariesView(items: seq<ItemRecord>, summaryRows: seq<Summary>): Result<Graph>
  {
    ItemsSummariesGraph(items, SummariesOf(summaryRows, ItemIds(items)))
  }

  /** getItemsRelationshipsGraph: every item and every relationship. */
  function ItemsRelationshipsView(items: seq<ItemRecord>, relationships: seq<Relationship>): Graph
  {
    ItemsRelationshipsGraph(items, relationships)
  }

  /** The member item ids of a collection: the source id of each membership. */
  function MemberIds(relationships: seq<Relationship>, collectionId: int): seq<int>
  {
    var members := CollectionMembers(relationships, collectionId);
    seq(|members|, i requires 0 <= i < |members| => members[i].sourceId)
  }

  /** getCollectionGraph */
  function CollectionView(items: seq<ItemRecord>, relationships: seq<Relationship>, collectionId: int): Graph
  {
    var ids := MemberIds(relationships, collectionId);
    ItemsRelationshipsGraph(Seqs.Filter(items, WithIdIn(ids)), Seqs.Filter(relationships, WithinCollection(ids)))
  }

  /** getGraphByItemTypes */
  function ItemTypesView(items: seq<ItemRecord>, summaryRows: seq<Summary>, relationships: seq<Relationship>,
                         itemTypes: seq<string>, includeRelationships: bool): Result<Graph>
  {
    var selected := Seqs.Filter(items, OfTypes(itemTypes));
    var ids := ItemIds(selected);
    if includeRelationships then Ok(ItemsRelationshipsGraph(selected, Seqs.Filter(relationships, Between(ids))))
    else ItemsSummariesGraph(selected, SummariesOf(summaryRows, ids))
  }

  /** The item ids of the summaries, nulls included. */
  function SummaryItemRefs(summaries: seq<DetailedSummary>): seq<Option<int>>
  {
    seq(|summaries|, i requires 0 <= i < |summaries| => summaries[i].entityId)
  }

  /** getGraphByModel: the summaries of one model and the items they summarize. */
  function ModelView(items: seq<ItemRecord>, summaryRows: seq<Summary>, modelId: int): Result<Graph>
  {
    var summaries := Seqs.Filter(DetailedSummaries(summaryRows), OfModel(modelId));
    ItemsSummariesGraph(Seqs.Filter(items, WithIdAmong(SummaryItemRefs(summaries))), summaries)
  }

  /** The exception PageRequest.of raises for a page size below one. */
  function PageSizeTooSmall(): Exception
  {
    IllegalArgumentException("Page size must not be less than one")
  }

  /** The exception subList(0, maxItems) raises for a negative maxItems. */
  function NegativeSubList(maxItems: int): Exception
  {
    IllegalArgumentException("fromIndex(0) > toIndex(" + IntToString(maxItems) + ")")
  }

  /**
   * The items of the comprehensive view: the listed types (then cut to
   * maxItems), or without types the first page of maxItems items.
   */
  function ComprehensiveItems(items: seq<ItemRecord>, maxItems: int, itemTypes: Option<seq<string>>): Result<seq<ItemRecord>>
  {
    if itemTypes.Some? && itemTypes.value != [] then
      var chosen := Seqs.Filter(items, OfTypes(itemTypes.value));
      if |chosen| <= maxItems then Ok(chosen)
      else if maxItems < 0 then Err(NegativeSubList(maxItems))
      else Ok(chosen[..maxItems])
    else if maxItems < 1 then Err(PageSizeTooSmall())
    else if |items| <= maxItems then Ok(items)
    else Ok(items[..maxItems])
  }

  /** getComprehensiveGraph */
  function ComprehensiveView(items: seq<ItemRecord>, summaryRows: seq<Summary>, relationships: seq<Relationship>,
                             maxItems: int, itemTypes: Option<seq<string>>): Result<Graph>
  {
    match ComprehensiveItems(items, maxItems, itemTypes)
    case Err(e) => Err(e)
    case Ok(chosen) =>
      var ids := ItemIds(chosen);
      Ok(ComprehensiveGraph(chosen, SummariesOf(summaryRows, ids), Seqs.Filter(relationships, Between(ids))))
  }

  // ---------------------------------------------------------------------
  // Properties of the selectors
  // ---------------------------------------------------------------------

  /** The graph has an item node with this id. */
  predicate HasItemNode(g: Graph, id: string)
  {
    exists n :: n in g.nodes && n.id == id && n.details.ItemDetails?
  }

  /** A selected item has its node in any graph that starts with the item nodes. */
  lemma ItemNodeOf(items: seq<ItemRecord>, id: int, rest: seq<Node>)
    requires id in ItemIds(items)
    ensures exists n :: n in ItemNodes(items) + rest && n.id == ItemNodeId(id) && n.details.ItemDetails?
  {
    var k :| 0 <= k < |items| && items[k].id == id;
    Seqs.MapAt(items, ItemNode);
    assert (ItemNodes(items) + rest)[k] == ItemNode(items[k]);
  }

  /** The "summarizes" edge of a summary of a selected item starts at that item's node. */
  lemma SummarizesEdgeFromItem(items: seq<ItemRecord>, summaries: seq<DetailedSummary>, ids: seq<int>, e: Edge, rest: seq<Node>)
    requires ids == ItemIds(items)
    requires forall s :: s in summaries ==> OfItems(ids)(s)
    requires e in SummarizesEdges(summaries)
    ensures exists n :: n in ItemNodes(items) + rest && n.id == e.source && n.details.ItemDetails?
  {
    var k :| 0 <= k < |summaries| && SummarizesEdges(summaries)[k] == e;
    Seqs.MapAt(summaries, SummarizesEdge);
    var s := summaries[k];
    assert s in summaries;
    ItemNodeOf(items, s.entityId.value, rest);
  }

  /**
   * In the summaries graph of selected items and the summaries of those
   * items, every "summarizes" edge starts at an emitted item node.
   */
  lemma SummariesGraphAnchored(items: seq<ItemRecord>, summaries: seq<DetailedSummary>)
    requires forall s :: s in summaries ==> OfItems(ItemIds(items))(s)
    requires ItemsSummariesGraph(items, summaries).Ok?
    ensures var g := ItemsSummariesGraph(items, summaries).value;
      forall e :: e in g.edges && e.caption == "summarizes" ==> HasItemNode(g, e.source)
  {
    var g := ItemsSummariesGraph(items, summaries).value;
    var groups := ModelGroups(summaries);
    ModelEdgesGeneratedBy(groups);
    forall e | e in g.edges && e.caption == "summarizes" ensures HasItemNode(g, e.source) {
      if e in SummarizesEdges(summaries) {
        SummarizesEdgeFromItem(items, summaries, ItemIds(items), e, SummaryNodes(summaries) + ModelNodes(groups));
        assert g.nodes == ItemNodes(items) + (SummaryNodes(summaries) + ModelNodes(groups));
      }
    }
  }

  /**
   * The summaries kept for a list of ids are exactly the detailed summaries
   * of those ids: each one of them, kept in listing order, and no other.
   */
  lemma SummariesOfSelected(summaryRows: seq<Summary>, ids: seq<int>)
    ensures forall s :: s in SummariesOf(summaryRows, ids) ==> OfItems(ids)(s)
    ensures forall s :: s in SummariesOf(summaryRows, ids) <==>
      s in DetailedSummaries(summaryRows) && s.entityId.Some? && s.entityId.value in ids
    ensures forall k :: 0 <= k < |DetailedSummaries(summaryRows)| && OfItems(ids)(DetailedSummaries(summaryRows)[k]) ==>
      DetailedSummaries(summaryRows)[k] in SummariesOf(summaryRows, ids)
  {
    var all := DetailedSummaries(summaryRows);
    forall k | 0 <= k < |all| && OfItems(ids)(all[k]) ensures all[k] in SummariesOf(summaryRows, ids) {
      assert all[k] in all;
    }
  }

  /**
   * Every "summarizes" edge of the items-summaries view and of the
   * summaries variant of the item-types view starts at an item node of the
   * same graph.
   */
  lemma SummaryViewsAnchored(items: seq<ItemRecord>, summaryRows: seq<Summary>, relationships: seq<Relationship>,
                             itemTypes: seq<string>)
    ensures var r := ItemsSummariesView(items, summaryRows);
      r.Ok? ==> forall e :: e in r.value.edges && e.caption == "summarizes" ==> HasItemNode(r.value, e.source)
    ensures var r := ItemTypesView(items, summaryRows, relationships, itemTypes, false);
      r.Ok? ==> forall e :: e in r.value.edges && e.caption == "summarizes" ==> HasItemNode(r.value, e.source)
  {
    SummariesOfSelected(summaryRows, ItemIds(items));
    if ItemsSummariesView(items, summaryRows).Ok? {
      SummariesGraphAnchored(items, SummariesOf(summaryRows, ItemIds(items)));
    }
    var selected := Seqs.Filter(items, OfTypes(itemTypes));
    SummariesOfSelected(summaryRows, ItemIds(selected));
    if ItemTypesView(items, summaryRows, relationships, itemTypes, false).Ok? {
      SummariesGraphAnchored(selected, SummariesOf(summaryRows, ItemIds(selected)));
    }
  }

  /**
   * The collection view's nodes are the stored items whose id is a member's
   * source id (ids without an item are dropped), and its edges come from
   * exactly the relationships with both endpoints among the members that
   * are not memberships.
   */
  lemma CollectionViewContents(items: seq<ItemRecord>, relationships: seq<Relationship>, collectionId: int)
    ensures var g := CollectionView(items, relationships, collectionId);
      var ids := MemberIds(relationships, collectionId);
      && (forall x :: ItemNode(x) in g.nodes <==> x in items && x.id in ids)
      && (forall r :: (r in relationships && r.sourceId in ids && r.targetId in ids && r.relationshipType != "collection")
            ==> RelationshipEdge(r) in g.edges)
      && (forall e :: e in g.edges ==> exists r :: r in relationships && WithinCollection(ids)(r) && e == RelationshipEdge(r))
      && (forall id :: id in ids <==> exists m :: m in relationships && TargetsCollection(m, collectionId, "collection") && m.sourceId == id)
  {
    var ids := MemberIds(relationships, collectionId);
    var selected := Seqs.Filter(items, WithIdIn(ids));
    var kept := Seqs.Filter(relationships, WithinCollection(ids));
    MapMembers(selected, ItemNode);
    MapMembers(kept, RelationshipEdge);
    ItemNodeInjective();
    var members := CollectionMembers(relationships, collectionId);
    forall id ensures id in ids <==> exists m :: m in relationships && TargetsCollection(m, collectionId, "collection") && m.sourceId == id {
      if id in ids {
        var k :| 0 <= k < |ids| && ids[k] == id;
        assert members[k] in members;
      }
      if exists m :: m in relationships && TargetsCollection(m, collectionId, "collection") && m.sourceId == id {
        var m :| m in relationships && TargetsCollection(m, collectionId, "collection") && m.sourceId == id;
        var k :| 0 <= k < |members| && members[k] == m;
        assert ids[k] == id;
      }
    }
  }

  /** An element is in the mapped list exactly when it is the image of an element of the list. */
  lemma MapMembers<T, U>(s: seq<T>, f: T -> U)
    ensures forall x :: x in s ==> f(x) in Seqs.Map(s, f)
    ensures forall y :: y in Seqs.Map(s, f) ==> exists x :: x in s && y == f(x)
  {
    Seqs.MapAt(s, f);
    forall x | x in s ensures f(x) in Seqs.Map(s, f) {
      var k :| 0 <= k < |s| && s[k] == x;
      assert Seqs.Map(s, f)[k] == f(x);
    }
    forall y | y in Seqs.Map(s, f) ensures exists x :: x in s && y == f(x) {
      var k :| 0 <= k < |s| && Seqs.Map(s, f)[k] == y;
      assert s[k] in s;
    }
  }

  /** Item nodes carry their item, so different items give different nodes. */
  lemma ItemNodeInjective()
    ensures forall x, y :: ItemNode(x) == ItemNode(y) ==> x == y
  {
  }

  /**
   * The item-types view with relationships: its nodes are the items of the
   * listed types, and its edges come from exactly the relationships whose
   * two ends are such items.
   */
  lemma ItemTypesViewContents(items: seq<ItemRecord>, summaryRows: seq<Summary>, relationships: seq<Relationship>,
                              itemTypes: seq<string>)
    ensures var g := ItemTypesView(items, summaryRows, relationships, itemTypes, true).value;
      var ids := ItemIds(Seqs.Filter(items, OfTypes(itemTypes)));
      && (forall x :: ItemNode(x) in g.nodes <==> x in items && x.itemType in itemTypes)
      && (forall id :: id in ids <==> exists x :: x in items && x.itemType in itemTypes && x.id == id)
      && (forall r :: r in relationships && r.sourceId in ids && r.targetId in ids ==> RelationshipEdge(r) in g.edges)
      && (forall e :: e in g.edges ==> exists r :: r in relationships && r.sourceId in ids && r.targetId in ids && e == RelationshipEdge(r))
  {
    var selected := Seqs.Filter(items, OfTypes(itemTypes));
    var ids := ItemIds(selected);
    var kept := Seqs.Filter(relationships, Between(ids));
    MapMembers(selected, ItemNode);
    MapMembers(kept, RelationshipEdge);
    ItemNodeInjective();
    SelectedIds(items, itemTypes);
  }

  /** The ids of the items of the listed types are the ids of exactly those stored items. */
  lemma SelectedIds(items: seq<ItemRecord>, itemTypes: seq<string>)
    ensures var ids := ItemIds(Seqs.Filter(items, OfTypes(itemTypes)));
      forall id :: id in ids <==> exists x :: x in items && x.itemType in itemTypes && x.id == id
  {
    var selected := Seqs.Filter(items, OfTypes(itemTypes));
    var ids := ItemIds(selected);
    forall id ensures id in ids <==> exists x :: x in items && x.itemType in itemTypes && x.id == id {
      if id in ids {
        var k :| 0 <= k < |ids| && ids[k] == id;
        assert selected[k] in selected;
      }
      if exists x :: x in items && x.itemType in itemTypes && x.id == id {
        var x :| x in items && x.itemType in itemTypes && x.id == id;
        var k :| 0 <= k < |selected| && selected[k] == x;
        assert ids[k] == id;
      }
    }
  }

  /**
   * The model view: it fails exactly when one of the model's summaries has
   * no model name; otherwise its summary nodes are exactly the detailed
   * summaries of that model, and its item nodes exactly the stored items
   * one of those summaries is about.
   */
  lemma ModelViewContents(items: seq<ItemRecord>, summaryRows: seq<Summary>, modelId: int)
    ensures var r := ModelView(items, summaryRows, modelId);
      r.Ok? <==> forall s :: s in DetailedSummaries(summaryRows) && s.modelId == modelId ==> s.modelName.Some?
    ensures var r := ModelView(items, summaryRows, modelId);
      r.Ok? ==> forall s :: SummaryNode(s) in r.value.nodes <==> s in DetailedSummaries(summaryRows) && s.modelId == modelId
    ensures var r := ModelView(items, summaryRows, modelId);
      r.Ok? ==> forall x :: ItemNode(x) in r.value.nodes <==>
        x in items && exists s :: s in DetailedSummaries(summaryRows) && s.modelId == modelId && s.entityId == Some(x.id)
  {
    var summaries := Seqs.Filter(DetailedSummaries(summaryRows), OfModel(modelId));
    var selected := Seqs.Filter(items, WithIdAmong(SummaryItemRefs(summaries)));
    AllNamedMembers(summaries);
    if ItemsSummariesGraph(selected, summaries).Ok? {
      ViewSummaryNodes(selected, summaries);
      ViewItemNodes(selected, summaries);
      forall x ensures x in selected <==> x in items && exists s :: s in summaries && s.entityId == Some(x.id) {
        if x in items && exists s :: s in summaries && s.entityId == Some(x.id) {
          var s :| s in summaries && s.entityId == Some(x.id);
          RefOfMember(summaries, s);
        }
        if x in selected {
          SelectedItemSummarized(items, summaries, x);
        }
      }
    }
  }

  /** Every summary has a model name exactly when every listed summary has one. */
  lemma AllNamedMembers(summaries: seq<DetailedSummary>)
    ensures AllNamed(summaries) <==> forall s :: s in summaries ==> s.modelName.Some?
  {
    if !AllNamed(summaries) {
      var k :| 0 <= k < |summaries| && summaries[k].modelName.None?;
      assert summaries[k] in summaries;
    }
  }

  /** A listed summary's item id is among the summaries' item ids. */
  lemma RefOfMember(summaries: seq<DetailedSummary>, s: DetailedSummary)
    requires s in summaries
    ensures s.entityId in SummaryItemRefs(summaries)
  {
    var k :| 0 <= k < |summaries| && summaries[k] == s;
    assert SummaryItemRefs(summaries)[k] == s.entityId;
  }

  /** The summary nodes of a summaries graph are exactly the nodes of its summaries. */
  lemma ViewSummaryNodes(items: seq<ItemRecord>, summaries: seq<DetailedSummary>)
    requires ItemsSummariesGraph(items, summaries).Ok?
    ensures forall s :: SummaryNode(s) in ItemsSummariesGraph(items, summaries).value.nodes <==> s in summaries
  {
    var groups := ModelGroups(summaries);
    MapMembers(summaries, SummaryNode);
    ItemNodesDetailed(items);
    ModelNodesDetailFree(groups);
    assert ItemsSummariesGraph(items, summaries).value.nodes == ItemNodes(items) + SummaryNodes(summaries) + ModelNodes(groups);
  }

  /** The item nodes of a summaries graph are exactly the nodes of its items. */
  lemma ViewItemNodes(items: seq<ItemRecord>, summaries: seq<DetailedSummary>)
    requires ItemsSummariesGraph(items, summaries).Ok?
    ensures forall x :: ItemNode(x) in ItemsSummariesGraph(items, summaries).value.nodes <==> x in items
  {
    MapMembers(items, ItemNode);
    forall x | ItemNode(x) in ItemsSummariesGraph(items, summaries).value.nodes ensures x in items {
      ModelViewItemNode(items, summaries, x);
    }
  }

  /** An item selected for the model view is the entity of one of the model's summaries. */
  lemma SelectedItemSummarized(items: seq<ItemRecord>, summaries: seq<DetailedSummary>, x: ItemRecord)
    requires x in Seqs.Filter(items, WithIdAmong(SummaryItemRefs(summaries)))
    ensures exists s :: s in summaries && s.entityId == Some(x.id)
  {
    var refs := SummaryItemRefs(summaries);
    var k :| 0 <= k < |refs| && refs[k] == Some(x.id);
    assert summaries[k] in summaries;
  }

  /** An item node of the model view's graph is a node of a selected item. */
  lemma ModelViewItemNode(selected: seq<ItemRecord>, summaries: seq<DetailedSummary>, x: ItemRecord)
    requires ItemsSummariesGraph(selected, summaries).Ok?
    requires ItemNode(x) in ItemsSummariesGraph(selected, summaries).value.nodes
    ensures x in selected
  {
    var groups := ModelGroups(summaries);
    MapMembers(selected, ItemNode);
    MapMembers(summaries, SummaryNode);
    ModelNodesDetailFree(groups);
    assert ItemsSummariesGraph(selected, summaries).value.nodes == ItemNodes(selected) + SummaryNodes(summaries) + ModelNodes(groups);
    ItemNodeInjective();
  }

  /** Model nodes carry no details. */
  lemma {:induction false} ModelNodesDetailFree(groups: seq<ModelGroup>)
    ensures forall n :: n in ModelNodes(groups) ==> n.details.NoDetails?
  {
    if groups != [] {
      ModelNodesDetailFree(groups[..|groups| - 1]);
    }
  }

  /** The page-size and sub-list failures of the comprehensive view, and the bound on its items. */
  lemma ComprehensiveItemsBound(items: seq<ItemRecord>, maxItems: int, itemTypes: Option<seq<string>>)
    ensures var r := ComprehensiveItems(items, maxItems, itemTypes);
      var typed := itemTypes.Some? && itemTypes.value != [];
      && (r.Err? <==> (typed && maxItems < 0) || (!typed && maxItems < 1))
      && (r.Ok? ==> |r.value| <= maxItems)
      && (r.Ok? && typed ==> forall x :: x in r.value ==> x in items && x.itemType in itemTypes.value)
      && (r.Ok? && !typed ==> r.value == items[..|r.value|] && (|r.value| == maxItems || r.value == items))
  {
  }

  /** Item nodes are the nodes with item details. */
  predicate IsItemNode(n: Node) { n.details.ItemDetails? }

  /**
   * getComprehensiveGraph never emits more than maxItems item nodes: the
   * item nodes are those of the chosen items, and summary nodes carry a
   * summary.
   */
  lemma ComprehensiveItemNodesBound(items: seq<ItemRecord>, summaryRows: seq<Summary>, relationships: seq<Relationship>,
                                    maxItems: int, itemTypes: Option<seq<string>>)
    ensures var r := ComprehensiveView(items, summaryRows, relationships, maxItems, itemTypes);
      r.Ok? ==> Seqs.Count(r.value.nodes, IsItemNode) <= maxItems
  {
    var c := ComprehensiveItems(items, maxItems, itemTypes);
    ComprehensiveItemsBound(items, maxItems, itemTypes);
    if c.Ok? {
      var chosen := c.value;
      var summaries := SummariesOf(summaryRows, ItemIds(chosen));
      ItemNodesCount(chosen);
      SummaryNodesCount(summaries);
      Seqs.CountAppend(ItemNodes(chosen), SummaryNodes(summaries), IsItemNode);
    }
  }

  /** Every node of an item is an item node. */
  lemma ItemNodesCount(items: seq<ItemRecord>)
    ensures Seqs.Count(ItemNodes(items), IsItemNode) == |items|
  {
    Seqs.MapAt(items, ItemNode);
  }

  /** No node of a summary is an item node. */
  lemma SummaryNodesCount(summaries: seq<DetailedSummary>)
    ensures Seqs.Count(SummaryNodes(summaries), IsItemNode) == 0
  {
    Seqs.MapAt(summaries, SummaryNode);
  }

  // ---------------------------------------------------------------------
  // getGraphStats
  // ---------------------------------------------------------------------

  /** ItemTypeCount */
  datatype TypeCount = TypeCount(itemType: string, count: int)

  /** GraphStats */
  datatype GraphStats = GraphStats(
    totalItems: int,
    totalSummaries: int,
    totalRelationships: int,
    totalCollections: int,
    itemTypeCounts: seq<TypeCount>)

  /** groupingBy's accumulator step: count one more item of type t. */
  function Bump(counts: seq<TypeCount>, t: string): seq<TypeCount>
  {
    if counts == [] then [TypeCount(t, 1)]
    else if counts[0].itemType == t then [counts[0].(count := counts[0].count + 1)] + counts[1..]
    else [counts[0]] + Bump(counts[1..], t)
  }

  /** groupingBy(Item::getItemType, counting()), entries in first-seen order. */
  function TypeCounts(items: seq<ItemRecord>): seq<TypeCount>
  {
    if items == [] then [] else Bump(TypeCounts(items[..|items| - 1]), items[|items| - 1].itemType)
  }

  function Keys(counts: seq<TypeCount>): seq<string>
  {
    seq(|counts|, i requires 0 <= i < |counts| => counts[i].itemType)
  }

  /** The sum of the counts. */
  function Total(counts: seq<TypeCount>): int
  {
    if counts == [] then 0 else counts[0].count + Total(counts[1..])
  }

  /** The count of type t, 0 when it has no entry. */
  function CountFor(counts: seq<TypeCount>, t: string): int
  {
    if counts == [] then 0 else if counts[0].itemType == t then counts[0].count else CountFor(counts[1..], t)
  }

  /** An item of type t. */
  function OfType(t: string): ItemRecord -> bool
  {
    (x: ItemRecord) => x.itemType == t
  }

  /** A collection definition relationship. */
  predicate IsCollectionDefinition(r: Relationship)
  {
    r.relationshipType == "collection_definition"
  }

  /** getGraphStats */
  function Stats(items: seq<ItemRecord>, summaryRows: seq<Summary>, relationships: seq<Relationship>): GraphStats
  {
    GraphStats(|items|, |DetailedSummaries(summaryRows)|, |relationships|,
      |Seqs.Filter(relationships, IsCollectionDefinition)|, TypeCounts(items))
  }

  /** A count step adds t to the keys when it is new, and keeps them otherwise. */
  lemma {:induction false} BumpKeys(counts: seq<TypeCount>, t: string)
    ensures Keys(Bump(counts, t)) == if t in Keys(counts) then Keys(counts) else Keys(counts) + [t]
  {
    if counts != [] {
      var tail, b := counts[1..], Bump(counts, t);
      KeysCons(counts);
      KeysCons(b);
      if counts[0].itemType == t {
        assert b[1..] == tail;
      } else {
        BumpKeys(tail, t);
        assert b[1..] == Bump(tail, t);
        Seqs.AppendAssoc([counts[0].itemType], Keys(tail), [t]);
      }
    }
  }

  /** The keys of a non-empty list: the first entry's type, then the rest's keys. */
  lemma KeysCons(counts: seq<TypeCount>)
    requires counts != []
    ensures Keys(counts) == [counts[0].itemType] + Keys(counts[1..])
  {
  }

  /** A count step keeps the keys distinct. */
  lemma BumpDistinct(counts: seq<TypeCount>, t: string)
    requires Seqs.Distinct(Keys(counts))
    ensures Seqs.Distinct(Keys(Bump(counts, t)))
  {
    BumpKeys(counts, t);
  }

  /** A count step adds one to the total. */
  lemma {:induction false} BumpTotal(counts: seq<TypeCount>, t: string)
    ensures Total(Bump(counts, t)) == Total(counts) + 1
  {
    if counts != [] {
      var tail := counts[1..];
      if counts[0].itemType == t {
        assert Bump(counts, t)[1..] == tail;
      } else {
        BumpTotal(tail, t);
        assert Bump(counts, t)[1..] == Bump(tail, t);
      }
    }
  }

  /** A count step adds one to t's count and leaves the other counts. */
  lemma {:induction false} BumpCountFor(counts: seq<TypeCount>, t: string, u: string)
    ensures CountFor(Bump(counts, t), u) == CountFor(counts, u) + (if u == t then 1 else 0)
  {
    if counts != [] {
      var tail := counts[1..];
      if counts[0].itemType == t {
        assert Bump(counts, t)[1..] == tail;
      } else {
        BumpCountFor(tail, t, u);
        assert Bump(counts, t)[1..] == Bump(tail, t);
      }
    }
  }

  /**
   * getGraphStats' per-type counts: one entry per type that occurs, each
   * type once, each count the number of items of that type, and the counts
   * sum to the number of items.
   */
  lemma {:induction false} TypeCountsCorrect(items: seq<ItemRecord>)
    ensures Seqs.Distinct(Keys(TypeCounts(items)))
    ensures forall t :: t in Keys(TypeCounts(items)) <==> exists x :: x in items && x.itemType == t
    ensures forall t :: CountFor(TypeCounts(items), t) == Seqs.Count(items, OfType(t))
    ensures Total(TypeCounts(items)) == |items|
  {
    if items != [] {
      var init, last := items[..|items| - 1], items[|items| - 1];
      TypeCountsCorrect(init);
      BumpKeys(TypeCounts(init), last.itemType);
      BumpDistinct(TypeCounts(init), last.itemType);
      BumpTotal(TypeCounts(init), last.itemType);
      Seqs.FrontLast(items);
      forall t ensures CountFor(TypeCounts(items), t) == Seqs.Count(items, OfType(t)) {
        BumpCountFor(TypeCounts(init), last.itemType, t);
        Seqs.CountAppend(init, [last], OfType(t));
      }
      forall t ensures t in Keys(TypeCounts(items)) <==> exists x :: x in items && x.itemType == t {
        if exists x :: x in items && x.itemType == t {
          var x :| x in items && x.itemType == t;
          if x != last {
            assert x in init;
          }
        }
        if t in Keys(TypeCounts(init)) {
          var x :| x in init && x.itemType == t;
          assert x in items;
        }
      }
    }
  }

  /** With distinct keys, an entry's count is the count of its type. */
  lemma {:induction false} EntryCount(counts: seq<TypeCount>, e: TypeCount)
    requires Seqs.Distinct(Keys(counts)) && e in counts
    ensures CountFor(counts, e.itemType) == e.count
  {
    if counts[0] != e {
      var tail := counts[1..];
      assert e in tail;
      assert forall i :: 0 <= i < |tail| ==> Keys(tail)[i] == Keys(counts)[i + 1];
      var k :| 0 <= k < |tail| && tail[k] == e;
      assert Keys(counts)[k + 1] == e.itemType && Keys(counts)[0] == counts[0].itemType;
      EntryCount(tail, e);
    }
  }

  /** Each entry of the per-type counts counts the items of its type, at least one. */
  lemma TypeCountEntries(items: seq<ItemRecord>)
    ensures forall e :: e in TypeCounts(items) ==> e.count == Seqs.Count(items, OfType(e.itemType)) && e.count > 0
  {
    TypeCountsCorrect(items);
    var counts := TypeCounts(items);
    forall e | e in counts ensures e.count == Seqs.Count(items, OfType(e.itemType)) && e.count > 0 {
      EntryCount(counts, e);
      var k :| 0 <= k < |counts| && counts[k] == e;
      assert Keys(counts)[k] == e.itemType;
      assert e.itemType in Keys(counts);
      var x :| x in items && x.itemType == e.itemType;
      var i :| 0 <= i < |items| && items[i] == x;
      assert OfType(e.itemType)(items[i]);
    }
  }

  /**
   * The statistics: the per-type counts sum to the item total, each entry
   * counts the items of its type, the summary total counts the summaries
   * with details and the collection total the definition relationships.
   */
  lemma StatsConsistent(items: seq<ItemRecord>, summaryRows: seq<Summary>, relationships: seq<Relationship>)
    ensures var s := Stats(items, summaryRows, relationships);
      && Total(s.itemTypeCounts) == s.totalItems
      && (forall e :: e in s.itemTypeCounts ==> e.count == Seqs.Count(items, OfType(e.itemType)) && e.count > 0)
      && s.totalSummaries == Seqs.Count(summaryRows, HasDetails)
      && s.totalCollections == Seqs.Count(relationships, IsCollectionDefinition)
  {
    TypeCountsCorrect(items);
    TypeCountEntries(items);
    DetailedSummariesListing(summaryRows);
    Seqs.CountIsFilterLength(relationships, IsCollectionDefinition);
  }
}
