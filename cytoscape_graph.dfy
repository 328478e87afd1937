/**
 * The graph elements of the Cytoscape views and the three builders that
 * assemble them: items with their summaries (and a node per model that
 * wrote more than one of them), items with their relationships, and the
 * comprehensive graph with both. Each builder appends to node and edge
 * lists in loops; the functions beside them state the lists they build.
 */
module CytoscapeGraph {
  import opened Wrappers
  import opened Text
  import opened Records
  import opened ItemEntity
  import opened SummaryService
  import Seqs

  /** What a node carries for display: the item, the summary record, or nothing (a model node). */
  datatype Details = ItemDetails(item: ItemRecord) | SummaryDetails(summary: DetailedSummary) | NoDetails

  /** CytoscapeNode with its NodeData; `caption` is the data's label. */
  datatype Node = Node(id: string, caption: Option<string>, nodeType: string, classes: string, details: Details)

  /** CytoscapeEdge with its EdgeData; `caption` is the data's label. */
  datatype Edge = Edge(id: string, source: string, target: string, caption: string)

  /** Elements: the node and edge lists. */
  datatype Graph = Graph(nodes: seq<Node>, edges: seq<Edge>)

  /** A Long in string concatenation: "null" when absent. */
  function IdText(o: Option<int>): string
  {
    match o
    case None => "null"
    case Some(i) => IntToString(i)
  }

  function ItemNodeId(id: int): string { "item-" + IntToString(id) }

  function ItemNode(item: ItemRecord): Node
  {
    Node(ItemNodeId(item.id), item.name, item.itemType, item.itemType, ItemDetails(item))
  }

  function SummaryNodeId(s: DetailedSummary): string { "summary-" + IntToString(s.id) }

  /** The item node a summary points back to, by its item id (which may be null). */
  function SummaryItemRef(s: DetailedSummary): string { "item-" + IdText(s.entityId) }

  function SummaryNode(s: DetailedSummary): Node
  {
    Node(SummaryNodeId(s), Some(Str(s.modelName) + " Summary"), "summary", "summary", SummaryDetails(s))
  }

  function SummarizesEdge(s: DetailedSummary): Edge
  {
    Edge("edge-" + SummaryItemRef(s) + "-" + SummaryNodeId(s), SummaryItemRef(s), SummaryNodeId(s), "summarizes")
  }

  function RelationshipEdge(r: Relationship): Edge
  {
    Edge("rel-" + IntToString(r.id), ItemNodeId(r.sourceId), ItemNodeId(r.targetId), r.relationshipType)
  }

  /** replaceAll("\\s+", "-"): every maximal run of whitespace becomes one hyphen. */
  function Hyphenate(name: string): (r: string)
    ensures forall i :: 0 <= i < |r| ==> !IsRegexSpace(r[i])
    ensures r == [] <==> name == []
    decreases |name|
  {
    if name == [] then []
    else if IsRegexSpace(name[0]) then
      var rest := TrimStart(name, IsRegexSpace);
      "-" + Hyphenate(rest)
    else [name[0]] + Hyphenate(name[1..])
  }

  /** The id of the node of a model: "model-" and the name, hyphenated and lower-cased. */
  function ModelNodeId(name: string): string
  {
    "model-" + Lower(Hyphenate(name))
  }

  /** A model node's id has no whitespace and no upper-case letter. */
  lemma ModelNodeIdPlain(name: string)
    ensures var id := ModelNodeId(name);
      forall i :: 0 <= i < |id| ==> !IsRegexSpace(id[i]) && !IsUpperAscii(id[i])
  {
    var h := Hyphenate(name);
    var l := Lower(h);
    forall i | 0 <= i < |l| ensures !IsRegexSpace(l[i]) {
      assert l[i] == LowerChar(h[i]);
    }
    var id := ModelNodeId(name);
    assert id == "model-" + l;
    forall i | 0 <= i < |id| ensures !IsRegexSpace(id[i]) && !IsUpperAscii(id[i]) {
      if i < 6 {
        assert id[i] == "model-"[i];
      } else {
        assert id[i] == l[i - 6];
      }
    }
  }

  function ModelNode(name: string): Node
  {
    Node(ModelNodeId(name), Some(name), "model", "model", NoDetails)
  }

  function GeneratedByEdge(name: string, s: DetailedSummary): Edge
  {
    Edge("edge-" + ModelNodeId(name) + "-" + SummaryNodeId(s), SummaryNodeId(s), ModelNodeId(name), "generated-by")
  }

  function ItemNodes(items: seq<ItemRecord>): seq<Node> { Seqs.Map(items, ItemNode) }

  function SummaryNodes(summaries: seq<DetailedSummary>): seq<Node> { Seqs.Map(summaries, SummaryNode) }

  function SummarizesEdges(summaries: seq<DetailedSummary>): seq<Edge> { Seqs.Map(summaries, SummarizesEdge) }

  function RelationshipEdges(relationships: seq<Relationship>): seq<Edge> { Seqs.Map(relationships, RelationshipEdge) }

  /** The generated-by edge of each summary, towards the node of `name`. */
  function GeneratedByFrom(name: string): DetailedSummary -> Edge
  {
    (s: DetailedSummary) => GeneratedByEdge(name, s)
  }

  function GeneratedByEdges(name: string, members: seq<DetailedSummary>): seq<Edge>
  {
    Seqs.Map(members, GeneratedByFrom(name))
  }

  // ---------------------------------------------------------------------
  // Grouping summaries by model name (groupingBy(modelName))
  // ---------------------------------------------------------------------

  /** groupingBy refuses a null key, so every summary needs a model name. */
  predicate AllNamed(summaries: seq<DetailedSummary>)
  {
    forall i :: 0 <= i < |summaries| ==> summaries[i].modelName.Some?
  }

  function Named(name: string): DetailedSummary -> bool
  {
    (s: DetailedSummary) => s.modelName == Some(name)
  }

  /**
   * The model names of the summaries, each once, in order of first
   * appearance: exactly the names some summary carries.
   */
  function ModelNames(summaries: seq<DetailedSummary>): (r: seq<string>)
    requires AllNamed(summaries)
    ensures Seqs.Distinct(r)
    ensures forall n :: n in r <==> Seqs.Count(summaries, Named(n)) > 0
  {
    if summaries == [] then []
    else
      var init, last := summaries[..|summaries| - 1], summaries[|summaries| - 1];
      assert summaries == init + [last];
      var names := ModelNames(init);
      forall n ensures Seqs.Count(summaries, Named(n)) == Seqs.Count(init, Named(n)) + Seqs.Count([last], Named(n)) {
        Seqs.CountAppend(init, [last], Named(n));
      }
      if last.modelName.value in names then names else names + [last.modelName.value]
  }

  /** One group per model name: the name and its summaries, in their order. */
  datatype ModelGroup = ModelGroup(name: string, members: seq<DetailedSummary>)

  function ModelGroups(summaries: seq<DetailedSummary>): seq<ModelGroup>
    requires AllNamed(summaries)
  {
    var names := ModelNames(summaries);
    seq(|names|, i requires 0 <= i < |names| => ModelGroup(names[i], Seqs.Filter(summaries, Named(names[i]))))
  }

  /** The model nodes: one per group of more than one summary. */
  function ModelNodes(groups: seq<ModelGroup>): seq<Node>
  {
    if groups == [] then []
    else
      var g := groups[|groups| - 1];
      ModelNodes(groups[..|groups| - 1]) + (if |g.members| > 1 then [ModelNode(g.name)] else [])
  }

  /** The generated-by edges: one per summary of a group of more than one. */
  function ModelEdges(groups: seq<ModelGroup>): seq<Edge>
  {
    if groups == [] then []
    else
      var g := groups[|groups| - 1];
      ModelEdges(groups[..|groups| - 1]) + (if |g.members| > 1 then GeneratedByEdges(g.name, g.members) else [])
  }

  // ---------------------------------------------------------------------
  // The graphs the builders produce
  // ---------------------------------------------------------------------

  /** buildItemsSummariesGraph; a summary without a model name makes the grouping throw. */
  function ItemsSummariesGraph(items: seq<ItemRecord>, summaries: seq<DetailedSummary>): Result<Graph>
  {
    if !AllNamed(summaries) then Err(NullPointerException)
    else
      var groups := ModelGroups(summaries);
      Ok(Graph(ItemNodes(items) + SummaryNodes(summaries) + ModelNodes(groups),
        SummarizesEdges(summaries) + ModelEdges(groups)))
  }

  /** buildItemsRelationshipsGraph */
  function ItemsRelationshipsGraph(items: seq<ItemRecord>, relationships: seq<Relationship>): Graph
  {
    Graph(ItemNodes(items), RelationshipEdges(relationships))
  }

  /** buildComprehensiveGraph */
  function ComprehensiveGraph(items: seq<ItemRecord>, summaries: seq<DetailedSummary>, relationships: seq<Relationship>): Graph
  {
    Graph(ItemNodes(items) + SummaryNodes(summaries), SummarizesEdges(summaries) + RelationshipEdges(relationships))
  }

  // ---------------------------------------------------------------------
  // The builders
  // ---------------------------------------------------------------------

  /** Appending to nothing gives the list itself. */
  lemma EmptyPrefix<U>(xs: seq<U>)
    ensures [] + xs == xs
  {
  }

  /** The loop the builders share: one element appended per input, in order. */
  method AppendEach<T, U>(xs: seq<T>, f: T -> U, acc: seq<U>) returns (acc': seq<U>)
    ensures acc' == acc + Seqs.Map(xs, f)
  {
    acc' := acc;
    var i := 0;
    while i < |xs|
      invariant 0 <= i <= |xs|
      invariant acc' == acc + Seqs.Map(xs[..i], f)
    {
      Seqs.MapSnoc(xs, i, f);
      acc' := acc' + [f(xs[i])];
      i := i + 1;
    }
    assert xs[..|xs|] == xs;
  }

  /** A loop that appends one element to each of two lists per input, as the summary loop does. */
  method AppendEachPair<T, U, V>(xs: seq<T>, f: T -> U, g: T -> V, us: seq<U>, vs: seq<V>)
    returns (us': seq<U>, vs': seq<V>)
    ensures us' == us + Seqs.Map(xs, f)
    ensures vs' == vs + Seqs.Map(xs, g)
  {
    us', vs' := us, vs;
    var i := 0;
    while i < |xs|
      invariant 0 <= i <= |xs|
      invariant us' == us + Seqs.Map(xs[..i], f)
      invariant vs' == vs + Seqs.Map(xs[..i], g)
    {
      Seqs.MapSnoc(xs, i, f);
      Seqs.MapSnoc(xs, i, g);
      us' := us' + [f(xs[i])];
      vs' := vs' + [g(xs[i])];
      i := i + 1;
    }
    assert xs[..|xs|] == xs;
  }

  /** One more group adds its model node and edges, if it has more than one summary. */
  lemma ModelStep(groups: seq<ModelGroup>, i: int)
    requires 0 <= i < |groups|
    ensures ModelNodes(groups[..i + 1])
      == ModelNodes(groups[..i]) + (if |groups[i].members| > 1 then [ModelNode(groups[i].name)] else [])
    ensures ModelEdges(groups[..i + 1])
      == ModelEdges(groups[..i]) + (if |groups[i].members| > 1 then GeneratedByEdges(groups[i].name, groups[i].members) else [])
  {
    assert groups[..i + 1][..i] == groups[..i];
  }

  /** The forEach over the model groups: a model node and its edges for each group of more than one. */
  method AddModelElements(groups: seq<ModelGroup>, nodes: seq<Node>, edges: seq<Edge>)
    returns (nodes': seq<Node>, edges': seq<Edge>)
    ensures nodes' == nodes + ModelNodes(groups)
    ensures edges' == edges + ModelEdges(groups)
  {
    nodes', edges' := nodes, edges;
    var i := 0;
    while i < |groups|
      invariant 0 <= i <= |groups|
      invariant nodes' == nodes + ModelNodes(groups[..i])
      invariant edges' == edges + ModelEdges(groups[..i])
    {
      ModelStep(groups, i);
      var g := groups[i];
      if |g.members| > 1 {
        Seqs.AppendOneAssoc(nodes, ModelNodes(groups[..i]), ModelNode(g.name));
        Seqs.AppendAssoc(edges, ModelEdges(groups[..i]), GeneratedByEdges(g.name, g.members));
        nodes' := nodes' + [ModelNode(g.name)];
        edges' := AppendEach(g.members, GeneratedByFrom(g.name), edges');
      }
      i := i + 1;
    }
    assert groups[..|groups|] == groups;
  }

  /** buildItemsSummariesGraph */
  method BuildItemsSummariesGraph(items: seq<ItemRecord>, summaries: seq<DetailedSummary>) returns (r: Result<Graph>)
    ensures r == ItemsSummariesGraph(items, summaries)
  {
    var nodes := AppendEach(items, ItemNode, []);
    assert nodes == ItemNodes(items);
    var edges: seq<Edge>;
    nodes, edges := AppendEachPair(summaries, SummaryNode, SummarizesEdge, nodes, []);
    assert edges == SummarizesEdges(summaries);
    if exists i :: 0 <= i < |summaries| && summaries[i].modelName.None? {
      return Err(NullPointerException);
    }
    var groups := ModelGroups(summaries);
    nodes, edges := AddModelElements(groups, nodes, edges);
    r := Ok(Graph(nodes, edges));
  }

  /** buildItemsRelationshipsGraph */
  method BuildItemsRelationshipsGraph(items: seq<ItemRecord>, relationships: seq<Relationship>) returns (g: Graph)
    ensures g == ItemsRelationshipsGraph(items, relationships)
  {
    var nodes := AppendEach(items, ItemNode, []);
    EmptyPrefix(ItemNodes(items));
    var edges := AppendEach(relationships, RelationshipEdge, []);
    EmptyPrefix(RelationshipEdges(relationships));
    g := Graph(nodes, edges);
  }

  /** buildComprehensiveGraph */
  method BuildComprehensiveGraph(items: seq<ItemRecord>, summaries: seq<DetailedSummary>, relationships: seq<Relationship>)
    returns (g: Graph)
    ensures g == ComprehensiveGraph(items, summaries, relationships)
  {
    var nodes := AppendEach(items, ItemNode, []);
    assert nodes == ItemNodes(items);
    var edges: seq<Edge>;
    nodes, edges := AppendEachPair(summaries, SummaryNode, SummarizesEdge, nodes, []);
    assert edges == SummarizesEdges(summaries);
    edges := AppendEach(relationships, RelationshipEdge, edges);
    g := Graph(nodes, edges);
  }

  // ---------------------------------------------------------------------
  // Properties of the graphs
  // ---------------------------------------------------------------------

  /** Items with distinct ids get nodes with distinct ids. */
  lemma ItemNodeIdsDistinct(items: seq<ItemRecord>)
    requires forall i, j :: 0 <= i < j < |items| ==> items[i].id != items[j].id
    ensures var nodes := ItemNodes(items);
      forall i, j :: 0 <= i < j < |nodes| ==> nodes[i].id != nodes[j].id
  {
    var nodes := ItemNodes(items);
    Seqs.MapAt(items, ItemNode);
    forall i, j | 0 <= i < j < |nodes| ensures nodes[i].id != nodes[j].id {
      var a, b := IntToString(items[i].id), IntToString(items[j].id);
      if ("item-" + a) == ("item-" + b) {
        assert a == ("item-" + a)[5..] && b == ("item-" + b)[5..];
        IntToStringInjective(items[i].id, items[j].id);
      }
    }
  }

  /** Some group of more than one summary has this name. */
  predicate SharedGroup(groups: seq<ModelGroup>, name: string)
  {
    exists i :: 0 <= i < |groups| && groups[i].name == name && |groups[i].members| > 1
  }

  /** A model node stands for a group of more than one summary, and every such group has one. */
  lemma {:induction false} ModelNodesOfGroups(groups: seq<ModelGroup>, name: string)
    ensures ModelNode(name) in ModelNodes(groups) <==> SharedGroup(groups, name)
  {
    if groups != [] {
      var n := |groups| - 1;
      var init, g := groups[..n], groups[n];
      ModelNodesOfGroups(init, name);
      var last := if |g.members| > 1 then [ModelNode(g.name)] else [];
      assert ModelNodes(groups) == ModelNodes(init) + last;
      assert ModelNode(name) in last <==> g.name == name && |g.members| > 1;
      if SharedGroup(groups, name) {
        var i :| 0 <= i < |groups| && groups[i].name == name && |groups[i].members| > 1;
        if i < n {
          assert init[i] == groups[i];
        }
      }
      if SharedGroup(init, name) {
        var i :| 0 <= i < |init| && init[i].name == name && |init[i].members| > 1;
        assert groups[i] == init[i];
      }
    }
  }

  /**
   * A model gets a node exactly when more than one of the summaries names
   * it.
   */
  lemma ModelNodeIffShared(summaries: seq<DetailedSummary>, name: string)
    requires AllNamed(summaries)
    ensures ModelNode(name) in ModelNodes(ModelGroups(summaries)) <==> Seqs.Count(summaries, Named(name)) > 1
  {
    ModelNodesOfGroups(ModelGroups(summaries), name);
    if SharedGroup(ModelGroups(summaries), name) {
      SharedGroupCounted(summaries, name);
    }
    if Seqs.Count(summaries, Named(name)) > 1 {
      CountedGroupShared(summaries, name);
    }
  }

  /** A group of more than one stands for a name more than one summary carries. */
  lemma SharedGroupCounted(summaries: seq<DetailedSummary>, name: string)
    requires AllNamed(summaries) && SharedGroup(ModelGroups(summaries), name)
    ensures Seqs.Count(summaries, Named(name)) > 1
  {
    var groups := ModelGroups(summaries);
    var i :| 0 <= i < |groups| && groups[i].name == name && |groups[i].members| > 1;
    Seqs.CountIsFilterLength(summaries, Named(ModelNames(summaries)[i]));
  }

  /** A name more than one summary carries has a group of more than one. */
  lemma CountedGroupShared(summaries: seq<DetailedSummary>, name: string)
    requires AllNamed(summaries) && Seqs.Count(summaries, Named(name)) > 1
    ensures SharedGroup(ModelGroups(summaries), name)
  {
    var names := ModelNames(summaries);
    var groups := ModelGroups(summaries);
    var i :| 0 <= i < |names| && names[i] == name;
    Seqs.CountIsFilterLength(summaries, Named(name));
    assert groups[i].name == name && |groups[i].members| > 1;
  }

  /** A summary of a group of more than one has its generated-by edge. */
  lemma {:induction false} EdgeOfGroup(groups: seq<ModelGroup>, i: int, s: DetailedSummary)
    requires 0 <= i < |groups| && |groups[i].members| > 1 && s in groups[i].members
    ensures GeneratedByEdge(groups[i].name, s) in ModelEdges(groups)
  {
    var n := |groups| - 1;
    if i < n {
      assert groups[..n][i] == groups[i];
      EdgeOfGroup(groups[..n], i, s);
      EarlierEdgesKept(groups, GeneratedByEdge(groups[i].name, s));
    } else {
      LastGroupEdge(groups, s);
    }
  }

  /** The edges of the groups before the last stay among the edges. */
  lemma EarlierEdgesKept(groups: seq<ModelGroup>, e: Edge)
    requires groups != [] && e in ModelEdges(groups[..|groups| - 1])
    ensures e in ModelEdges(groups)
  {
  }

  /** A member of the last group, when it has more than one, has its edge. */
  lemma LastGroupEdge(groups: seq<ModelGroup>, s: DetailedSummary)
    requires groups != [] && |groups[|groups| - 1].members| > 1 && s in groups[|groups| - 1].members
    ensures GeneratedByEdge(groups[|groups| - 1].name, s) in ModelEdges(groups)
  {
    var g := groups[|groups| - 1];
    EdgeOfMember(g.name, g.members, s);
  }

  /** A member of a group has its generated-by edge among the group's edges. */
  lemma EdgeOfMember(name: string, members: seq<DetailedSummary>, s: DetailedSummary)
    requires s in members
    ensures GeneratedByEdge(name, s) in GeneratedByEdges(name, members)
  {
    var k :| 0 <= k < |members| && members[k] == s;
    Seqs.MapAt(members, GeneratedByFrom(name));
    assert GeneratedByEdges(name, members)[k] == GeneratedByFrom(name)(s);
  }

  /**
   * Every model edge is a generated-by edge from the node of a summary to the
   * node of the model of a group it belongs to, a group of more than one.
   */
  lemma {:induction false} ModelEdgesGeneratedBy(groups: seq<ModelGroup>)
    ensures forall e :: e in ModelEdges(groups) ==>
      && e.caption == "generated-by"
      && (exists i, s :: 0 <= i < |groups| && |groups[i].members| > 1 && s in groups[i].members
            && e.source == SummaryNodeId(s) && e.target == ModelNodeId(groups[i].name))
  {
    if groups != [] {
      var n := |groups| - 1;
      var init, g := groups[..n], groups[n];
      ModelEdgesGeneratedBy(init);
      var tail := if |g.members| > 1 then GeneratedByEdges(g.name, g.members) else [];
      assert ModelEdges(groups) == ModelEdges(init) + tail;
      Seqs.MapAt(g.members, GeneratedByFrom(g.name));
      forall e | e in ModelEdges(groups)
        ensures e.caption == "generated-by"
        ensures (exists i, s :: 0 <= i < |groups| && |groups[i].members| > 1 && s in groups[i].members
                   && e.source == SummaryNodeId(s) && e.target == ModelNodeId(groups[i].name))
      {
        if e in ModelEdges(init) {
          var i, s :| 0 <= i < |init| && |init[i].members| > 1 && s in init[i].members
            && e.source == SummaryNodeId(s) && e.target == ModelNodeId(init[i].name);
          assert groups[i] == init[i];
        } else {
          var k :| 0 <= k < |tail| && tail[k] == e;
          assert e == GeneratedByEdge(g.name, g.members[k]);
          assert g.members[k] in groups[n].members;
        }
      }
    }
  }

  /**
   * Each summary whose model name is shared by another summary has a
   * generated-by edge to that model's node.
   */
  lemma SharedSummaryLinked(summaries: seq<DetailedSummary>, s: DetailedSummary)
    requires AllNamed(summaries) && s in summaries
    requires Seqs.Count(summaries, Named(s.modelName.value)) > 1
    ensures GeneratedByEdge(s.modelName.value, s) in ModelEdges(ModelGroups(summaries))
  {
    var name := s.modelName.value;
    var names := ModelNames(summaries);
    var groups := ModelGroups(summaries);
    var i :| 0 <= i < |names| && names[i] == name;
    Seqs.CountIsFilterLength(summaries, Named(name));
    assert s in groups[i].members;
    EdgeOfGroup(groups, i, s);
  }

  /**
   * The comprehensive graph has a node per item and per summary and an edge
   * per summary and per relationship, and no model node.
   */
  lemma ComprehensiveShape(items: seq<ItemRecord>, summaries: seq<DetailedSummary>, relationships: seq<Relationship>)
    ensures var g := ComprehensiveGraph(items, summaries, relationships);
      && |g.nodes| == |items| + |summaries|
      && |g.edges| == |summaries| + |relationships|
      && forall n :: n in g.nodes ==> !n.details.NoDetails?
  {
    ItemNodesDetailed(items);
    SummaryNodesDetailed(summaries);
  }

  /** Every item node carries its item. */
  lemma ItemNodesDetailed(items: seq<ItemRecord>)
    ensures forall n :: n in ItemNodes(items) ==> n.details.ItemDetails?
  {
    var nodes := ItemNodes(items);
    Seqs.MapAt(items, ItemNode);
    forall n | n in nodes ensures n.details.ItemDetails? {
      var k :| 0 <= k < |nodes| && nodes[k] == n;
      assert n == ItemNode(items[k]);
    }
  }

  /** Every summary node carries its summary. */
  lemma SummaryNodesDetailed(summaries: seq<DetailedSummary>)
    ensures forall n :: n in SummaryNodes(summaries) ==> n.details.SummaryDetails?
  {
    var nodes := SummaryNodes(summaries);
    Seqs.MapAt(summaries, SummaryNode);
    forall n | n in nodes ensures n.details.SummaryDetails? {
      var k :| 0 <= k < |nodes| && nodes[k] == n;
      assert n == SummaryNode(summaries[k]);
    }
  }

  /** The relationship graph's nodes are the items, in order, and its edges the relationships, in order. */
  lemma RelationshipGraphShape(items: seq<ItemRecord>, relationships: seq<Relationship>)
    ensures var g := ItemsRelationshipsGraph(items, relationships);
      && |g.nodes| == |items| && |g.edges| == |relationships|
      && (forall k :: 0 <= k < |items| ==> g.nodes[k].id == ItemNodeId(items[k].id) && g.nodes[k].details == ItemDetails(items[k]))
      && (forall k :: 0 <= k < |relationships| ==>
            g.edges[k].source == ItemNodeId(relationships[k].sourceId)
            && g.edges[k].target == ItemNodeId(relationships[k].targetId)
            && g.edges[k].caption == relationships[k].relationshipType)
  {
    Seqs.MapAt(items, ItemNode);
    Seqs.MapAt(relationships, RelationshipEdge);
  }
}
