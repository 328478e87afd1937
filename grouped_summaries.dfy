/**
 * GroupedSummariesTable: the summaries table that folds the summaries of
 * each item under one expandable row, ordered by item name.
 */
module GroupedSummaries {
  import opened Wrappers
  import opened Text
  import opened Records
  import opened Seqs
  import opened Sorting
  import JsNumber
  import ItemEntity

  /** The fields of a detailed summary record the table reads. */
  datatype SummaryRow = SummaryRow(
    id: int,
    itemId: int,
    itemName: string,
    itemDetails: Option<string>,
    content: string,
    modelConfig: Option<Json>)

  /** One item's row: the item, its summaries and how many there are. */
  datatype ItemGroup = ItemGroup(
    itemId: int,
    itemName: string,
    itemDetails: Option<string>,
    summaries: seq<SummaryRow>,
    summaryCount: nat)

  // ---------------------------------------------------------------------
  // groupedData
  // ---------------------------------------------------------------------

  /** The first group for an item id, if there is one (`groups.get`). */
  function IndexOfItem(groups: seq<ItemGroup>, itemId: int): (r: Option<nat>)
    ensures r.Some? ==> r.value < |groups| && groups[r.value].itemId == itemId
    ensures r.None? ==> forall k :: 0 <= k < |groups| ==> groups[k].itemId != itemId
  {
    if groups == [] then None
    else if groups[0].itemId == itemId then Some(0)
    else
      match IndexOfItem(groups[1..], itemId)
      case None => None
      case Some(k) => Some(k + 1)
  }

  /** A group's list after one more summary is pushed, with its count updated. */
  function Grow(group: ItemGroup, summary: SummaryRow): ItemGroup
  {
    group.(summaries := group.summaries + [summary], summaryCount := |group.summaries| + 1)
  }

  /** The group a summary opens for an item seen for the first time. */
  function NewGroup(summary: SummaryRow): ItemGroup
  {
    ItemGroup(summary.itemId, summary.itemName, summary.itemDetails, [summary], 1)
  }

  /** One step of the forEach: the summary joins its item's group, opened at the end if new. */
  function AddSummary(groups: seq<ItemGroup>, summary: SummaryRow): seq<ItemGroup>
  {
    match IndexOfItem(groups, summary.itemId)
    case None => groups + [NewGroup(summary)]
    case Some(k) => groups[k := Grow(groups[k], summary)]
  }

  /** The Map's values in insertion order after the forEach over the summaries. */
  function Groups(summaries: seq<SummaryRow>): seq<ItemGroup>
  {
    if summaries == [] then []
    else AddSummary(Groups(summaries[..|summaries| - 1]), summaries[|summaries| - 1])
  }

  /** `a.itemName.localeCompare(b.itemName)`, as code-point order. */
  function ByItemName(): (ItemGroup, ItemGroup) -> bool
  {
    (a: ItemGroup, b: ItemGroup) => LexLeq(a.itemName, b.itemName)
  }

  /** groupedData */
  method GroupedData(summaries: seq<SummaryRow>) returns (r: seq<ItemGroup>)
    ensures r == SortBy(Groups(summaries), ByItemName())
  {
    var groups: seq<ItemGroup> := [];
    var i := 0;
    while i < |summaries|
      invariant 0 <= i <= |summaries|
      invariant groups == Groups(summaries[..i])
    {
      var summary := summaries[i];
      ghost var before := groups;
      var found := IndexOfItem(groups, summary.itemId);
      if found.None? {
        groups := groups + [ItemGroup(summary.itemId, summary.itemName, summary.itemDetails, [], 0)];
        found := Some(|groups| - 1);
      }
      var group := groups[found.value];
      group := group.(summaries := group.summaries + [summary]);
      group := group.(summaryCount := |group.summaries|);
      groups := groups[found.value := group];
      assert groups == AddSummary(before, summary) by {
        if IndexOfItem(before, summary.itemId).None? {
          assert group == NewGroup(summary);
        }
      }
      assert summaries[..i + 1][..i] == summaries[..i];
      i := i + 1;
    }
    assert summaries[..|summaries|] == summaries;
    r := SortBy(groups, ByItemName());
  }

  // ---------------------------------------------------------------------
  // What the grouping promises
  // ---------------------------------------------------------------------

  /** Whether a summary belongs to an item. */
  function ForItem(itemId: int): SummaryRow -> bool
  {
    (x: SummaryRow) => x.itemId == itemId
  }

  /** Some group is for this item. */
  predicate HasGroup(groups: seq<ItemGroup>, itemId: int)
  {
    exists k :: 0 <= k < |groups| && groups[k].itemId == itemId
  }

  /**
   * A group of the summaries: its list is the item's summaries in input
   * order, never empty, its count is the list's length, and its name and
   * details are those of the item's first summary.
   */
  predicate GroupOf(group: ItemGroup, summaries: seq<SummaryRow>)
  {
    && group.summaries == Filter(summaries, ForItem(group.itemId))
    && group.summaries != []
    && group.summaryCount == |group.summaries|
    && group.itemName == group.summaries[0].itemName
    && group.itemDetails == group.summaries[0].itemDetails
  }

  /** No two groups are for the same item. */
  predicate IdsDistinct(groups: seq<ItemGroup>)
  {
    forall j, k :: 0 <= j < k < |groups| ==> groups[j].itemId != groups[k].itemId
  }

  /** Every group is a group of the summaries. */
  predicate AllGroupsOf(groups: seq<ItemGroup>, summaries: seq<SummaryRow>)
  {
    forall k :: 0 <= k < |groups| ==> GroupOf(groups[k], summaries)
  }

  /** Every summary's item has a group. */
  predicate Covers(groups: seq<ItemGroup>, summaries: seq<SummaryRow>)
  {
    forall i :: 0 <= i < |summaries| ==> HasGroup(groups, summaries[i].itemId)
  }

  /** One group per distinct item id of the summaries, each a group of the summaries. */
  predicate GroupsOf(groups: seq<ItemGroup>, summaries: seq<SummaryRow>)
  {
    IdsDistinct(groups) && AllGroupsOf(groups, summaries) && Covers(groups, summaries)
  }

  /** A summary for another item leaves a group of the summaries as it is. */
  lemma KeepGroup(g: ItemGroup, summaries: seq<SummaryRow>, x: SummaryRow)
    requires GroupOf(g, summaries) && g.itemId != x.itemId
    ensures GroupOf(g, summaries + [x])
  {
    FilterSnoc(summaries, x, ForItem(g.itemId));
  }

  /** A summary for the group's item joins the end of its list. */
  lemma GrowGroup(g: ItemGroup, summaries: seq<SummaryRow>, x: SummaryRow)
    requires GroupOf(g, summaries) && g.itemId == x.itemId
    ensures GroupOf(Grow(g, x), summaries + [x])
  {
    FilterSnoc(summaries, x, ForItem(g.itemId));
    assert Grow(g, x).summaries[0] == g.summaries[0];
  }

  /** The first summary of an item opens a group holding just it. */
  lemma OpenGroup(summaries: seq<SummaryRow>, x: SummaryRow)
    requires forall i :: 0 <= i < |summaries| ==> summaries[i].itemId != x.itemId
    ensures GroupOf(NewGroup(x), summaries + [x])
  {
    FilterSnoc(summaries, x, ForItem(x.itemId));
    FilterNone(summaries, ForItem(x.itemId));
  }

  /** A summary for an item that has no group yet opens a group of its own. */
  lemma AddNewItem(groups: seq<ItemGroup>, summaries: seq<SummaryRow>, x: SummaryRow)
    requires GroupsOf(groups, summaries) && IndexOfItem(groups, x.itemId).None?
    ensures GroupsOf(groups + [NewGroup(x)], summaries + [x])
  {
    NewItemUnseen(groups, summaries, x);
    AddNewGroupsOf(groups, summaries, x);
    AddNewCovers(groups, summaries, x);
  }

  /** An item with no group has no summary yet. */
  lemma NewItemUnseen(groups: seq<ItemGroup>, summaries: seq<SummaryRow>, x: SummaryRow)
    requires Covers(groups, summaries)
    requires forall k :: 0 <= k < |groups| ==> groups[k].itemId != x.itemId
    ensures forall i :: 0 <= i < |summaries| ==> summaries[i].itemId != x.itemId
  {
    forall i | 0 <= i < |summaries| ensures summaries[i].itemId != x.itemId {
      assert HasGroup(groups, summaries[i].itemId);
    }
  }

  lemma AddNewGroupsOf(groups: seq<ItemGroup>, summaries: seq<SummaryRow>, x: SummaryRow)
    requires IdsDistinct(groups) && AllGroupsOf(groups, summaries)
    requires forall k :: 0 <= k < |groups| ==> groups[k].itemId != x.itemId
    requires forall i :: 0 <= i < |summaries| ==> summaries[i].itemId != x.itemId
    ensures IdsDistinct(groups + [NewGroup(x)]) && AllGroupsOf(groups + [NewGroup(x)], summaries + [x])
  {
    var gs := groups + [NewGroup(x)];
    forall k | 0 <= k < |gs| ensures GroupOf(gs[k], summaries + [x]) {
      if k < |groups| {
        KeepGroup(groups[k], summaries, x);
      } else {
        OpenGroup(summaries, x);
      }
    }
  }

  lemma AddNewCovers(groups: seq<ItemGroup>, summaries: seq<SummaryRow>, x: SummaryRow)
    requires Covers(groups, summaries)
    ensures Covers(groups + [NewGroup(x)], summaries + [x])
  {
    var gs := groups + [NewGroup(x)];
    var s := summaries + [x];
    forall i | 0 <= i < |s| ensures HasGroup(gs, s[i].itemId) {
      if i < |summaries| {
        assert s[i] == summaries[i] && HasGroup(groups, summaries[i].itemId);
        var m :| 0 <= m < |groups| && groups[m].itemId == summaries[i].itemId;
        assert gs[m] == groups[m];
      } else {
        assert gs[|groups|].itemId == s[i].itemId;
      }
    }
  }

  /** A summary for an item that has a group joins the end of that group's list. */
  lemma AddKnownItem(groups: seq<ItemGroup>, summaries: seq<SummaryRow>, x: SummaryRow, j: nat)
    requires GroupsOf(groups, summaries) && IndexOfItem(groups, x.itemId) == Some(j)
    ensures GroupsOf(groups[j := Grow(groups[j], x)], summaries + [x])
  {
    var gs := groups[j := Grow(groups[j], x)];
    forall k | 0 <= k < |gs| ensures GroupOf(gs[k], summaries + [x]) {
      if k == j {
        GrowGroup(groups[j], summaries, x);
      } else {
        KeepGroup(groups[k], summaries, x);
      }
    }
    AddKnownCovers(groups, summaries, x, j);
  }

  lemma AddKnownCovers(groups: seq<ItemGroup>, summaries: seq<SummaryRow>, x: SummaryRow, j: nat)
    requires Covers(groups, summaries) && j < |groups| && groups[j].itemId == x.itemId
    ensures Covers(groups[j := Grow(groups[j], x)], summaries + [x])
  {
    var gs := groups[j := Grow(groups[j], x)];
    var s := summaries + [x];
    forall i | 0 <= i < |s| ensures HasGroup(gs, s[i].itemId) {
      if i < |summaries| {
        assert s[i] == summaries[i] && HasGroup(groups, summaries[i].itemId);
        var m :| 0 <= m < |groups| && groups[m].itemId == summaries[i].itemId;
        assert gs[m].itemId == groups[m].itemId;
      } else {
        assert gs[j].itemId == s[i].itemId;
      }
    }
  }

  /** The forEach builds the groups of the summaries it has seen. */
  lemma {:induction false} GroupsAreGroupsOf(summaries: seq<SummaryRow>)
    ensures GroupsOf(Groups(summaries), summaries)
  {
    if summaries != [] {
      var init, x := summaries[..|summaries| - 1], summaries[|summaries| - 1];
      GroupsAreGroupsOf(init);
      AddSummaryKeepsGroups(Groups(init), init, x);
      FrontLast(summaries);
    }
  }

  /** One step of the forEach keeps the groups those of the summaries seen so far. */
  lemma AddSummaryKeepsGroups(groups: seq<ItemGroup>, summaries: seq<SummaryRow>, x: SummaryRow)
    requires GroupsOf(groups, summaries)
    ensures GroupsOf(AddSummary(groups, x), summaries + [x])
  {
    match IndexOfItem(groups, x.itemId)
    case None => AddNewItem(groups, summaries, x);
    case Some(j) => AddKnownItem(groups, summaries, x, j);
  }

  /** The sum of the groups' counts. */
  function TotalCount(groups: seq<ItemGroup>): nat
  {
    if groups == [] then 0 else groups[0].summaryCount + TotalCount(groups[1..])
  }

  lemma {:induction false} TotalCountSnoc(groups: seq<ItemGroup>, g: ItemGroup)
    ensures TotalCount(groups + [g]) == TotalCount(groups) + g.summaryCount
  {
    if groups != [] {
      assert (groups + [g])[1..] == groups[1..] + [g];
      TotalCountSnoc(groups[1..], g);
    }
  }

  lemma {:induction false} TotalCountUpdate(groups: seq<ItemGroup>, j: nat, g: ItemGroup)
    requires j < |groups|
    ensures TotalCount(groups[j := g]) + groups[j].summaryCount == TotalCount(groups) + g.summaryCount
  {
    if j > 0 {
      assert groups[j := g][1..] == groups[1..][j - 1 := g];
      TotalCountUpdate(groups[1..], j - 1, g);
    }
  }

  /** Every summary is counted once: the counts sum to the number of summaries. */
  lemma {:induction false} GroupsTotal(summaries: seq<SummaryRow>)
    ensures TotalCount(Groups(summaries)) == |summaries|
  {
    if summaries != [] {
      var init, x := summaries[..|summaries| - 1], summaries[|summaries| - 1];
      GroupsTotal(init);
      GroupsAreGroupsOf(init);
      var gs := Groups(init);
      match IndexOfItem(gs, x.itemId)
      case None => TotalCountSnoc(gs, NewGroup(x));
      case Some(j) => TotalCountUpdate(gs, j, Grow(gs[j], x));
    }
  }

  /** Sorting moves the groups around without changing the total. */
  lemma {:induction false} TotalCountInsert(g: ItemGroup, groups: seq<ItemGroup>, leq: (ItemGroup, ItemGroup) -> bool)
    ensures TotalCount(InsertSorted(g, groups, leq)) == TotalCount(groups) + g.summaryCount
  {
    if groups != [] && !leq(g, groups[0]) {
      TotalCountInsert(g, groups[1..], leq);
      assert InsertSorted(g, groups, leq)[1..] == InsertSorted(g, groups[1..], leq);
    }
  }

  lemma {:induction false} TotalCountSorted(groups: seq<ItemGroup>, leq: (ItemGroup, ItemGroup) -> bool)
    ensures TotalCount(SortBy(groups, leq)) == TotalCount(groups)
  {
    if groups != [] {
      TotalCountSorted(groups[1..], leq);
      TotalCountInsert(groups[0], SortBy(groups[1..], leq), leq);
    }
  }

  /** Item names compare one way or the other. */
  lemma ByItemNameTotal()
    ensures Total(ByItemName())
  {
    forall a: ItemGroup, b: ItemGroup ensures ByItemName()(a, b) || ByItemName()(b, a) {
      LexLeqTotal(a.itemName, b.itemName);
    }
  }

  /**
   * groupedData holds exactly one group per distinct item id, ordered by
   * item name; each group lists its item's summaries in input order, its
   * count is their number, its name and details are those of the item's
   * first summary, and the counts add up to the number of summaries.
   */
  lemma GroupedDataCorrect(summaries: seq<SummaryRow>)
    ensures var r := SortBy(Groups(summaries), ByItemName());
      && Ordered(r, ByItemName())
      && (forall j, k :: 0 <= j < k < |r| ==> r[j].itemId != r[k].itemId)
      && (forall k :: 0 <= k < |r| ==> GroupOf(r[k], summaries))
      && (forall i :: 0 <= i < |summaries| ==> HasGroup(r, summaries[i].itemId))
      && TotalCount(r) == |summaries|
  {
    var gs := Groups(summaries);
    var r := SortBy(gs, ByItemName());
    GroupsAreGroupsOf(summaries);
    GroupsTotal(summaries);
    ByItemNameTotal();
    SortByOrdered(gs, ByItemName());
    TotalCountSorted(gs, ByItemName());
    forall k | 0 <= k < |r| ensures GroupOf(r[k], summaries) {
      assert r[k] in gs;
    }
    SortKeepsIdsDistinct(gs, ByItemName());
    forall i | 0 <= i < |summaries| ensures HasGroup(r, summaries[i].itemId) {
      var m :| 0 <= m < |gs| && gs[m].itemId == summaries[i].itemId;
      assert gs[m] in r;
    }
  }

  /** Inserting a group for a new item keeps the item ids distinct. */
  lemma {:induction false} InsertKeepsIdsDistinct(g: ItemGroup, groups: seq<ItemGroup>, leq: (ItemGroup, ItemGroup) -> bool)
    requires IdsDistinct(groups) && forall k :: 0 <= k < |groups| ==> groups[k].itemId != g.itemId
    ensures IdsDistinct(InsertSorted(g, groups, leq))
  {
    if groups != [] && !leq(g, groups[0]) {
      var rest := groups[1..];
      InsertKeepsIdsDistinct(g, rest, leq);
      var r := InsertSorted(g, groups, leq);
      assert r == [groups[0]] + InsertSorted(g, rest, leq);
      forall y | y in InsertSorted(g, rest, leq) ensures y.itemId != groups[0].itemId {
        assert y in multiset(InsertSorted(g, rest, leq));
        assert y == g || y in rest;
      }
    }
  }

  /** Sorting groups with distinct item ids keeps them distinct. */
  lemma {:induction false} SortKeepsIdsDistinct(groups: seq<ItemGroup>, leq: (ItemGroup, ItemGroup) -> bool)
    requires IdsDistinct(groups)
    ensures IdsDistinct(SortBy(groups, leq))
  {
    if groups != [] {
      var rest := groups[1..];
      SortKeepsIdsDistinct(rest, leq);
      var sorted := SortBy(rest, leq);
      forall k | 0 <= k < |sorted| ensures sorted[k].itemId != groups[0].itemId {
        assert sorted[k] in multiset(rest);
      }
      InsertKeepsIdsDistinct(groups[0], sorted, leq);
    }
  }

  // ---------------------------------------------------------------------
  // The expanded rows
  // ---------------------------------------------------------------------

  /** toggleExpanded's new set: the id leaves if present, joins otherwise. */
  function Toggled(expanded: set<int>, itemId: int): set<int>
  {
    if itemId in expanded then expanded - {itemId} else expanded + {itemId}
  }

  /** Toggling flips the one id, leaves every other id alone, and toggling twice restores the set. */
  lemma ToggleFlipsOne(expanded: set<int>, itemId: int)
    ensures itemId in Toggled(expanded, itemId) <==> itemId !in expanded
    ensures forall y :: y != itemId ==> (y in Toggled(expanded, itemId) <==> y in expanded)
    ensures Toggled(Toggled(expanded, itemId), itemId) == expanded
  {
  }

  /** The set of group ids. */
  function GroupIds(groups: seq<ItemGroup>): set<int>
  {
    set k | 0 <= k < |groups| :: groups[k].itemId
  }

  /** The table's expansion state. */
  class GroupedSummariesTable {
    var expandedItems: set<int>

    constructor ()
      ensures expandedItems == {}
    {
      expandedItems := {};
    }

    /** toggleExpanded */
    method ToggleExpanded(itemId: int)
      modifies this
      ensures expandedItems == Toggled(old(expandedItems), itemId)
    {
      var newExpanded := expandedItems;
      if itemId in newExpanded {
        newExpanded := newExpanded - {itemId};
      } else {
        newExpanded := newExpanded + {itemId};
      }
      expandedItems := newExpanded;
    }

    /** expandAll: every group's row is expanded, and nothing else. */
    method ExpandAll(groupedData: seq<ItemGroup>)
      modifies this
      ensures expandedItems == GroupIds(groupedData)
    {
      expandedItems := set k | 0 <= k < |groupedData| :: groupedData[k].itemId;
    }

    /** collapseAll */
    method CollapseAll()
      modifies this
      ensures expandedItems == {}
    {
      expandedItems := {};
    }
  }

  /** The ids of the summaries' groups are the item ids of the summaries. */
  lemma GroupIdsAreSummaryItems(summaries: seq<SummaryRow>)
    ensures GroupIds(Groups(summaries)) == set i | 0 <= i < |summaries| :: summaries[i].itemId
  {
    GroupsAreGroupsOf(summaries);
    GroupIdsWithin(Groups(summaries), summaries);
    SummaryItemsGrouped(Groups(summaries), summaries);
  }

  /** Every group's item has a summary. */
  lemma GroupIdsWithin(gs: seq<ItemGroup>, summaries: seq<SummaryRow>)
    requires AllGroupsOf(gs, summaries)
    ensures GroupIds(gs) <= set i | 0 <= i < |summaries| :: summaries[i].itemId
  {
    forall k | 0 <= k < |gs| ensures gs[k].itemId in set i | 0 <= i < |summaries| :: summaries[i].itemId {
      assert GroupOf(gs[k], summaries);
      var x := gs[k].summaries[0];
      assert x in Filter(summaries, ForItem(gs[k].itemId));
      var i :| 0 <= i < |summaries| && summaries[i] == x;
    }
  }

  /** Every summary's item has a group. */
  lemma SummaryItemsGrouped(gs: seq<ItemGroup>, summaries: seq<SummaryRow>)
    requires Covers(gs, summaries)
    ensures (set i | 0 <= i < |summaries| :: summaries[i].itemId) <= GroupIds(gs)
  {
    forall i | 0 <= i < |summaries| ensures summaries[i].itemId in GroupIds(gs) {
      assert HasGroup(gs, summaries[i].itemId);
    }
  }

  /** Sorting keeps the set of group ids. */
  lemma SortedGroupIds(groups: seq<ItemGroup>)
    ensures GroupIds(SortBy(groups, ByItemName())) == GroupIds(groups)
  {
    var r := SortBy(groups, ByItemName());
    ByItemNameTotal();
    SortByOrdered(groups, ByItemName());
    forall k | 0 <= k < |r| ensures r[k].itemId in GroupIds(groups) {
      assert r[k] in groups;
    }
    forall k | 0 <= k < |groups| ensures groups[k].itemId in GroupIds(r) {
      assert groups[k] in r;
    }
  }

  /**
   * Expanding all opens exactly the items that have summaries: the group
   * ids of groupedData are the item ids of the summaries.
   */
  lemma ExpandAllIsSummaryItems(summaries: seq<SummaryRow>)
    ensures GroupIds(SortBy(Groups(summaries), ByItemName())) == set i | 0 <= i < |summaries| :: summaries[i].itemId
  {
    SortedGroupIds(Groups(summaries));
    GroupIdsAreSummaryItems(summaries);
  }

  // ---------------------------------------------------------------------
  // Cell texts
  // ---------------------------------------------------------------------

  /** truncateText: short texts unchanged, longer ones cut to maxLength characters and "..." added. */
  function TruncateText(text: string, maxLength: int): (r: string)
    ensures |text| <= maxLength ==> r == text
    ensures |text| > maxLength ==> r == text[..if maxLength < 0 then 0 else maxLength] + "..."
  {
    if |text| <= maxLength then text
    else text[..if maxLength < 0 then 0 else maxLength] + "..."
  }

  /**
   * A truncated text is never longer than the limit plus the three dots;
   * a cut text keeps the text's first maxLength characters and ends in
   * "...".
   */
  lemma TruncateBounded(text: string, maxLength: nat)
    ensures |TruncateText(text, maxLength)| <= maxLength + 3
    ensures |text| > maxLength ==>
      StartsWith(TruncateText(text, maxLength), text[..maxLength]) && EndsWith(TruncateText(text, maxLength), "...")
  {
    var r := TruncateText(text, maxLength);
    if |text| > maxLength {
      assert r[..maxLength] == text[..maxLength];
      assert |r| == maxLength + 3;
      assert r[|r| - 3..] == "...";
    } else {
      assert text[..|r|] == r;
    }
  }

  /** A JSON value inside a JavaScript template literal. */
  function TemplateText(v: Json): string
  {
    match v
    case JNull => "null"
    case JText(s) => s
    case JInt(i) => IntToString(i)
    case JLong(l) => IntToString(l)
    case JDouble(d) => JsNumber.JsNumberText(d)
    case JBool(b) => if b then "true" else "false"
    case JObject(_) => "[object Object]"
    case JArray(elems) =>
      Join(seq(|elems|, i requires 0 <= i < |elems| => if elems[i].JNull? then "" else TemplateText(elems[i])), ",")
  }

  /**
   * A whole-valued double, which the backend writes as "5.0" or "1.0E7",
   * shows like the integer itself (5, 10000000) up to 2^53, where every
   * integer is a double.
   */
  lemma WholeDoubleShownAsInteger(v: Int64)
    requires -0x20_0000_0000_0000 <= v <= 0x20_0000_0000_0000
    ensures TemplateText(JDouble(Double(ItemEntity.IntegerDoubleText(v)))) == TemplateText(JLong(v))
  {
    JsNumber.WholeNumberText(v);
  }

  /** The part shown for one configuration key, if the configuration has it. */
  function ConfigPart(config: Option<Json>, key: string, caption: string): seq<string>
  {
    if config.Some? && Has(config.value, key) then [caption + TemplateText(config.value.fields[key])] else []
  }

  /** The parts formatConfigInfo collects, in the order it checks the keys. */
  function ConfigParts(config: Option<Json>): seq<string>
  {
    ConfigPart(config, "temperature", "temp=") + ConfigPart(config, "max_tokens", "tokens=")
      + ConfigPart(config, "top_p", "top_p=")
  }

  /** formatConfigInfo */
  function FormatConfigInfo(config: Option<Json>): (r: string)
    ensures r == "" <==> ConfigParts(config) == []
  {
    var parts := ConfigParts(config);
    if |parts| > 0 then "(" + Join(parts, ", ") + ")" else ""
  }

  /** The configuration text is empty exactly when none of the three keys is defined. */
  lemma ConfigInfoEmpty(config: Option<Json>)
    ensures FormatConfigInfo(config) == "" <==>
      config.None? || (!Has(config.value, "temperature") && !Has(config.value, "max_tokens") && !Has(config.value, "top_p"))
  {
  }

  /** A defined temperature comes first, right after the opening parenthesis. */
  lemma ConfigInfoTemperatureFirst(config: Option<Json>)
    requires config.Some? && Has(config.value, "temperature")
    ensures StartsWith(FormatConfigInfo(config), "(temp=" + TemplateText(config.value.fields["temperature"]))
  {
    var parts := ConfigParts(config);
    var first := "temp=" + TemplateText(config.value.fields["temperature"]);
    assert parts[0] == first;
    var r := FormatConfigInfo(config);
    assert r == "(" + Join(parts, ", ") + ")";
    JoinStartsWithFirst(parts, ", ");
    assert r[..|"(" + first|] == "(" + first;
  }

  /** With all three keys defined, the parts appear as temp=, tokens=, top_p=, comma-separated in parentheses. */
  lemma ConfigInfoAllThree(config: Option<Json>)
    requires config.Some? && Has(config.value, "temperature") && Has(config.value, "max_tokens") && Has(config.value, "top_p")
    ensures var f := config.value.fields;
      FormatConfigInfo(config) == "(" + ("temp=" + TemplateText(f["temperature"])) + ", "
        + ("tokens=" + TemplateText(f["max_tokens"])) + ", " + ("top_p=" + TemplateText(f["top_p"])) + ")"
  {
    var f := config.value.fields;
    var p0, p1, p2 := "temp=" + TemplateText(f["temperature"]), "tokens=" + TemplateText(f["max_tokens"]),
      "top_p=" + TemplateText(f["top_p"]);
    assert ConfigParts(config) == [p0, p1, p2];
    JoinThree(p0, p1, p2, ", ");
    assert FormatConfigInfo(config) == "(" + (p0 + ", " + p1 + ", " + p2) + ")";
  }

  lemma JoinThree(a: string, b: string, c: string, sep: string)
    ensures Join([a, b, c], sep) == a + sep + b + sep + c
  {
    assert [a, b, c][1..] == [b, c] && [b, c][1..] == [c];
    assert Join([b, c], sep) == b + sep + c;
    assert Join([a, b, c], sep) == a + sep + (b + sep + c);
  }

  /** A join starts with its first part. */
  lemma JoinStartsWithFirst(parts: seq<string>, sep: string)
    requires parts != []
    ensures StartsWith(Join(parts, sep), parts[0])
  {
    var j := Join(parts, sep);
    if |parts| > 1 {
      assert j == parts[0] + sep + Join(parts[1..], sep);
    }
    assert j[..|parts[0]|] == parts[0];
  }
}
