/**
 * useItems: the items list of a page, replaced after each API call by an
 * append, a map-replace or a filter. The call is a parameter (what it
 * answered or threw).
 */
module UseItems {
  import opened Wrappers
  import opened Seqs
  import opened ApiErrors

  /** An item as the frontend holds it; the fields the hook never reads are left out. */
  datatype Item = Item(id: int, itemType: string, name: string, description: Option<string>)

  /** No two items share an id. */
  predicate UniqueIds(items: seq<Item>)
  {
    forall i, j :: 0 <= i < j < |items| ==> items[i].id != items[j].id
  }

  /** `item.id === id ? updatedItem : item` */
  function ReplaceWith(id: int, updated: Item): Item -> Item
  {
    (item: Item) => if item.id == id then updated else item
  }

  /** `prev.map(...)`: the list after an update. */
  function Replaced(items: seq<Item>, id: int, updated: Item): seq<Item>
  {
    Map(items, ReplaceWith(id, updated))
  }

  /**
   * An update keeps the length and every position: the items with the id
   * become the returned item, the others stay where they are.
   */
  lemma ReplacedKeepsPositions(items: seq<Item>, id: int, updated: Item)
    ensures |Replaced(items, id, updated)| == |items|
    ensures forall k :: 0 <= k < |items| && items[k].id == id ==> Replaced(items, id, updated)[k] == updated
    ensures forall k :: 0 <= k < |items| && items[k].id != id ==> Replaced(items, id, updated)[k] == items[k]
  {
    MapAt(items, ReplaceWith(id, updated));
  }

  /** An answer for an id the list does not hold changes nothing: the returned item is not added. */
  lemma ReplacingAbsentId(items: seq<Item>, id: int, updated: Item)
    requires forall k :: 0 <= k < |items| ==> items[k].id != id
    ensures Replaced(items, id, updated) == items
  {
    ReplacedKeepsPositions(items, id, updated);
  }

  /** An answer that keeps the id keeps the ids unique. */
  lemma ReplacedKeepsUnique(items: seq<Item>, id: int, updated: Item)
    requires UniqueIds(items) && updated.id == id
    ensures UniqueIds(Replaced(items, id, updated))
  {
    ReplacedKeepsPositions(items, id, updated);
  }

  /** The id of an item. */
  function ItemId(item: Item): int { item.id }

  /**
   * `prev.filter(item => item.id !== id)`: the items with another id, in
   * order; Seqs.WithoutAbsentKey and Seqs.WithoutKeyAt say what deleting
   * does to a list with and without the id.
   */
  function WithoutId(items: seq<Item>, id: int): (r: seq<Item>)
    ensures forall item :: item in r <==> item in items && item.id != id
    ensures |r| <= |items|
  {
    WithoutKey(items, ItemId, id)
  }

  /** A created item with a new id keeps the ids unique. */
  lemma AppendKeepsUnique(items: seq<Item>, created: Item)
    requires UniqueIds(items)
    requires forall k :: 0 <= k < |items| ==> items[k].id != created.id
    ensures UniqueIds(items + [created])
  {
    var r := items + [created];
    forall i, j | 0 <= i < j < |r| ensures r[i].id != r[j].id {
      assert r[i] == items[i];
      if j < |items| {
        assert r[j] == items[j];
      }
    }
  }

  /** The hook's state. */
  class ItemsState {
    var items: seq<Item>
    var loading: bool
    var error: Option<ErrorState>

    /** The initial state: nothing loaded yet, loading. */
    constructor ()
      ensures items == [] && loading && error.None?
    {
      items := [];
      loading := true;
      error := None;
    }

    /** fetchItems: the list replaced by the answer, or the error recorded. */
    method FetchItems(answer: Answer<seq<Item>>)
      modifies this
      ensures answer.Answered? ==> items == answer.value && error.None?
      ensures answer.Threw? ==> items == old(items) && error == Some(ErrorStateOf(answer.thrown))
      ensures !loading
    {
      error := None;
      loading := true;
      match answer {
        case Answered(data) =>
          items := data;
        case Threw(thrown) =>
          error := Some(ErrorStateOf(thrown));
      }
      loading := false;
    }

    /** createItem: the new item goes last; a failure is recorded and rethrown. */
    method CreateItem(answer: Answer<Item>) returns (r: Answer<Item>)
      modifies this
      ensures r == answer
      ensures answer.Answered? ==> items == old(items) + [answer.value] && error == old(error)
      ensures answer.Threw? ==> items == old(items) && error == Some(ErrorStateOf(answer.thrown))
      ensures loading == old(loading)
    {
      match answer {
        case Answered(newItem) =>
          items := items + [newItem];
        case Threw(thrown) =>
          error := Some(ErrorStateOf(thrown));
      }
      r := answer;
    }

    /** updateItem: the items with the id become the returned item; a failure is recorded and rethrown. */
    method UpdateItem(id: int, answer: Answer<Item>) returns (r: Answer<Item>)
      modifies this
      ensures r == answer
      ensures answer.Answered? ==> items == Replaced(old(items), id, answer.value) && error == old(error)
      ensures answer.Threw? ==> items == old(items) && error == Some(ErrorStateOf(answer.thrown))
      ensures loading == old(loading)
    {
      match answer {
        case Answered(updatedItem) =>
          items := Replaced(items, id, updatedItem);
        case Threw(thrown) =>
          error := Some(ErrorStateOf(thrown));
      }
      r := answer;
    }

    /** deleteItem: the items with the id leave the list; a failure is recorded and rethrown. */
    method DeleteItem(id: int, answer: Answer<()>) returns (r: Answer<()>)
      modifies this
      ensures r == answer
      ensures answer.Answered? ==> items == WithoutId(old(items), id) && error == old(error)
      ensures answer.Threw? ==> items == old(items) && error == Some(ErrorStateOf(answer.thrown))
      ensures loading == old(loading)
    {
      match answer {
        case Answered(_) =>
          items := WithoutId(items, id);
        case Threw(thrown) =>
          error := Some(ErrorStateOf(thrown));
      }
      r := answer;
    }
  }
}
