/**
 * ItemService: the item table's update and delete, and the listings of the
 * items of one type, ordered by name.
 */
module ItemService {
  import opened Wrappers
  import opened Text
  import opened Persistence
  import opened ItemEntity
  import opened Sorting
  import Seqs

  /** ORDER BY name: ascending by code point, a missing name last (PostgreSQL puts NULLs last). */
  predicate NameOrder(a: ItemRecord, b: ItemRecord)
  {
    b.name.None? || (a.name.Some? && LexLeq(a.name.value, b.name.value))
  }

  lemma NameOrderTotal()
    ensures Total(NameOrder)
  {
    forall a: ItemRecord, b: ItemRecord ensures NameOrder(a, b) || NameOrder(b, a) {
      if a.name.Some? && b.name.Some? {
        LexLeqTotal(a.name.value, b.name.value);
      }
    }
  }

  /** getItemsByType (findByItemTypeOrderByName). */
  function ItemsByType(rows: seq<ItemRecord>, itemType: string): seq<ItemRecord>
  {
    SortBy(Seqs.Filter(rows, (x: ItemRecord) => x.itemType == itemType), NameOrder)
  }

  /**
   * The listing of a type holds every item of that type and nothing else,
   * each as often as in the table, ordered by name.
   */
  lemma ItemsByTypeListing(rows: seq<ItemRecord>, itemType: string)
    ensures var r := ItemsByType(rows, itemType);
      && Ordered(r, NameOrder)
      && (forall x :: x in r <==> x in rows && x.itemType == itemType)
      && |r| == Seqs.Count(rows, (x: ItemRecord) => x.itemType == itemType)
  {
    var p := (x: ItemRecord) => x.itemType == itemType;
    NameOrderTotal();
    SortByOrdered(Seqs.Filter(rows, p), NameOrder);
    Seqs.CountIsFilterLength(rows, p);
  }

  /** The item types with a convenience listing. */
  datatype ItemKind = Books | RankedBooks | People | Movies | Papers

  /** The type literal each convenience listing passes to getItemsByType. */
  function KindType(kind: ItemKind): string
  {
    match kind
    case Books => "book"
    case RankedBooks => "ranked_book"
    case People => "person"
    case Movies => "movie"
    case Papers => "academic_paper"
  }

  /** getAllBooks, getAllRankedBooks, getAllPeople, getAllMovies, getAllPapers. */
  function ItemsOfKind(rows: seq<ItemRecord>, kind: ItemKind): seq<ItemRecord>
  {
    ItemsByType(rows, KindType(kind))
  }

  /**
   * A convenience listing holds exactly the items whose type is its
   * literal, by name; the listings of two different kinds share no item.
   */
  lemma KindListings(rows: seq<ItemRecord>, kind: ItemKind, other: ItemKind)
    ensures Ordered(ItemsOfKind(rows, kind), NameOrder)
    ensures forall x :: x in ItemsOfKind(rows, kind) <==> x in rows && x.itemType == KindType(kind)
    ensures kind != other ==> forall x :: !(x in ItemsOfKind(rows, kind) && x in ItemsOfKind(rows, other))
  {
    ItemsByTypeListing(rows, KindType(kind));
    ItemsByTypeListing(rows, KindType(other));
  }

  /** The exception updateItem and deleteItem raise for an unknown id. */
  function ItemNotFound(id: int): Exception
  {
    RuntimeException("Item not found with id: " + IntToString(id))
  }

  /**
   * The row updateItem saves: the incoming item's name, description,
   * creator, year, external id, source and attributes, under the stored
   * item's id and type.
   */
  function UpdatedItem(existing: ItemRecord, updated: ItemRecord): (r: ItemRecord)
    ensures r == updated.(id := existing.id, itemType := existing.itemType)
  {
    existing.(name := updated.name, description := updated.description, creator := updated.creator,
      createdYear := updated.createdYear, externalId := updated.externalId, source := updated.source,
      attributes := updated.attributes)
  }

  /**
   * updateItem: an unknown id raises and saves nothing; otherwise the
   * stored item takes the incoming fields, keeps its id and type, and is
   * saved over its old row.
   */
  method UpdateItem(id: int, updated: ItemRecord, items: Repository<ItemRecord>) returns (r: Result<ItemRecord>)
    requires items.Valid() && items.idOf == ItemIdOf
    modifies items
    ensures items.Valid()
    ensures !HasId(old(items.rows), ItemIdOf, id) ==> r == Err(ItemNotFound(id)) && items.rows == old(items.rows)
    ensures HasId(old(items.rows), ItemIdOf, id) ==>
      var row := UpdatedItem(Find(old(items.rows), ItemIdOf, id).value, updated);
      match items.rejects(row)
      case Some(e) => r == Err(e) && items.rows == old(items.rows)
      case None => r == Ok(row) && items.rows == ReplaceById(old(items.rows), ItemIdOf, row)
  {
    var found := items.FindById(id);
    if found.None? {
      return Err(ItemNotFound(id));
    }
    var item := new Item.Load(found.value);
    item.name := updated.name;
    item.description := updated.description;
    item.creator := updated.creator;
    item.createdYear := updated.createdYear;
    item.externalId := updated.externalId;
    item.source := updated.source;
    item.attributes := updated.attributes;
    assert item.Record() == UpdatedItem(found.value, updated);
    r := items.Update(item.Record());
  }

  /** A successful update leaves one row with the id, holding the new fields, and the other rows as they were. */
  lemma UpdatedRowInPlace(rows: seq<ItemRecord>, id: int, updated: ItemRecord)
    requires HasId(rows, ItemIdOf, id) && IdsIncreasing(rows, ItemIdOf)
    ensures var row := UpdatedItem(Find(rows, ItemIdOf, id).value, updated);
      var rows' := ReplaceById(rows, ItemIdOf, row);
      && |rows'| == |rows|
      && Find(rows', ItemIdOf, id) == Some(row)
      && forall x :: x in rows && x.id != id ==> x in rows'
  {
    var row := UpdatedItem(Find(rows, ItemIdOf, id).value, updated);
    var rows' := ReplaceById(rows, ItemIdOf, row);
    var k :| 0 <= k < |rows| && rows[k].id == id;
    assert rows'[k] == row;
    assert Find(rows', ItemIdOf, id).Some?;
    var j :| 0 <= j < |rows'| && rows'[j] == Find(rows', ItemIdOf, id).value;
    forall x | x in rows && x.id != id ensures x in rows' {
      var i :| 0 <= i < |rows| && rows[i] == x;
      assert rows'[i] == x;
    }
  }

  /** deleteItem: an unknown id raises and deletes nothing; otherwise exactly that item's row goes. */
  method DeleteItem(id: int, items: Repository<ItemRecord>) returns (r: Result<()>)
    requires items.Valid() && items.idOf == ItemIdOf
    modifies items
    ensures items.Valid()
    ensures !HasId(old(items.rows), ItemIdOf, id) ==> r == Err(ItemNotFound(id)) && items.rows == old(items.rows)
    ensures HasId(old(items.rows), ItemIdOf, id) ==>
      && r == Ok(())
      && |items.rows| == |old(items.rows)| - 1
      && !HasId(items.rows, ItemIdOf, id)
      && forall x :: x in items.rows <==> x in old(items.rows) && x.id != id
  {
    if !items.ExistsById(id) {
      return Err(ItemNotFound(id));
    }
    WithoutCount(items.rows, ItemIdOf, id);
    items.Delete(id);
    r := Ok(());
  }
}
