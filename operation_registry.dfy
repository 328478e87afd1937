/**
 * The registry of collection operations the frontend offers: a constant
 * table, the operations available with or without a collection, and a
 * lookup by id.
 */
module OperationRegistry {
  import opened Wrappers
  import opened Seqs

  /** An operation as the registry lists it. */
  datatype Operation = Operation(id: string, name: string, description: string, requiresCollection: bool)

  const SummarizeEach: Operation := Operation("summarize_each", "Summarize Each",
    "Generate individual summaries for each entity in the collection", true)
  const SummarizeGroup: Operation := Operation("summarize_group", "Summarize Group",
    "Generate a single summary for the entire collection", true)
  const GenerateRelationships: Operation := Operation("generate_relationships", "Generate Relationships",
    "Analyze relationships between entities in the collection", true)

  /** The registered operations, in declaration order. */
  const Operations: seq<Operation> := [SummarizeEach, SummarizeGroup, GenerateRelationships]

  /** Whether an operation can be offered. */
  function Offered(hasCollection: bool): Operation -> bool
  {
    (op: Operation) => !op.requiresCollection || hasCollection
  }

  /**
   * getAvailableOperations: exactly the registered operations that need no
   * collection or, when there is one, those that need it too.
   */
  function AvailableOperations(hasCollection: bool): (r: seq<Operation>)
    ensures forall op :: op in r <==> op in Operations && (!op.requiresCollection || hasCollection)
  {
    Filter(Operations, Offered(hasCollection))
  }

  /** Every registered operation needs a collection, so without one nothing is offered. */
  lemma NothingWithoutCollection()
    ensures AvailableOperations(false) == []
  {
    FilterNone(Operations, Offered(false));
  }

  /** With a collection every operation is offered, in declaration order. */
  lemma AllWithCollection()
    ensures AvailableOperations(true) == [SummarizeEach, SummarizeGroup, GenerateRelationships]
  {
    FilterKeepsAll(Operations, Offered(true));
  }

  /** `find(op => op.id === id)`: the first operation with the id, or undefined (None). */
  function FindById(ops: seq<Operation>, id: string): (r: Option<Operation>)
    ensures r.None? <==> forall k :: 0 <= k < |ops| ==> ops[k].id != id
    ensures r.Some? ==> r.value in ops && r.value.id == id
  {
    if ops == [] then None
    else if ops[0].id == id then Some(ops[0])
    else
      assert forall k :: 1 <= k < |ops| ==> ops[k] == ops[1..][k - 1];
      FindById(ops[1..], id)
  }

  /** getOperationById */
  function OperationById(id: string): Option<Operation>
  {
    FindById(Operations, id)
  }

  /** The registered ids are distinct. */
  lemma IdsDistinct()
    ensures forall i, j :: 0 <= i < j < |Operations| ==> Operations[i].id != Operations[j].id
  {
    assert SummarizeEach.id[10] == 'e' && SummarizeGroup.id[10] == 'g';
    assert SummarizeEach.id[0] != GenerateRelationships.id[0];
    assert SummarizeGroup.id[0] != GenerateRelationships.id[0];
  }

  /**
   * The lookup answers the one registered operation with that id, and
   * undefined exactly for an id no operation has.
   */
  lemma OperationByIdUnique(id: string)
    ensures OperationById(id).None? <==> forall op :: op in Operations ==> op.id != id
    ensures forall op :: op in Operations && op.id == id ==> OperationById(id) == Some(op)
  {
    IdsDistinct();
    var r := OperationById(id);
    if r.Some? {
      forall op | op in Operations && op.id == id ensures r == Some(op) {
        var i :| 0 <= i < |Operations| && Operations[i] == op;
        var j :| 0 <= j < |Operations| && Operations[j] == r.value;
        assert i == j;
      }
    }
  }

  /** Each registered operation is found by its own id. */
  lemma EachFoundById()
    ensures OperationById("summarize_each") == Some(SummarizeEach)
    ensures OperationById("summarize_group") == Some(SummarizeGroup)
    ensures OperationById("generate_relationships") == Some(GenerateRelationships)
  {
    OperationByIdUnique("summarize_each");
    OperationByIdUnique("summarize_group");
    OperationByIdUnique("generate_relationships");
  }
}
