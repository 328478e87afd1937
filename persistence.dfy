/**
 * The persistence layer the services rely on, reduced to what they use of a
 * JPA repository: a table of rows keyed by a generated id, with find, list,
 * insert, update and delete. A table keeps its rows in insertion order, which
 * is the order the listings return them in. A write may fail, as a database
 * write can; which rows the database refuses is the table's `rejects` function.
 */
module Persistence {
  import opened Wrappers
  import Seqs

  /** Some row of `rows` has id `id`. */
  predicate HasId<R>(rows: seq<R>, idOf: R -> int, id: int)
  {
    exists i :: 0 <= i < |rows| && idOf(rows[i]) == id
  }

  /** Ids strictly increase along the table, so no id occurs twice. */
  predicate IdsIncreasing<R>(rows: seq<R>, idOf: R -> int)
  {
    forall i, j :: 0 <= i < j < |rows| ==> idOf(rows[i]) < idOf(rows[j])
  }

  /** Every id in the table is below `bound`. */
  predicate IdsBelow<R>(rows: seq<R>, idOf: R -> int, bound: int)
  {
    forall i :: 0 <= i < |rows| ==> idOf(rows[i]) < bound
  }

  /** findById: the first row with the given id. */
  function Find<R>(rows: seq<R>, idOf: R -> int, id: int): (r: Option<R>)
    ensures r.Some? <==> HasId(rows, idOf, id)
    ensures r.Some? ==> r.value in rows && idOf(r.value) == id
  {
    if rows == [] then None
    else if idOf(rows[0]) == id then Some(rows[0])
    else
      var rest := Find(rows[1..], idOf, id);
      assert HasId(rows, idOf, id) ==> HasId(rows[1..], idOf, id) by {
        if HasId(rows, idOf, id) {
          var i :| 0 <= i < |rows| && idOf(rows[i]) == id;
          assert rows[1..][i - 1] == rows[i];
        }
      }
      assert HasId(rows[1..], idOf, id) ==> HasId(rows, idOf, id) by {
        if HasId(rows[1..], idOf, id) {
          var i :| 0 <= i < |rows[1..]| && idOf(rows[1..][i]) == id;
          assert rows[i + 1] == rows[1..][i];
        }
      }
      rest
  }

  /** On a table with distinct ids, finding a stored row's id gives that row back. */
  lemma FindStored<R>(rows: seq<R>, idOf: R -> int, x: R)
    requires IdsIncreasing(rows, idOf) && x in rows
    ensures Find(rows, idOf, idOf(x)) == Some(x)
  {
    var i :| 0 <= i < |rows| && rows[i] == x;
    assert idOf(rows[i]) == idOf(x);
    var j :| 0 <= j < |rows| && rows[j] == Find(rows, idOf, idOf(x)).value;
  }

  /** save of an existing entity: the row with the same id is replaced, everything else stays. */
  function ReplaceById<R>(rows: seq<R>, idOf: R -> int, row: R): (r: seq<R>)
    ensures |r| == |rows|
    ensures forall i :: 0 <= i < |rows| ==> idOf(r[i]) == idOf(rows[i])
    ensures forall i :: 0 <= i < |rows| && idOf(rows[i]) != idOf(row) ==> r[i] == rows[i]
    ensures forall i :: 0 <= i < |rows| && idOf(rows[i]) == idOf(row) ==> r[i] == row
  {
    seq(|rows|, i requires 0 <= i < |rows| => if idOf(rows[i]) == idOf(row) then row else rows[i])
  }

  /** On a table with distinct ids, saving over the row at k replaces that one element. */
  lemma ReplaceAt<R>(rows: seq<R>, idOf: R -> int, row: R, k: int)
    requires IdsIncreasing(rows, idOf) && 0 <= k < |rows| && idOf(rows[k]) == idOf(row)
    ensures ReplaceById(rows, idOf, row) == rows[k := row]
  {
    var r := ReplaceById(rows, idOf, row);
    forall i | 0 <= i < |rows| && i != k ensures r[i] == rows[i] {
      assert idOf(rows[i]) != idOf(rows[k]);
    }
  }

  /**
   * Saving over a stored row changes how many rows satisfy p only by what
   * the old and the new row contribute: the other rows keep their places.
   */
  lemma ReplaceCount<R(!new)>(rows: seq<R>, idOf: R -> int, row: R, p: R -> bool)
    requires IdsIncreasing(rows, idOf) && HasId(rows, idOf, idOf(row))
    ensures Seqs.Count(ReplaceById(rows, idOf, row), p) + (if p(Find(rows, idOf, idOf(row)).value) then 1 else 0)
      == Seqs.Count(rows, p) + (if p(row) then 1 else 0)
  {
    var found := Find(rows, idOf, idOf(row)).value;
    var k :| 0 <= k < |rows| && rows[k] == found;
    ReplaceCountAt(rows, idOf, row, p, k);
  }

  /** ReplaceCount for the row stored at k. */
  lemma ReplaceCountAt<R(!new)>(rows: seq<R>, idOf: R -> int, row: R, p: R -> bool, k: int)
    requires IdsIncreasing(rows, idOf) && 0 <= k < |rows| && idOf(rows[k]) == idOf(row)
    ensures Seqs.Count(ReplaceById(rows, idOf, row), p) + (if p(rows[k]) then 1 else 0)
      == Seqs.Count(rows, p) + (if p(row) then 1 else 0)
  {
    ReplaceAt(rows, idOf, row, k);
    Seqs.CountUpdate(rows, k, row, p);
  }

  /** deleteById: every row with the given id is dropped; the others keep their order. */
  function Without<R(==,!new)>(rows: seq<R>, idOf: R -> int, id: int): (r: seq<R>)
    ensures |r| <= |rows|
    ensures forall x :: x in r <==> x in rows && idOf(x) != id
  {
    if rows == [] then []
    else
      assert forall x :: x in rows <==> x == rows[0] || x in rows[1..];
      if idOf(rows[0]) == id then Without(rows[1..], idOf, id)
      else [rows[0]] + Without(rows[1..], idOf, id)
  }

  /** Deleting an id leaves no row with that id and no id that was not there. */
  lemma WithoutDropsId<R(!new)>(rows: seq<R>, idOf: R -> int, id: int, bound: int)
    requires IdsBelow(rows, idOf, bound)
    ensures !HasId(Without(rows, idOf, id), idOf, id)
    ensures IdsBelow(Without(rows, idOf, id), idOf, bound)
  {
    var r := Without(rows, idOf, id);
    forall j | 0 <= j < |r| ensures idOf(r[j]) < bound && idOf(r[j]) != id {
      assert r[j] in rows;
    }
  }

  /** Deleting from a table whose ids increase keeps them increasing. */
  lemma {:induction false} WithoutIncreasing<R(!new)>(rows: seq<R>, idOf: R -> int, id: int)
    requires IdsIncreasing(rows, idOf)
    ensures IdsIncreasing(Without(rows, idOf, id), idOf)
  {
    if rows != [] {
      var tail := rows[1..];
      WithoutIncreasing(tail, idOf, id);
      var r := Without(rows, idOf, id);
      if idOf(rows[0]) != id {
        forall j | 1 <= j < |r| ensures idOf(r[0]) < idOf(r[j]) {
          assert r[j] in tail;
          var k :| 0 <= k < |tail| && tail[k] == r[j];
          assert rows[k + 1] == r[j];
        }
      }
    }
  }

  /** A table has an id exactly when its first row or the rest has it. */
  lemma HasIdCons<R>(rows: seq<R>, idOf: R -> int, id: int)
    requires rows != []
    ensures HasId(rows, idOf, id) <==> idOf(rows[0]) == id || HasId(rows[1..], idOf, id)
  {
    var tail := rows[1..];
    if HasId(rows, idOf, id) && idOf(rows[0]) != id {
      var i :| 0 <= i < |rows| && idOf(rows[i]) == id;
      assert tail[i - 1] == rows[i];
    }
    if HasId(tail, idOf, id) {
      var i :| 0 <= i < |tail| && idOf(tail[i]) == id;
      assert rows[i + 1] == tail[i];
    }
  }

  /** In a table whose ids increase, the rest of the table has increasing ids, all above the first. */
  lemma IncreasingTail<R>(rows: seq<R>, idOf: R -> int, id: int)
    requires rows != [] && IdsIncreasing(rows, idOf)
    ensures IdsIncreasing(rows[1..], idOf)
    ensures HasId(rows[1..], idOf, id) ==> idOf(rows[0]) != id
  {
    var tail := rows[1..];
    forall i, j | 0 <= i < j < |tail| ensures idOf(tail[i]) < idOf(tail[j]) {
      assert tail[i] == rows[i + 1] && tail[j] == rows[j + 1];
    }
    if HasId(tail, idOf, id) {
      var i :| 0 <= i < |tail| && idOf(tail[i]) == id;
      assert idOf(rows[0]) < idOf(rows[i + 1]);
    }
  }

  /** On a table with distinct ids, deleting a present id removes one row; an absent id removes none. */
  lemma {:induction false} WithoutCount<R(!new)>(rows: seq<R>, idOf: R -> int, id: int)
    requires IdsIncreasing(rows, idOf)
    ensures HasId(rows, idOf, id) ==> |Without(rows, idOf, id)| == |rows| - 1
    ensures !HasId(rows, idOf, id) ==> Without(rows, idOf, id) == rows
  {
    if rows != [] {
      var tail := rows[1..];
      IncreasingTail(rows, idOf, id);
      WithoutCount(tail, idOf, id);
      HasIdCons(rows, idOf, id);
      if !HasId(rows, idOf, id) {
        assert rows == [rows[0]] + tail;
      }
    }
  }

  /**
   * A table of rows of type R. `idOf` reads a row's id and `withId` stamps a
   * draft with the id the database generates; `rejects` says which writes the
   * database refuses, and with what exception.
   */
  class Repository<R(==,!new)> {
    var rows: seq<R>
    var nextId: int
    const idOf: R -> int
    const withId: (R, int) -> R
    const rejects: R -> Option<Exception>

    ghost predicate Valid()
      reads this
    {
      IdsIncreasing(rows, idOf) && IdsBelow(rows, idOf, nextId)
      && forall r: R, n: int :: idOf(withId(r, n)) == n
    }

    constructor (idOf: R -> int, withId: (R, int) -> R, rejects: R -> Option<Exception>, firstId: int)
      requires forall r: R, n: int :: idOf(withId(r, n)) == n
      ensures Valid() && rows == [] && nextId == firstId
      ensures this.idOf == idOf && this.withId == withId && this.rejects == rejects
    {
      this.idOf, this.withId, this.rejects := idOf, withId, rejects;
      rows, nextId := [], firstId;
    }

    /** findById */
    function FindById(id: int): (r: Option<R>)
      reads this
      ensures r.Some? <==> HasId(rows, idOf, id)
      ensures r.Some? ==> r.value in rows && idOf(r.value) == id
    {
      Find(rows, idOf, id)
    }

    /** existsById */
    predicate ExistsById(id: int)
      reads this
    {
      HasId(rows, idOf, id)
    }

    /**
     * save of a new entity: the database stamps the draft with a fresh id and
     * appends it, unless it refuses the write, in which case nothing changes.
     */
    method Insert(draft: R) returns (r: Result<int>)
      requires Valid()
      modifies this`rows, this`nextId
      ensures Valid()
      ensures var row := withId(draft, old(nextId));
        match rejects(row)
        case Some(e) => r == Err(e) && rows == old(rows) && nextId == old(nextId)
        case None => r == Ok(old(nextId)) && rows == old(rows) + [row] && nextId == old(nextId) + 1
      ensures r.Ok? ==> !HasId(old(rows), idOf, r.value) && idOf(rows[|rows| - 1]) == r.value
      ensures nextId >= old(nextId)
    {
      var row := withId(draft, nextId);
      match rejects(row)
      case Some(e) =>
        r := Err(e);
      case None =>
        rows := rows + [row];
        r := Ok(nextId);
        nextId := nextId + 1;
    }

    /**
     * save of an entity that is already stored: its row is overwritten in
     * place, unless the database refuses the write.
     */
    method Update(row: R) returns (r: Result<R>)
      requires Valid() && HasId(rows, idOf, idOf(row))
      modifies this`rows
      ensures Valid()
      ensures match rejects(row)
        case Some(e) => r == Err(e) && rows == old(rows)
        case None => r == Ok(row) && rows == ReplaceById(old(rows), idOf, row)
    {
      match rejects(row)
      case Some(e) =>
        r := Err(e);
      case None =>
        rows := ReplaceById(rows, idOf, row);
        r := Ok(row);
    }

    /**
     * Rollback of the surrounding transaction: the rows written since
     * `saved` was read are discarded. The id sequence is not rolled back,
     * as a database sequence is not.
     */
    method Rollback(saved: seq<R>)
      requires Valid() && IdsIncreasing(saved, idOf) && IdsBelow(saved, idOf, nextId)
      modifies this`rows
      ensures Valid() && rows == saved
    {
      rows := saved;
    }

    /** deleteById */
    method Delete(id: int)
      requires Valid()
      modifies this`rows
      ensures Valid()
      ensures rows == Without(old(rows), idOf, id)
    {
      WithoutDropsId(rows, idOf, id, nextId);
      WithoutIncreasing(rows, idOf, id);
      rows := Without(rows, idOf, id);
    }
  }
}
