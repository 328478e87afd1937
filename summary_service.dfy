/**
 * SummaryService: update and delete of a stored summary, the short record
 * it reports a summary with, and the detailed listing the graph views read.
 */
module SummaryService {
  import opened Wrappers
  import opened Text
  import opened Records
  import opened Persistence
  import opened Sorting
  import Seqs

  /** SummaryRecord: the short form of a summary. */
  datatype SimpleSummary = SimpleSummary(
    id: int,
    entityId: Option<int>,
    entityType: Option<string>,
    content: Option<string>,
    createdAt: Option<int>)

  /** toSimpleDto */
  function ToSimpleDto(s: Summary): SimpleSummary
  {
    SimpleSummary(s.id, s.entityId, s.entityType, s.content, s.createdAt)
  }

  /**
   * The short record keeps a summary's id, subject, content and creation
   * time and nothing else: two summaries give the same record exactly when
   * those five fields agree.
   */
  lemma SimpleDtoKeeps(a: Summary, b: Summary)
    ensures ToSimpleDto(a) == ToSimpleDto(b) <==>
      a.id == b.id && a.entityId == b.entityId && a.entityType == b.entityType
      && a.content == b.content && a.createdAt == b.createdAt
    ensures ToSimpleDto(a) == ToSimpleDto(a.(name := b.name, batchId := b.batchId,
      configuration := b.configuration, attributes := b.attributes))
  {
  }

  /** The exception update and delete raise for an unknown id. */
  function SummaryNotFound(id: int): Exception
  {
    ResourceNotFoundException("Summary not found with id " + IntToString(id))
  }

  /**
   * The row update saves: the incoming summary under the stored id, batch
   * and creation time, keeping the stored attributes when the incoming ones
   * are null.
   */
  function UpdatedSummary(existing: Summary, incoming: Summary): (r: Summary)
    ensures r == incoming.(id := existing.id, batchId := existing.batchId, createdAt := existing.createdAt,
      attributes := if incoming.attributes.Some? then incoming.attributes else existing.attributes)
  {
    var s := existing.(name := incoming.name);
    var s := if incoming.attributes.Some? then s.(attributes := incoming.attributes) else s;
    s.(entityId := incoming.entityId, entityType := incoming.entityType, content := incoming.content,
      configuration := incoming.configuration)
  }

  /**
   * update: an unknown id raises and saves nothing; otherwise the stored
   * summary takes the incoming fields and is saved over its old row, and
   * the short record of the saved row is returned.
   */
  method Update(incoming: Summary, summaries: Repository<Summary>) returns (r: Result<SimpleSummary>)
    requires summaries.Valid() && summaries.idOf == SummaryIdOf
    modifies summaries
    ensures summaries.Valid()
    ensures !HasId(old(summaries.rows), SummaryIdOf, incoming.id) ==>
      r == Err(SummaryNotFound(incoming.id)) && summaries.rows == old(summaries.rows)
    ensures HasId(old(summaries.rows), SummaryIdOf, incoming.id) ==>
      var row := UpdatedSummary(Find(old(summaries.rows), SummaryIdOf, incoming.id).value, incoming);
      match summaries.rejects(row)
      case Some(e) => r == Err(e) && summaries.rows == old(summaries.rows)
      case None => r == Ok(ToSimpleDto(row)) && summaries.rows == ReplaceById(old(summaries.rows), SummaryIdOf, row)
  {
    var found := summaries.FindById(incoming.id);
    if found.None? {
      return Err(SummaryNotFound(incoming.id));
    }
    var existing := found.value;
    existing := existing.(name := incoming.name);
    if incoming.attributes.Some? {
      existing := existing.(attributes := incoming.attributes);
    }
    existing := existing.(entityId := incoming.entityId);
    existing := existing.(entityType := incoming.entityType);
    existing := existing.(content := incoming.content);
    existing := existing.(configuration := incoming.configuration);
    var saved := summaries.Update(existing);
    if saved.Err? {
      return Err(saved.error);
    }
    r := Ok(ToSimpleDto(saved.value));
  }

  /**
   * What a successful update reports: the stored id and creation time with
   * the incoming subject and content.
   */
  lemma UpdateReportsIncoming(existing: Summary, incoming: Summary)
    ensures ToSimpleDto(UpdatedSummary(existing, incoming))
      == SimpleSummary(existing.id, incoming.entityId, incoming.entityType, incoming.content, existing.createdAt)
  {
  }

  /** delete: an unknown id raises and deletes nothing; otherwise exactly that summary's row goes. */
  method Delete(id: int, summaries: Repository<Summary>) returns (r: Result<()>)
    requires summaries.Valid() && summaries.idOf == SummaryIdOf
    modifies summaries
    ensures summaries.Valid()
    ensures !HasId(old(summaries.rows), SummaryIdOf, id) ==>
      r == Err(SummaryNotFound(id)) && summaries.rows == old(summaries.rows)
    ensures HasId(old(summaries.rows), SummaryIdOf, id) ==>
      && r == Ok(())
      && |summaries.rows| == |old(summaries.rows)| - 1
      && !HasId(summaries.rows, SummaryIdOf, id)
      && forall x :: x in summaries.rows <==> x in old(summaries.rows) && x.id != id
  {
    if !summaries.ExistsById(id) {
      return Err(SummaryNotFound(id));
    }
    WithoutCount(summaries.rows, SummaryIdOf, id);
    summaries.Delete(id);
    r := Ok(());
  }

  // ---------------------------------------------------------------------
  // The detailed listing (findAllDetailedSummaryRecords)
  // ---------------------------------------------------------------------

  /** DetailedSummaryRecord: a summary with its configuration and model. */
  datatype DetailedSummary = DetailedSummary(
    id: int,
    entityId: Option<int>,
    entityType: Option<string>,
    entityName: Option<string>,
    content: Option<string>,
    modelName: Option<string>,
    modelProvider: Option<string>,
    modelId: int,
    modelConfigurationId: int,
    modelConfig: Option<Json>,
    configComment: Option<string>,
    createdAt: Option<int>)

  /** The inner joins of findAllWithDetails keep the summaries with a configuration of a model. */
  predicate HasDetails(s: Summary)
  {
    s.configuration.Some? && s.configuration.value.model.Some?
  }

  /** ORDER BY createdAt DESC: newest first, a missing time first (PostgreSQL puts NULLs first when descending). */
  predicate NewerFirst(a: Summary, b: Summary)
  {
    a.createdAt.None? || (b.createdAt.Some? && a.createdAt.value >= b.createdAt.value)
  }

  lemma NewerFirstTotal()
    ensures Total(NewerFirst)
  {
  }

  /** toDetailedDto */
  function ToDetailedDto(s: Summary): DetailedSummary
    requires HasDetails(s)
  {
    var config := s.configuration.value;
    var model := config.model.value;
    DetailedSummary(s.id, s.entityId, s.entityType, s.name, s.content, model.modelName, model.modelProvider,
      model.id, config.id, config.modelConfig, config.comment, s.createdAt)
  }

  /** The summaries with details, newest first. */
  function DetailedRows(rows: seq<Summary>): (r: seq<Summary>)
    ensures forall i :: 0 <= i < |r| ==> HasDetails(r[i])
  {
    var r := SortBy(Seqs.Filter(rows, HasDetails), NewerFirst);
    assert forall i :: 0 <= i < |r| ==> r[i] in multiset(Seqs.Filter(rows, HasDetails));
    r
  }

  /** findAllDetailedSummaryRecords */
  function DetailedSummaries(rows: seq<Summary>): seq<DetailedSummary>
  {
    var d := DetailedRows(rows);
    seq(|d|, i requires 0 <= i < |d| => ToDetailedDto(d[i]))
  }

  /**
   * The detailed listing has one record per summary that has a
   * configuration of a model, newest first, and a record for no other
   * summary.
   */
  lemma DetailedSummariesListing(rows: seq<Summary>)
    ensures Ordered(DetailedRows(rows), NewerFirst)
    ensures |DetailedSummaries(rows)| == Seqs.Count(rows, HasDetails)
    ensures forall s :: s in rows && HasDetails(s) ==> ToDetailedDto(s) in DetailedSummaries(rows)
    ensures forall d :: d in DetailedSummaries(rows) ==> exists s :: s in rows && HasDetails(s) && d == ToDetailedDto(s)
  {
    DetailedRowsSorted(rows);
    DetailedCoversAll(rows);
    DetailedOnlyDetails(rows);
  }

  /** The detailed rows are the summaries with details, newest first. */
  lemma DetailedRowsSorted(rows: seq<Summary>)
    ensures Ordered(DetailedRows(rows), NewerFirst)
    ensures multiset(DetailedRows(rows)) == multiset(Seqs.Filter(rows, HasDetails))
    ensures |DetailedSummaries(rows)| == Seqs.Count(rows, HasDetails)
  {
    NewerFirstTotal();
    SortByOrdered(Seqs.Filter(rows, HasDetails), NewerFirst);
    Seqs.CountIsFilterLength(rows, HasDetails);
  }

  /** Every summary with details has its record in the listing. */
  lemma DetailedCoversAll(rows: seq<Summary>)
    ensures forall s :: s in rows && HasDetails(s) ==> ToDetailedDto(s) in DetailedSummaries(rows)
  {
    DetailedRowsSorted(rows);
    var r, d := DetailedRows(rows), DetailedSummaries(rows);
    forall s | s in rows && HasDetails(s) ensures ToDetailedDto(s) in d {
      assert s in multiset(r);
      var i :| 0 <= i < |r| && r[i] == s;
      assert d[i] == ToDetailedDto(s);
    }
  }

  /** Every record in the listing is that of a summary with details. */
  lemma DetailedOnlyDetails(rows: seq<Summary>)
    ensures forall d :: d in DetailedSummaries(rows) ==> exists s :: s in rows && HasDetails(s) && d == ToDetailedDto(s)
  {
    DetailedRowsSorted(rows);
    var r, d := DetailedRows(rows), DetailedSummaries(rows);
    forall x | x in d ensures exists s :: s in rows && HasDetails(s) && x == ToDetailedDto(s) {
      var i :| 0 <= i < |d| && d[i] == x;
      assert r[i] in multiset(Seqs.Filter(rows, HasDetails));
    }
  }
}
