/**
 * AsyncItemSummaryService: choose a set of items, resolve one model
 * configuration, run one summarisation task per item, and fold the task
 * outcomes into a BatchSummaryResponse. The tasks run concurrently in the
 * service but every future is joined before the fold and no task reads
 * another's output, so the model runs them one after another in item order.
 */
module ItemBatch {
  import opened Wrappers
  import opened Text
  import opened Records
  import opened Persistence
  import opened AiService
  import opened ItemEntity
  import opened ItemProcessor
  import opened ModelService
  import Seqs

  datatype BatchSummaryResponse = BatchSummaryResponse(
    successCount: int,
    failureCount: int,
    summaryIds: seq<Option<int>>,
    message: string)

  /** The response to a batch that resolved to no items. */
  const NoItemsResponse: BatchSummaryResponse := BatchSummaryResponse(0, 0, [], "No items to process")

  /** The system prompt used when the caller gives none (the text block, indentation stripped). */
  const DefaultSystemPrompt: string :=
    "You " + "are analyzing an item from a collection. The item details will be provided as JSON.\n"
    + "Please provide a concise, informative summary of this item focusing on its key\n"
    + "characteristics, significance, and notable features. Keep the summary to 2-3 sentences\n"
    + "and make it suitable for comparative analysis with other items.\n"
    + "\n"
    + "For books: focus on genre, themes, and literary significance.\n"
    + "For people: focus on their role, achievements, and historical importance.\n"
    + "For other items: focus on their primary characteristics and relevance.\n"

  /**
   * buildSystemPrompt: a caller prompt with a non-space character is used
   * verbatim; a null or whitespace-only one falls back to the default. Either
   * way the system prompt is never blank.
   */
  function BuildSystemPrompt(prompt: Option<string>): (systemPrompt: string)
    ensures prompt.Some? && !IsBlank(prompt.value) ==> systemPrompt == prompt.value
    ensures prompt.None? || IsBlank(prompt.value) ==> systemPrompt == DefaultSystemPrompt
    ensures !IsBlank(systemPrompt)
  {
    if prompt.Some? && !IsBlank(prompt.value) then prompt.value
    else
      assert DefaultSystemPrompt[0] == 'Y';
      DefaultSystemPrompt
  }

  /**
   * generateSummariesForAllItems' selection: every stored item when the
   * type list is null or empty, otherwise the stored items whose type is
   * listed, in table order.
   */
  function SelectAllItems(rows: seq<ItemRecord>, itemTypes: Option<seq<string>>): (items: seq<ItemRecord>)
    ensures itemTypes.None? || itemTypes.value == [] ==> items == rows
    ensures itemTypes.Some? && itemTypes.value != [] ==>
      forall x :: x in items <==> x in rows && x.itemType in itemTypes.value
  {
    if itemTypes.None? || itemTypes.value == [] then rows
    else Seqs.Filter(rows, (x: ItemRecord) => x.itemType in itemTypes.value)
  }

  /**
   * findAllById: the stored items whose id is requested, in table order;
   * a requested id that is not stored contributes nothing.
   */
  function FindAllById(rows: seq<ItemRecord>, ids: seq<int>): (items: seq<ItemRecord>)
    ensures forall x :: x in items <==> x in rows && x.id in ids
    ensures forall id :: id in ids && !HasId(rows, ItemIdOf, id) ==> forall x :: x in items ==> x.id != id
  {
    Seqs.Filter(rows, (x: ItemRecord) => x.id in ids)
  }

  /** The source ids of the collection's member relationships, in relationship order. */
  function MemberItemIds(rels: seq<Relationship>, collectionId: int): (ids: seq<int>)
    ensures |ids| == |CollectionMembers(rels, collectionId)|
    ensures forall i :: 0 <= i < |ids| ==> ids[i] == CollectionMembers(rels, collectionId)[i].sourceId
  {
    var members := CollectionMembers(rels, collectionId);
    seq(|members|, i requires 0 <= i < |members| => members[i].sourceId)
  }

  /** generateSummariesForCollection's selection: the stored items some member relationship starts at. */
  function SelectCollectionItems(rows: seq<ItemRecord>, rels: seq<Relationship>, collectionId: int)
    : seq<ItemRecord>
  {
    FindAllById(rows, MemberItemIds(rels, collectionId))
  }

  /**
   * An item is selected for a collection exactly when it is stored and a
   * 'collection' relationship from it targets the collection; members whose
   * item is not stored are dropped.
   */
  lemma SelectCollectionItemsMembers(rows: seq<ItemRecord>, rels: seq<Relationship>, collectionId: int)
    ensures forall x :: x in SelectCollectionItems(rows, rels, collectionId) <==>
      x in rows && exists r :: r in rels && TargetsCollection(r, collectionId, "collection") && r.sourceId == x.id
  {
    var members := CollectionMembers(rels, collectionId);
    var ids := MemberItemIds(rels, collectionId);
    forall x ensures x in SelectCollectionItems(rows, rels, collectionId) <==>
      x in rows && exists r :: r in rels && TargetsCollection(r, collectionId, "collection") && r.sourceId == x.id
    {
      if x.id in ids {
        var i :| 0 <= i < |ids| && ids[i] == x.id;
        assert members[i] in members;
      }
      if exists r :: r in rels && TargetsCollection(r, collectionId, "collection") && r.sourceId == x.id {
        var r :| r in rels && TargetsCollection(r, collectionId, "collection") && r.sourceId == x.id;
        assert r in members;
        var i :| 0 <= i < |members| && members[i] == r;
        assert ids[i] == x.id;
      }
    }
  }

  /** Every item id is a Java long (as every stored id is). */
  predicate LongIds(items: seq<ItemRecord>)
  {
    forall k :: 0 <= k < |items| ==> IsLong(items[k].id)
  }

  predicate Succeeded(r: ProcessingResult) { r.success }

  /** The outcomes of the successful tasks, in item order. */
  function Successful(results: seq<ProcessingResult>): (succeeded: seq<ProcessingResult>)
    ensures |succeeded| == SuccessCount(results)
    ensures forall r :: r in succeeded <==> r in results && r.success
  {
    Seqs.CountIsFilterLength(results, Succeeded);
    Seqs.Filter(results, Succeeded)
  }

  /** The number of successful tasks: the sum of 1 per success and 0 per failure. */
  function SuccessCount(results: seq<ProcessingResult>): nat
  {
    Seqs.Count(results, Succeeded)
  }

  /** The summary ids of the successful outcomes, in item order. */
  function SummaryIdsOf(results: seq<ProcessingResult>): (ids: seq<Option<int>>)
    ensures |ids| == SuccessCount(results)
    ensures forall j :: 0 <= j < |ids| ==> ids[j] == Successful(results)[j].summaryId
  {
    var succeeded := Successful(results);
    seq(|succeeded|, j requires 0 <= j < |succeeded| => succeeded[j].summaryId)
  }

  /** processItems' fold of the outcomes into the response. */
  function Aggregate(results: seq<ProcessingResult>): BatchSummaryResponse
  {
    var successCount := SuccessCount(results);
    var failureCount := |results| - successCount;
    BatchSummaryResponse(successCount, failureCount, SummaryIdsOf(results),
      "Processed " + NatToString(|results|) + " items: " + NatToString(successCount)
      + " succeeded, " + IntToString(failureCount) + " failed")
  }

  /**
   * Every outcome is counted once: the counts are non-negative and add up
   * to the number of tasks, there is one summary id per success, and the
   * message reports N = S + F. When every successful outcome carries its
   * summary id, no id in the response is null.
   */
  lemma AggregateCounts(results: seq<ProcessingResult>)
    ensures var r := Aggregate(results);
      && 0 <= r.successCount <= |results| && 0 <= r.failureCount
      && r.successCount + r.failureCount == |results|
      && |r.summaryIds| == r.successCount
      && r.message == "Processed " + NatToString(r.successCount + r.failureCount) + " items: "
        + NatToString(r.successCount) + " succeeded, " + NatToString(r.failureCount) + " failed"
    ensures (forall k :: 0 <= k < |results| ==> results[k].success ==> results[k].summaryId.Some?) ==>
      forall j :: 0 <= j < |Aggregate(results).summaryIds| ==> Aggregate(results).summaryIds[j].Some?
  {
  }

  /** Appending one outcome appends its summary id exactly when it succeeded. */
  lemma {:induction false} SuccessfulSnoc(results: seq<ProcessingResult>, r: ProcessingResult)
    ensures Successful(results + [r]) == Successful(results) + (if r.success then [r] else [])
    ensures SuccessCount(results + [r]) == SuccessCount(results) + (if r.success then 1 else 0)
  {
    Seqs.FilterAppend(results, [r], Succeeded);
    assert Seqs.Filter([r], Succeeded) == if r.success then [r] else [];
    Seqs.CountAppend(results, [r], Succeeded);
  }

  /** The fold of two outcomes that both saved their summary: 2 succeeded, 0 failed. */
  lemma TwoSuccessesAggregate(a: int, b: int, idA: int, idB: int)
    ensures Aggregate([ProcessingResult(true, a, Some(idA), None), ProcessingResult(true, b, Some(idB), None)])
      == BatchSummaryResponse(2, 0, [Some(idA), Some(idB)], "Processed " + "2" + " items: " + "2" + " succeeded, " + "0" + " failed")
  {
    var first, second := ProcessingResult(true, a, Some(idA), None), ProcessingResult(true, b, Some(idB), None);
    FoldOfTwo(first, second);
    SmallNumerals();
  }

  /** The fold of a failed outcome then a successful one: 1 succeeded, 1 failed, one summary id. */
  lemma FailureThenSuccessAggregate(a: int, b: int, idB: int, e: Exception)
    ensures Aggregate([ProcessingResult(false, a, None, Some(e)), ProcessingResult(true, b, Some(idB), None)])
      == BatchSummaryResponse(1, 1, [Some(idB)], "Processed " + "2" + " items: " + "1" + " succeeded, " + "1" + " failed")
  {
    var first, second := ProcessingResult(false, a, None, Some(e)), ProcessingResult(true, b, Some(idB), None);
    FoldOfTwo(first, second);
    SmallNumerals();
  }

  /** The successful outcomes among two, in order. */
  lemma FoldOfTwo(first: ProcessingResult, second: ProcessingResult)
    ensures Successful([first, second]) == (if first.success then [first] else []) + (if second.success then [second] else [])
    ensures SuccessCount([first, second]) == (if first.success then 1 else 0) + (if second.success then 1 else 0)
  {
    SuccessfulSnoc([], first);
    assert [] + [first] == [first];
    SuccessfulSnoc([first], second);
    assert [first] + [second] == [first, second];
  }

  /** The renderings of the small counts a two-item batch reports. */
  lemma SmallNumerals()
    ensures NatToString(2) == "2" && NatToString(1) == "1" && IntToString(1) == "1" && IntToString(0) == "0"
  {
  }

  /**
   * What running the tasks for `items` did, between the chat log `requests0`
   * and `requests` and the summary table `rows0` and `rows`: one outcome per
   * item, one chat request per item, and one new summary per success.
   * TasksFit adds what each outcome was decided by.
   */
  ghost predicate TasksRan(items: seq<ItemRecord>, systemPrompt: string, config: ModelConfiguration,
                           batchId: int, writer: JsonWriter, requests0: seq<ChatRequest>, requests: seq<ChatRequest>,
                           rows0: seq<Summary>, rows: seq<Summary>, results: seq<ProcessingResult>)
    requires LongIds(items)
  {
    && OutcomesFor(items, results)
    && RequestsFor(items, systemPrompt, writer, requests0, requests)
    && SavedRows(results, config, batchId, rows0, rows)
  }

  /** The id the table gives next after the tasks with these outcomes: one more per success. */
  function NextAfter(next0: int, results: seq<ProcessingResult>): int
  {
    if results == [] then next0
    else
      var n := |results| - 1;
      NextAfter(next0, results[..n]) + if results[n].success then 1 else 0
  }

  /** The table has moved on by exactly the number of successes. */
  lemma {:induction false} NextAfterCounts(next0: int, results: seq<ProcessingResult>)
    ensures NextAfter(next0, results) == next0 + SuccessCount(results)
  {
    if results != [] {
      var n := |results| - 1;
      NextAfterCounts(next0, results[..n]);
      assert results[..n] + [results[n]] == results;
      SuccessfulSnoc(results[..n], results[n]);
    }
  }

  /**
   * The id the table was to give each task's row: `next0` for the first
   * task, then one more after every success, since a refused row takes no id.
   */
  function Attempts(next0: int, results: seq<ProcessingResult>): (attempts: seq<int>)
    ensures |attempts| == |results|
  {
    if results == [] then []
    else
      var n := |results| - 1;
      Attempts(next0, results[..n]) + [NextAfter(next0, results[..n])]
  }

  /**
   * Every task fits the reply to its own request and the table: task k got
   * reply k, the table was to give its row the id Attempts(next0, results)[k],
   * and that row, on success, stands as many places after `rows0` as the
   * table had handed out ids before it.
   */
  ghost predicate TasksFit(items: seq<ItemRecord>, results: seq<ProcessingResult>, config: ModelConfiguration,
                           batchId: int, respond: (nat, ChatRequest) -> Reply, rejects: Summary -> Option<Exception>,
                           next0: int, requests0: seq<ChatRequest>, requests: seq<ChatRequest>,
                           rows0: seq<Summary>, rows: seq<Summary>)
  {
    var attempts := Attempts(next0, results);
    && |results| == |items| && |requests0| + |items| <= |requests|
    && var replies := Replies(respond, requests, |requests0|);
       forall k {:trigger results[k]} :: 0 <= k < |items| ==>
         TaskFits(items[k], results[k], replies[k], rejects, attempts[k], config, batchId, rows,
           |rows0| + (attempts[k] - next0))
  }

  /** One well-formed outcome per item, in item order. */
  ghost predicate OutcomesFor(items: seq<ItemRecord>, results: seq<ProcessingResult>)
  {
    && |results| == |items|
    && forall k :: 0 <= k < |items| ==>
         results[k].itemId == items[k].id
         && (results[k].success <==> results[k].summaryId.Some?)
         && (results[k].success <==> results[k].error.None?)
  }

  /**
   * One chat request per item appended to the log, in item order, all with
   * the same system prompt and each with its item's info as user prompt.
   */
  ghost predicate RequestsFor(items: seq<ItemRecord>, systemPrompt: string, writer: JsonWriter,
                              requests0: seq<ChatRequest>, requests: seq<ChatRequest>)
    requires LongIds(items)
    decreases |items|
  {
    && |requests| == |requests0| + |items|
    && requests[..|requests0|] == requests0
    && (items != [] ==>
          var n := |items| - 1;
          && RequestsFor(items[..n], systemPrompt, writer, requests0, requests[..|requests| - 1])
          && RequestFor(requests[|requests| - 1], items[n], systemPrompt, writer))
  }

  /** Request |requests0| + k is the one task k sent. */
  lemma {:induction false} RequestAt(items: seq<ItemRecord>, systemPrompt: string, writer: JsonWriter,
                                     requests0: seq<ChatRequest>, requests: seq<ChatRequest>, k: nat)
    requires LongIds(items) && RequestsFor(items, systemPrompt, writer, requests0, requests)
    requires k < |items|
    ensures RequestFor(requests[|requests0| + k], items[k], systemPrompt, writer)
    decreases |items|
  {
    var n := |items| - 1;
    if k < n {
      RequestAt(items[..n], systemPrompt, writer, requests0, requests[..|requests| - 1], k);
    }
  }

  /** The request a task sends: the batch's system prompt, and its item's info as user prompt. */
  ghost predicate RequestFor(request: ChatRequest, item: ItemRecord, systemPrompt: string, writer: JsonWriter)
    requires IsLong(item.id)
  {
    request.systemPrompt == Some(systemPrompt) && request.userPrompt == ItemInfo(item, writer)
  }

  /**
   * One summary appended per successful outcome, in order, each carrying
   * the batch id and configuration shared by the whole batch and the item
   * id of its task, and each the summary whose id that task reports.
   */
  ghost predicate SavedRows(results: seq<ProcessingResult>, config: ModelConfiguration, batchId: int,
                            rows0: seq<Summary>, rows: seq<Summary>)
  {
    var succeeded := Successful(results);
    && |rows0| <= |rows| && |rows| - |rows0| == |succeeded|
    && rows[..|rows0|] == rows0
    && forall j :: 0 <= j < |succeeded| ==> SavedFor(rows[|rows0| + j], succeeded[j], config, batchId)
  }

  /** The row a successful task saved: its batch, its configuration, its item, and the id the task reports. */
  ghost predicate SavedFor(row: Summary, outcome: ProcessingResult, config: ModelConfiguration, batchId: int)
  {
    && row.batchId == Some(batchId) && row.configuration == Some(config)
    && row.entityId == Some(outcome.itemId) && outcome.summaryId == Some(row.id)
  }

  lemma {:induction false} OutcomesStep(items: seq<ItemRecord>, item: ItemRecord, results: seq<ProcessingResult>, outcome: ProcessingResult)
    requires OutcomesFor(items, results)
    requires outcome.itemId == item.id
    requires (outcome.success <==> outcome.summaryId.Some?) && (outcome.success <==> outcome.error.None?)
    ensures OutcomesFor(items + [item], results + [outcome])
  {
    var items', results' := items + [item], results + [outcome];
    assert forall k :: 0 <= k < |items| ==> items'[k] == items[k] && results'[k] == results[k];
  }

  lemma {:induction false} RequestsStep(items: seq<ItemRecord>, item: ItemRecord, systemPrompt: string,
                                        writer: JsonWriter, requests0: seq<ChatRequest>,
                                        requests: seq<ChatRequest>, requests': seq<ChatRequest>)
    requires LongIds(items) && IsLong(item.id)
    requires RequestsFor(items, systemPrompt, writer, requests0, requests)
    requires |requests'| == |requests| + 1 && requests'[..|requests|] == requests
    requires RequestFor(requests'[|requests|], item, systemPrompt, writer)
    ensures LongIds(items + [item])
    ensures RequestsFor(items + [item], systemPrompt, writer, requests0, requests')
  {
    var items' := items + [item];
    assert items'[..|items|] == items && items'[|items|] == item;
    assert requests'[..|requests0|] == requests[..|requests0|];
  }

  /** One more task, as ProcessItemAsync reports it, keeps TasksRan. */
  lemma {:induction false} TaskStep(items: seq<ItemRecord>, k: nat, systemPrompt: string,
                                    config: ModelConfiguration, batchId: int, writer: JsonWriter,
                                    requests0: seq<ChatRequest>, requests: seq<ChatRequest>,
                                    requests': seq<ChatRequest>, rows0: seq<Summary>, rows: seq<Summary>,
                                    rows': seq<Summary>, results: seq<ProcessingResult>, outcome: ProcessingResult)
    requires k < |items| && LongIds(items)
    requires TasksRan(items[..k], systemPrompt, config, batchId, writer, requests0, requests, rows0, rows, results)
    requires outcome.itemId == items[k].id
    requires (outcome.success <==> outcome.summaryId.Some?) && (outcome.success <==> outcome.error.None?)
    requires |requests'| == |requests| + 1 && requests'[..|requests|] == requests
    requires RequestFor(requests'[|requests|], items[k], systemPrompt, writer)
    requires outcome.success ==>
      |rows'| == |rows| + 1 && rows'[..|rows|] == rows && SavedFor(rows'[|rows|], outcome, config, batchId)
    requires !outcome.success ==> rows' == rows
    ensures TasksRan(items[..k + 1], systemPrompt, config, batchId, writer, requests0, requests', rows0, rows',
      results + [outcome])
  {
    assert items[..k + 1] == items[..k] + [items[k]];
    OutcomesStep(items[..k], items[k], results, outcome);
    RequestsStep(items[..k], items[k], systemPrompt, writer, requests0, requests, requests');
    SavedStep(results, outcome, config, batchId, rows0, rows, rows');
  }

  /** A task keeps fitting when rows are only appended to the table. */
  lemma TaskFitsGrown(item: ItemRecord, outcome: ProcessingResult, reply: Reply, rejects: Summary -> Option<Exception>,
                      attempt: int, config: ModelConfiguration, batchId: int,
                      rows: seq<Summary>, rows': seq<Summary>, at: int)
    requires TaskFits(item, outcome, reply, rejects, attempt, config, batchId, rows, at)
    requires |rows| <= |rows'| && rows'[..|rows|] == rows
    ensures TaskFits(item, outcome, reply, rejects, attempt, config, batchId, rows', at)
  {
    if outcome.success {
      assert rows'[at] == rows'[..|rows|][at];
    }
  }

  /** The attempt of one more task is the id the table gives after the earlier ones. */
  lemma AttemptsSnoc(next0: int, results: seq<ProcessingResult>, outcome: ProcessingResult)
    ensures Attempts(next0, results + [outcome]) == Attempts(next0, results) + [NextAfter(next0, results)]
    ensures NextAfter(next0, results + [outcome]) == NextAfter(next0, results) + if outcome.success then 1 else 0
  {
    assert (results + [outcome])[..|results|] == results;
  }

  /**
   * One more task that fits its reply and the table keeps TasksFit, when its
   * attempt is the id the table gives after the earlier outcomes and its row
   * lands right after theirs; earlier rows stay where they were.
   */
  lemma {:induction false} FitsStep(items: seq<ItemRecord>, k: nat, results: seq<ProcessingResult>,
                                    outcome: ProcessingResult, config: ModelConfiguration, batchId: int,
                                    respond: (nat, ChatRequest) -> Reply, rejects: Summary -> Option<Exception>,
                                    next0: int, attempt: int, requests0: seq<ChatRequest>, requests: seq<ChatRequest>,
                                    requests': seq<ChatRequest>, rows0: seq<Summary>, rows: seq<Summary>,
                                    rows': seq<Summary>)
    requires k < |items|
    requires TasksFit(items[..k], results, config, batchId, respond, rejects, next0, requests0, requests, rows0, rows)
    requires |requests| == |requests0| + k
    requires |requests'| == |requests| + 1 && requests'[..|requests|] == requests
    requires |rows| <= |rows'| && rows'[..|rows|] == rows
    requires attempt == NextAfter(next0, results) && |rows| - |rows0| == attempt - next0
    requires TaskFits(items[k], outcome, respond(|requests|, requests'[|requests|]), rejects,
      attempt, config, batchId, rows', |rows|)
    ensures TasksFit(items[..k + 1], results + [outcome], config, batchId, respond, rejects, next0,
      requests0, requests', rows0, rows')
  {
    var items', results' := items[..k + 1], results + [outcome];
    var attempts, attempts' := Attempts(next0, results), Attempts(next0, results');
    var replies, replies' := Replies(respond, requests, |requests0|), Replies(respond, requests', |requests0|);
    AttemptsSnoc(next0, results, outcome);
    RepliesSnoc(respond, requests, requests', |requests0|);
    forall j | 0 <= j < k + 1
      ensures TaskFits(items'[j], results'[j], replies'[j], rejects, attempts'[j], config, batchId, rows',
        |rows0| + (attempts'[j] - next0))
    {
      if j < k {
        assert items'[j] == items[..k][j] && results'[j] == results[j];
        assert attempts'[j] == attempts[j] && replies'[j] == replies[j];
        TaskFitsGrown(items[..k][j], results[j], replies[j], rejects, attempts[j], config, batchId, rows, rows',
          |rows0| + (attempts[j] - next0));
      } else {
        assert items'[j] == items[k] && results'[j] == outcome && attempts'[j] == attempt;
      }
    }
  }

  lemma {:induction false} SavedStep(results: seq<ProcessingResult>, outcome: ProcessingResult, config: ModelConfiguration,
                  batchId: int, rows0: seq<Summary>, rows: seq<Summary>, rows': seq<Summary>)
    requires SavedRows(results, config, batchId, rows0, rows)
    requires outcome.success ==>
      |rows'| == |rows| + 1 && rows'[..|rows|] == rows && SavedFor(rows'[|rows|], outcome, config, batchId)
    requires !outcome.success ==> rows' == rows
    ensures SavedRows(results + [outcome], config, batchId, rows0, rows')
  {
    SuccessfulSnoc(results, outcome);
    if outcome.success {
      var succeeded, succeeded' := Successful(results), Successful(results + [outcome]);
      assert rows'[..|rows0|] == rows0 by {
        assert rows'[..|rows0|] == rows[..|rows0|];
      }
      forall j | 0 <= j < |succeeded'|
        ensures SavedFor(rows'[|rows0| + j], succeeded'[j], config, batchId)
      {
        if j < |succeeded| {
          assert rows'[|rows0| + j] == rows[|rows0| + j];
          assert succeeded'[j] == succeeded[j];
        }
      }
    }
  }

  /**
   * processItems: an empty item list answers "No items to process" before
   * the configuration is looked up, so nothing is called or saved even for
   * an unknown configuration; otherwise a failed lookup fails the batch
   * before any task starts, and a resolved configuration runs every task
   * and folds the outcomes.
   */
  ghost predicate ProcessedBatch(items: seq<ItemRecord>, prompt: Option<string>, configId: Option<int>,
                                 configs: map<int, ModelConfiguration>, batchId: int, writer: JsonWriter,
                                 respond: (nat, ChatRequest) -> Reply, rejects: Summary -> Option<Exception>,
                                 next0: int, requests0: seq<ChatRequest>, requests: seq<ChatRequest>,
                                 rows0: seq<Summary>, rows: seq<Summary>,
                                 results: seq<ProcessingResult>, r: Result<BatchSummaryResponse>)
    requires LongIds(items)
  {
    if items == [] then
      r == Ok(NoItemsResponse) && results == [] && requests == requests0 && rows == rows0
    else
      match FindConfigurationById(configs, configId)
      case Err(e) =>
        r == Err(e) && results == [] && requests == requests0 && rows == rows0
      case Ok(config) =>
        r == Ok(Aggregate(results))
        && TasksRan(items, BuildSystemPrompt(prompt), config, batchId, writer, requests0, requests, rows0, rows, results)
        && TasksFit(items, results, config, batchId, respond, rejects, next0, requests0, requests, rows0, rows)
  }

  /**
   * The accounting of a batch that completed: one chat request per item,
   * the counts add up to the number of items, one new summary per success,
   * and the response's summary ids are the ids of the new summaries, in
   * order, each of which carries the batch id and the resolved configuration.
   */
  lemma BatchAccounting(items: seq<ItemRecord>, prompt: Option<string>, configId: Option<int>,
                        configs: map<int, ModelConfiguration>, batchId: int, writer: JsonWriter,
                        respond: (nat, ChatRequest) -> Reply, rejects: Summary -> Option<Exception>,
                        next0: int, requests0: seq<ChatRequest>, requests: seq<ChatRequest>,
                        rows0: seq<Summary>, rows: seq<Summary>,
                        results: seq<ProcessingResult>, r: Result<BatchSummaryResponse>)
    requires LongIds(items)
    requires ProcessedBatch(items, prompt, configId, configs, batchId, writer, respond, rejects, next0,
      requests0, requests, rows0, rows, results, r)
    requires r.Ok?
    ensures |requests| - |requests0| == |items| == r.value.successCount + r.value.failureCount
    ensures 0 <= r.value.failureCount
    ensures |r.value.summaryIds| == r.value.successCount == |rows| - |rows0|
    ensures forall j :: 0 <= j < |r.value.summaryIds| ==>
      r.value.summaryIds[j] == Some(rows[|rows0| + j].id) && rows[|rows0| + j].batchId == Some(batchId)
    ensures items != [] ==>
      && FindConfigurationById(configs, configId).Ok?
      && forall j :: |rows0| <= j < |rows| ==> rows[j].configuration == Some(FindConfigurationById(configs, configId).value)
  {
    AggregateCounts(results);
    if items != [] {
      var config := FindConfigurationById(configs, configId).value;
      var succeeded := Successful(results);
      forall j | |rows0| <= j < |rows| ensures rows[j].configuration == Some(config) {
        assert SavedFor(rows[|rows0| + (j - |rows0|)], succeeded[j - |rows0|], config, batchId);
      }
      forall j | 0 <= j < |r.value.summaryIds|
        ensures r.value.summaryIds[j] == Some(rows[|rows0| + j].id) && rows[|rows0| + j].batchId == Some(batchId)
      {
        assert SavedFor(rows[|rows0| + j], succeeded[j], config, batchId);
      }
    }
  }

  /** Task k was to get the id the table gives after the tasks before it. */
  lemma {:induction false} AttemptAt(next0: int, results: seq<ProcessingResult>, k: nat)
    requires k < |results|
    ensures Attempts(next0, results)[k] == NextAfter(next0, results[..k])
    decreases |results|
  {
    var n := |results| - 1;
    if k < n {
      AttemptAt(next0, results[..n], k);
      assert results[..n][..k] == results[..k];
    }
  }

  /** The successes before task k are fewer than all the successes when task k succeeds. */
  lemma SuccessesBefore(results: seq<ProcessingResult>, k: nat)
    requires k < |results| && results[k].success
    ensures SuccessCount(results[..k]) < SuccessCount(results)
  {
    assert results[..k + 1] == results[..k] + [results[k]];
    SuccessfulSnoc(results[..k], results[k]);
    assert results == results[..k + 1] + results[k + 1..];
    Seqs.CountAppend(results[..k + 1], results[k + 1..], Succeeded);
  }

  /**
   * Task k of tasks that fit: its outcome fits reply k and the row stamped
   * with the next id after the earlier successes, which stands that many
   * places after `rows0`.
   */
  lemma {:induction false} TaskAt(items: seq<ItemRecord>, results: seq<ProcessingResult>, config: ModelConfiguration,
                                  batchId: int, respond: (nat, ChatRequest) -> Reply,
                                  rejects: Summary -> Option<Exception>, next0: int, requests0: seq<ChatRequest>,
                                  requests: seq<ChatRequest>, rows0: seq<Summary>, rows: seq<Summary>, k: nat)
    requires TasksFit(items, results, config, batchId, respond, rejects, next0, requests0, requests, rows0, rows)
    requires k < |items|
    ensures |requests0| + k < |requests|
    ensures var j := SuccessCount(results[..k]);
      TaskFits(items[k], results[k], respond(|requests0| + k, requests[|requests0| + k]), rejects, next0 + j,
        config, batchId, rows, |rows0| + j)
  {
    ReplyAt(respond, requests, |requests0|, k);
    AttemptAt(next0, results, k);
    NextAfterCounts(next0, results[..k]);
    var attempts := Attempts(next0, results);
    assert TaskFits(items[k], results[k], Replies(respond, requests, |requests0|)[k], rejects, attempts[k],
      config, batchId, rows, |rows0| + (attempts[k] - next0));
  }

  /**
   * Item k of a batch that ran: it was sent the batch's system prompt and
   * its own info, and its outcome fits the model's reply to that request
   * and the summary holding the reply text stamped with the next id after
   * the earlier successes (TaskFits): it succeeded exactly when the model
   * replied with text and the table accepted that summary, which is then
   * the table's j-th new row and the j-th id of the response, j being the
   * number of earlier successes.
   */
  lemma ItemSucceedsIff(items: seq<ItemRecord>, prompt: Option<string>, configId: Option<int>,
                        configs: map<int, ModelConfiguration>, batchId: int, writer: JsonWriter,
                        respond: (nat, ChatRequest) -> Reply, rejects: Summary -> Option<Exception>,
                        next0: int, requests0: seq<ChatRequest>, requests: seq<ChatRequest>,
                        rows0: seq<Summary>, rows: seq<Summary>,
                        results: seq<ProcessingResult>, r: Result<BatchSummaryResponse>, k: nat)
    requires LongIds(items)
    requires ProcessedBatch(items, prompt, configId, configs, batchId, writer, respond, rejects, next0,
      requests0, requests, rows0, rows, results, r)
    requires r.Ok? && k < |items|
    ensures FindConfigurationById(configs, configId).Ok?
    ensures |requests| == |requests0| + |items| && |results| == |items| && results[k].itemId == items[k].id
    ensures RequestFor(requests[|requests0| + k], items[k], BuildSystemPrompt(prompt), writer)
    ensures var j := SuccessCount(results[..k]);
      TaskFits(items[k], results[k], respond(|requests0| + k, requests[|requests0| + k]), rejects, next0 + j,
        FindConfigurationById(configs, configId).value, batchId, rows, |rows0| + j)
    ensures var j := SuccessCount(results[..k]);
      results[k].success ==> j < |r.value.summaryIds| && r.value.summaryIds[j] == Some(next0 + j)
  {
    RequestAt(items, BuildSystemPrompt(prompt), writer, requests0, requests, k);
    ItemTaskAt(items, FindConfigurationById(configs, configId).value, batchId,
      respond, rejects, next0, requests0, requests, rows0, rows, results, k);
    AggregateIds(results);
  }

  /** The response's ids are the ids the successful outcomes report. */
  lemma AggregateIds(results: seq<ProcessingResult>)
    ensures Aggregate(results).summaryIds == SummaryIdsOf(results)
  {
  }

  /** The outcome part of ItemSucceedsIff, for the tasks of a batch whose configuration resolved. */
  lemma ItemTaskAt(items: seq<ItemRecord>, config: ModelConfiguration, batchId: int,
                   respond: (nat, ChatRequest) -> Reply, rejects: Summary -> Option<Exception>,
                   next0: int, requests0: seq<ChatRequest>, requests: seq<ChatRequest>,
                   rows0: seq<Summary>, rows: seq<Summary>, results: seq<ProcessingResult>, k: nat)
    requires k < |items|
    requires SavedRows(results, config, batchId, rows0, rows)
    requires TasksFit(items, results, config, batchId, respond, rejects, next0, requests0, requests, rows0, rows)
    ensures |requests0| + k < |requests| && k < |results|
    ensures var j := SuccessCount(results[..k]);
      TaskFits(items[k], results[k], respond(|requests0| + k, requests[|requests0| + k]), rejects, next0 + j,
        config, batchId, rows, |rows0| + j)
    ensures var j := SuccessCount(results[..k]);
      results[k].success ==> j < |SummaryIdsOf(results)| && SummaryIdsOf(results)[j] == Some(next0 + j)
  {
    TaskAt(items, results, config, batchId, respond, rejects, next0, requests0, requests, rows0, rows, k);
    var j := SuccessCount(results[..k]);
    var reply := respond(|requests0| + k, requests[|requests0| + k]);
    ReportedIdAt(items[k], results, config, batchId, reply, rejects, next0, rows0, rows, k);
  }

  /** A successful task k reports the id the table gave its row, and so does the response. */
  lemma ReportedIdAt(item: ItemRecord, results: seq<ProcessingResult>, config: ModelConfiguration, batchId: int,
                     reply: Reply, rejects: Summary -> Option<Exception>, next0: int,
                     rows0: seq<Summary>, rows: seq<Summary>, k: nat)
    requires k < |results| && SavedRows(results, config, batchId, rows0, rows)
    requires TaskFits(item, results[k], reply, rejects, next0 + SuccessCount(results[..k]), config, batchId, rows,
      |rows0| + SuccessCount(results[..k]))
    ensures var j := SuccessCount(results[..k]);
      results[k].success ==> j < |SummaryIdsOf(results)| && SummaryIdsOf(results)[j] == Some(next0 + j)
  {
    if results[k].success {
      SuccessesBefore(results, k);
      var j := SuccessCount(results[..k]);
      SummaryIdAt(results, config, batchId, rows0, rows, j, next0 + j);
    }
  }

  /**
   * A batch of two items whose replies both carry text and whose summaries
   * the table both accepts: 2 succeeded, 0 failed, the two new ids in item
   * order, and exactly those two summaries appended.
   */
  lemma TwoSuccesses(items: seq<ItemRecord>, prompt: Option<string>, configId: Option<int>,
                     configs: map<int, ModelConfiguration>, batchId: int, writer: JsonWriter,
                     respond: (nat, ChatRequest) -> Reply, rejects: Summary -> Option<Exception>,
                     next0: int, requests0: seq<ChatRequest>, requests: seq<ChatRequest>,
                     rows0: seq<Summary>, rows: seq<Summary>,
                     results: seq<ProcessingResult>, r: Result<BatchSummaryResponse>)
    requires LongIds(items) && |items| == 2
    requires ProcessedBatch(items, prompt, configId, configs, batchId, writer, respond, rejects, next0,
      requests0, requests, rows0, rows, results, r)
    requires FindConfigurationById(configs, configId).Ok? && |requests0| + 2 <= |requests|
    requires var config := FindConfigurationById(configs, configId).value;
      var first, second := respond(|requests0|, requests[|requests0|]), respond(|requests0| + 1, requests[|requests0| + 1]);
      && first.Replied? && rejects(ItemRow(items[0], first.text, config, batchId, next0)).None?
      && second.Replied? && rejects(ItemRow(items[1], second.text, config, batchId, next0 + 1)).None?
    ensures r == Ok(BatchSummaryResponse(2, 0, [Some(next0), Some(next0 + 1)],
      "Processed " + "2" + " items: " + "2" + " succeeded, " + "0" + " failed"))
    ensures var config := FindConfigurationById(configs, configId).value;
      var first, second := respond(|requests0|, requests[|requests0|]), respond(|requests0| + 1, requests[|requests0| + 1]);
      rows == rows0 + [ItemRow(items[0], first.text, config, batchId, next0),
                       ItemRow(items[1], second.text, config, batchId, next0 + 1)]
  {
    TwoOutcomes(items, results, FindConfigurationById(configs, configId).value, batchId, respond, rejects, next0,
      requests0, requests, rows0, rows, true);
  }

  /**
   * A batch of two items where the first task fails (an exception, a null
   * text or a refused summary) and the second one's reply carries text the
   * table accepts: 1 succeeded, 1 failed, the one new id, which is the id the
   * table gave next, since the failure took none, and exactly that summary
   * appended.
   */
  lemma FailureThenSuccess(items: seq<ItemRecord>, prompt: Option<string>, configId: Option<int>,
                           configs: map<int, ModelConfiguration>, batchId: int, writer: JsonWriter,
                           respond: (nat, ChatRequest) -> Reply, rejects: Summary -> Option<Exception>,
                           next0: int, requests0: seq<ChatRequest>, requests: seq<ChatRequest>,
                           rows0: seq<Summary>, rows: seq<Summary>,
                           results: seq<ProcessingResult>, r: Result<BatchSummaryResponse>)
    requires LongIds(items) && |items| == 2
    requires ProcessedBatch(items, prompt, configId, configs, batchId, writer, respond, rejects, next0,
      requests0, requests, rows0, rows, results, r)
    requires FindConfigurationById(configs, configId).Ok? && |requests0| + 2 <= |requests|
    requires var config := FindConfigurationById(configs, configId).value;
      var first, second := respond(|requests0|, requests[|requests0|]), respond(|requests0| + 1, requests[|requests0| + 1]);
      && !(first.Replied? && rejects(ItemRow(items[0], first.text, config, batchId, next0)).None?)
      && second.Replied? && rejects(ItemRow(items[1], second.text, config, batchId, next0)).None?
    ensures r == Ok(BatchSummaryResponse(1, 1, [Some(next0)],
      "Processed " + "2" + " items: " + "1" + " succeeded, " + "1" + " failed"))
    ensures var config := FindConfigurationById(configs, configId).value;
      var second := respond(|requests0| + 1, requests[|requests0| + 1]);
      rows == rows0 + [ItemRow(items[1], second.text, config, batchId, next0)]
  {
    TwoOutcomes(items, results, FindConfigurationById(configs, configId).value, batchId, respond, rejects, next0,
      requests0, requests, rows0, rows, false);
  }

  /**
   * Two tasks whose second reply carries text the table accepts, and whose
   * first succeeds exactly when `firstSaved`: the fold and the new rows.
   */
  lemma TwoOutcomes(items: seq<ItemRecord>, results: seq<ProcessingResult>, config: ModelConfiguration,
                    batchId: int, respond: (nat, ChatRequest) -> Reply, rejects: Summary -> Option<Exception>,
                    next0: int, requests0: seq<ChatRequest>, requests: seq<ChatRequest>,
                    rows0: seq<Summary>, rows: seq<Summary>, firstSaved: bool)
    requires |items| == 2 && OutcomesFor(items, results)
    requires |rows0| <= |rows| && rows[..|rows0|] == rows0 && |rows| - |rows0| == SuccessCount(results)
    requires TasksFit(items, results, config, batchId, respond, rejects, next0, requests0, requests, rows0, rows)
    requires |requests0| + 2 <= |requests|
    requires var first := respond(|requests0|, requests[|requests0|]);
      firstSaved <==> first.Replied? && rejects(ItemRow(items[0], first.text, config, batchId, next0)).None?
    requires var second, id := respond(|requests0| + 1, requests[|requests0| + 1]), if firstSaved then next0 + 1 else next0;
      second.Replied? && rejects(ItemRow(items[1], second.text, config, batchId, id)).None?
    ensures var first, second := respond(|requests0|, requests[|requests0|]), respond(|requests0| + 1, requests[|requests0| + 1]);
      firstSaved ==>
      && Aggregate(results) == BatchSummaryResponse(2, 0, [Some(next0), Some(next0 + 1)],
           "Processed " + "2" + " items: " + "2" + " succeeded, " + "0" + " failed")
      && rows == rows0 + [ItemRow(items[0], first.text, config, batchId, next0),
                          ItemRow(items[1], second.text, config, batchId, next0 + 1)]
    ensures var second := respond(|requests0| + 1, requests[|requests0| + 1]);
      !firstSaved ==>
      && Aggregate(results) == BatchSummaryResponse(1, 1, [Some(next0)],
           "Processed " + "2" + " items: " + "1" + " succeeded, " + "1" + " failed")
      && rows == rows0 + [ItemRow(items[1], second.text, config, batchId, next0)]
  {
    TaskAt(items, results, config, batchId, respond, rejects, next0, requests0, requests, rows0, rows, 0);
    TaskAt(items, results, config, batchId, respond, rejects, next0, requests0, requests, rows0, rows, 1);
    CountsOfTwo(results);
    TwoFolds(results, items[0].id, items[1].id, next0, firstSaved);
    var first, second := respond(|requests0|, requests[|requests0|]), respond(|requests0| + 1, requests[|requests0| + 1]);
    if firstSaved {
      TwoAppended(rows0, rows, ItemRow(items[0], first.text, config, batchId, next0),
        ItemRow(items[1], second.text, config, batchId, next0 + 1));
    } else {
      OneAppended(rows0, rows, ItemRow(items[1], second.text, config, batchId, next0));
    }
  }

  /** The success counts of the prefixes of two outcomes. */
  lemma CountsOfTwo(results: seq<ProcessingResult>)
    requires |results| == 2
    ensures SuccessCount(results[..0]) == 0
    ensures SuccessCount(results[..1]) == if results[0].success then 1 else 0
    ensures SuccessCount(results) == SuccessCount(results[..1]) + if results[1].success then 1 else 0
  {
    assert results[..0] == [];
    assert results[..1] == [] + [results[0]];
    SuccessfulSnoc([], results[0]);
    assert results == [results[0]] + [results[1]];
    SuccessfulSnoc([results[0]], results[1]);
  }

  lemma OneAppended(rows0: seq<Summary>, rows: seq<Summary>, x: Summary)
    requires |rows| == |rows0| + 1 && rows[..|rows0|] == rows0 && rows[|rows0|] == x
    ensures rows == rows0 + [x]
  {
  }

  lemma TwoAppended(rows0: seq<Summary>, rows: seq<Summary>, x: Summary, y: Summary)
    requires |rows| == |rows0| + 2 && rows[..|rows0|] == rows0 && rows[|rows0|] == x && rows[|rows0| + 1] == y
    ensures rows == rows0 + [x, y]
  {
  }

  /** The fold of two outcomes whose second succeeded, with the ids the table gave. */
  lemma TwoFolds(results: seq<ProcessingResult>, a: int, b: int, next0: int, firstSaved: bool)
    requires |results| == 2 && results[0].itemId == a && results[1].itemId == b
    requires results[0].success == firstSaved && results[0].success == results[0].error.None?
    requires firstSaved ==> results[0].summaryId == Some(next0)
    requires !firstSaved ==> results[0].summaryId.None? && results[0].error.Some?
    requires results[1].success && results[1].error.None?
    requires results[1].summaryId == Some(if firstSaved then next0 + 1 else next0)
    ensures firstSaved ==> Aggregate(results) == BatchSummaryResponse(2, 0, [Some(next0), Some(next0 + 1)],
      "Processed " + "2" + " items: " + "2" + " succeeded, " + "0" + " failed")
    ensures !firstSaved ==> Aggregate(results) == BatchSummaryResponse(1, 1, [Some(next0)],
      "Processed " + "2" + " items: " + "1" + " succeeded, " + "1" + " failed")
  {
    if firstSaved {
      TwoSuccessesAggregate(a, b, next0, next0 + 1);
      assert results == [ProcessingResult(true, a, Some(next0), None), ProcessingResult(true, b, Some(next0 + 1), None)];
    } else {
      var e := results[0].error.value;
      FailureThenSuccessAggregate(a, b, next0, e);
      assert results == [ProcessingResult(false, a, None, Some(e)), ProcessingResult(true, b, Some(next0), None)];
    }
  }

  /** The j-th id of the response is the id of the j-th new row. */
  lemma SummaryIdAt(results: seq<ProcessingResult>, config: ModelConfiguration, batchId: int,
                    rows0: seq<Summary>, rows: seq<Summary>, j: nat, id: int)
    requires SavedRows(results, config, batchId, rows0, rows)
    requires j < SuccessCount(results) && |rows0| + j < |rows| && rows[|rows0| + j].id == id
    ensures j < |SummaryIdsOf(results)|
    ensures SummaryIdsOf(results)[j] == Some(id)
  {
    assert SavedFor(rows[|rows0| + j], Successful(results)[j], config, batchId);
  }

  /** processItems, with the tasks run one after another in item order. */
  method ProcessItems(items: seq<ItemRecord>, prompt: Option<string>, configId: Option<int>,
                      configs: map<int, ModelConfiguration>, batchId: int, writer: JsonWriter,
                      chat: ChatModel, summaries: Repository<Summary>)
    returns (r: Result<BatchSummaryResponse>, ghost results: seq<ProcessingResult>)
    requires LongIds(items)
    requires summaries.Valid() && summaries.withId == SummaryWithId
    modifies chat, summaries
    ensures summaries.Valid()
    ensures ProcessedBatch(items, prompt, configId, configs, batchId, writer, chat.respond, summaries.rejects,
      old(summaries.nextId), old(chat.requests), chat.requests, old(summaries.rows), summaries.rows, results, r)
  {
    results := [];
    if items == [] {
      return Ok(NoItemsResponse), results;
    }
    var systemPrompt := BuildSystemPrompt(prompt);
    var found := FindConfigurationById(configs, configId);
    if found.Err? {
      return Err(found.error), results;
    }
    var config := found.value;
    var outcomes := RunTasks(items, systemPrompt, config, batchId, writer, chat, summaries);
    results := outcomes;
    r := Ok(Aggregate(outcomes));
  }

  /** The tasks of one batch, run one after another in item order, all with the same prompt, configuration and batch id. */
  method RunTasks(items: seq<ItemRecord>, systemPrompt: string, config: ModelConfiguration, batchId: int,
                  writer: JsonWriter, chat: ChatModel, summaries: Repository<Summary>)
    returns (results: seq<ProcessingResult>)
    requires LongIds(items)
    requires summaries.Valid() && summaries.withId == SummaryWithId
    modifies chat, summaries
    ensures summaries.Valid()
    ensures TasksRan(items, systemPrompt, config, batchId, writer,
      old(chat.requests), chat.requests, old(summaries.rows), summaries.rows, results)
    ensures TasksFit(items, results, config, batchId, chat.respond, summaries.rejects, old(summaries.nextId),
      old(chat.requests), chat.requests, old(summaries.rows), summaries.rows)
  {
    results := [];
    var k := 0;
    while k < |items|
      invariant 0 <= k <= |items|
      invariant summaries.Valid()
      invariant TasksRan(items[..k], systemPrompt, config, batchId, writer,
        old(chat.requests), chat.requests, old(summaries.rows), summaries.rows, results)
      invariant TasksFit(items[..k], results, config, batchId, chat.respond, summaries.rejects, old(summaries.nextId),
        old(chat.requests), chat.requests, old(summaries.rows), summaries.rows)
      invariant summaries.nextId == NextAfter(old(summaries.nextId), results)
      invariant |summaries.rows| - |old(summaries.rows)| == summaries.nextId - old(summaries.nextId)
    {
      var outcome := RunTask(items, k, systemPrompt, config, batchId, writer, chat, summaries,
        old(chat.requests), old(summaries.rows), old(summaries.nextId), results);
      results := results + [outcome];
      k := k + 1;
    }
    assert items[..k] == items;
  }

  /** Task k of RunTasks: processItemAsync on item k, which extends what the earlier tasks did by one task. */
  method RunTask(items: seq<ItemRecord>, k: nat, systemPrompt: string, config: ModelConfiguration, batchId: int,
                 writer: JsonWriter, chat: ChatModel, summaries: Repository<Summary>,
                 ghost requests0: seq<ChatRequest>, ghost rows0: seq<Summary>, ghost next0: int,
                 ghost results: seq<ProcessingResult>)
    returns (outcome: ProcessingResult)
    requires k < |items| && LongIds(items)
    requires summaries.Valid() && summaries.withId == SummaryWithId
    requires TasksRan(items[..k], systemPrompt, config, batchId, writer,
      requests0, chat.requests, rows0, summaries.rows, results)
    requires TasksFit(items[..k], results, config, batchId, chat.respond, summaries.rejects, next0,
      requests0, chat.requests, rows0, summaries.rows)
    requires summaries.nextId == NextAfter(next0, results)
    requires |summaries.rows| - |rows0| == summaries.nextId - next0
    modifies chat, summaries
    ensures summaries.Valid()
    ensures TasksRan(items[..k + 1], systemPrompt, config, batchId, writer,
      requests0, chat.requests, rows0, summaries.rows, results + [outcome])
    ensures TasksFit(items[..k + 1], results + [outcome], config, batchId, chat.respond, summaries.rejects, next0,
      requests0, chat.requests, rows0, summaries.rows)
    ensures summaries.nextId == NextAfter(next0, results + [outcome])
    ensures |summaries.rows| - |rows0| == summaries.nextId - next0
  {
    ghost var rowsBefore, requestsBefore, nextBefore := summaries.rows, chat.requests, summaries.nextId;
    outcome := ProcessItemAsync(items[k], systemPrompt, config, batchId, chat, summaries, writer);
    TaskStep(items, k, systemPrompt, config, batchId, writer, requests0, requestsBefore, chat.requests,
      rows0, rowsBefore, summaries.rows, results, outcome);
    FitsStep(items, k, results, outcome, config, batchId, chat.respond, summaries.rejects, next0,
      nextBefore, requests0, requestsBefore, chat.requests, rows0, rowsBefore, summaries.rows);
    AttemptsSnoc(next0, results, outcome);
  }

  /** A selection from a table of items with long ids has long ids. */
  lemma LongIdsOfSelection(rows: seq<ItemRecord>, items: seq<ItemRecord>)
    requires LongIds(rows)
    requires forall x :: x in items ==> x in rows
    ensures LongIds(items)
  {
    forall k | 0 <= k < |items| ensures IsLong(items[k].id) {
      assert items[k] in rows;
      var i :| 0 <= i < |rows| && rows[i] == items[k];
    }
  }

  /**
   * generateSummariesForAllItems: the batch over every stored item, or over
   * the stored items of the listed types. The batch id (System.nanoTime in
   * the service) is a parameter.
   */
  method GenerateSummariesForAllItems(prompt: Option<string>, configId: Option<int>, itemTypes: Option<seq<string>>,
                                      batchId: int, itemRows: seq<ItemRecord>, configs: map<int, ModelConfiguration>,
                                      writer: JsonWriter, chat: ChatModel, summaries: Repository<Summary>)
    returns (r: Result<BatchSummaryResponse>, ghost results: seq<ProcessingResult>)
    requires LongIds(itemRows)
    requires summaries.Valid() && summaries.withId == SummaryWithId
    modifies chat, summaries
    ensures summaries.Valid()
    ensures LongIds(SelectAllItems(itemRows, itemTypes))
    ensures ProcessedBatch(SelectAllItems(itemRows, itemTypes), prompt, configId, configs, batchId, writer,
      chat.respond, summaries.rejects, old(summaries.nextId), old(chat.requests), chat.requests,
      old(summaries.rows), summaries.rows, results, r)
  {
    var items := SelectAllItems(itemRows, itemTypes);
    LongIdsOfSelection(itemRows, items);
    r, results := ProcessItems(items, prompt, configId, configs, batchId, writer, chat, summaries);
  }

  /** generateSummariesForItems: the batch over the stored items with the requested ids. */
  method GenerateSummariesForItems(itemIds: seq<int>, prompt: Option<string>, configId: Option<int>,
                                   batchId: int, itemRows: seq<ItemRecord>, configs: map<int, ModelConfiguration>,
                                   writer: JsonWriter, chat: ChatModel, summaries: Repository<Summary>)
    returns (r: Result<BatchSummaryResponse>, ghost results: seq<ProcessingResult>)
    requires LongIds(itemRows)
    requires summaries.Valid() && summaries.withId == SummaryWithId
    modifies chat, summaries
    ensures summaries.Valid()
    ensures LongIds(FindAllById(itemRows, itemIds))
    ensures ProcessedBatch(FindAllById(itemRows, itemIds), prompt, configId, configs, batchId, writer,
      chat.respond, summaries.rejects, old(summaries.nextId), old(chat.requests), chat.requests,
      old(summaries.rows), summaries.rows, results, r)
  {
    var items := FindAllById(itemRows, itemIds);
    LongIdsOfSelection(itemRows, items);
    r, results := ProcessItems(items, prompt, configId, configs, batchId, writer, chat, summaries);
  }

  /** generateSummariesForCollection: the batch over the stored items that are members of the collection. */
  method GenerateSummariesForCollection(collectionId: int, prompt: Option<string>, configId: Option<int>,
                                        batchId: int, itemRows: seq<ItemRecord>, rels: seq<Relationship>,
                                        configs: map<int, ModelConfiguration>,
                                        writer: JsonWriter, chat: ChatModel, summaries: Repository<Summary>)
    returns (r: Result<BatchSummaryResponse>, ghost results: seq<ProcessingResult>)
    requires LongIds(itemRows)
    requires summaries.Valid() && summaries.withId == SummaryWithId
    modifies chat, summaries
    ensures summaries.Valid()
    ensures LongIds(SelectCollectionItems(itemRows, rels, collectionId))
    ensures ProcessedBatch(SelectCollectionItems(itemRows, rels, collectionId), prompt, configId, configs, batchId,
      writer, chat.respond, summaries.rejects, old(summaries.nextId), old(chat.requests), chat.requests,
      old(summaries.rows), summaries.rows, results, r)
  {
    var items := SelectCollectionItems(itemRows, rels, collectionId);
    LongIdsOfSelection(itemRows, items);
    r, results := ProcessItems(items, prompt, configId, configs, batchId, writer, chat, summaries);
  }
}
