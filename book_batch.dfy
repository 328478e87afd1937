/**
 * AsyncBookSummaryService.generateResponse, the older book batch: resolve
 * the configuration, run one book task per ranked book with a fixed system
 * prompt, and report how many succeeded. The caller's prompt text is
 * accepted but never used. The tasks run concurrently in the service and
 * are all joined before counting, so the model runs them in book order.
 */
module BookBatch {
  import opened Wrappers
  import opened Text
  import opened Records
  import opened Persistence
  import AiService
  import opened ModelService
  import opened BookProcessor
  import Seqs

  /** The fixed system prompt (the text block keeps four spaces of indentation on every line). */
  const BookSystemPrompt: string :=
    "    Here is the Title, Author Name and Publishing Year of a book. Please search the web\n"
    + "    and produce a summary or blurb of the book. The summary should consist of one paragraph\n"
    + "    describing the genre, length and literary style of the book, as well as a summary of\n"
    + "    the plot. It should not include any \"spoilers\" or normative comments about the book.\n"

  /** The number of tasks that answered true. */
  function SuccessCount(outcomes: seq<bool>): nat
  {
    Seqs.Count(outcomes, Seqs.IsTrue)
  }

  /** "Successfully processed S of N in batch B" */
  function BatchMessage(successCount: nat, total: nat, batchId: int): string
  {
    "Successfully processed " + NatToString(successCount) + " of " + NatToString(total)
    + " in batch " + IntToString(batchId)
  }

  /** The books whose task answered true, in book order. */
  function SucceededBooks(books: seq<RankedBook>, outcomes: seq<bool>): (succeeded: seq<RankedBook>)
    requires |books| == |outcomes|
    ensures |succeeded| == SuccessCount(outcomes)
    ensures forall b :: b in succeeded ==> b in books
  {
    if books == [] then []
    else
      var n := |books| - 1;
      Seqs.CountAppend(outcomes[..n], [outcomes[n]], Seqs.IsTrue);
      assert outcomes[..n] + [outcomes[n]] == outcomes;
      var earlier := SucceededBooks(books[..n], outcomes[..n]);
      assert forall b :: b in earlier ==> b in books by {
        assert forall b :: b in books[..n] ==> b in books;
      }
      earlier + if outcomes[n] then [books[n]] else []
  }

  /** The request a book task sends: the fixed system prompt and the book's payload. */
  ghost predicate BookRequestFor(request: AiService.ChatRequest, book: RankedBook)
  {
    request.systemPrompt == Some(BookSystemPrompt) && request.userPrompt == BookInfo(book)
  }

  /** The row a successful book task saved. */
  ghost predicate SavedBookFor(row: EntitySummary, book: RankedBook, config: ModelConfiguration, batchId: int)
  {
    row.entityType == Some("ranked_book") && row.entityId == Some(book.id)
    && row.batchId == Some(batchId) && row.configuration == Some(config)
  }

  /**
   * What running the book tasks did: one outcome per book, one request per
   * book in book order, and one new "ranked_book" summary per success, in
   * order, all sharing the batch id and configuration.
   */
  ghost predicate BookTasksRan(books: seq<RankedBook>, config: ModelConfiguration, batchId: int,
                               requests0: seq<AiService.ChatRequest>, requests: seq<AiService.ChatRequest>,
                               rows0: seq<EntitySummary>, rows: seq<EntitySummary>, outcomes: seq<bool>)
  {
    && |outcomes| == |books|
    && |requests| == |requests0| + |books|
    && requests[..|requests0|] == requests0
    && (forall i :: |requests0| <= i < |requests| ==> BookRequestFor(requests[i], books[i - |requests0|]))
    && BookRowsSaved(SucceededBooks(books, outcomes), config, batchId, rows0, rows)
  }

  /** The rows after rows0 are the summaries of the given books, one each, in order. */
  ghost predicate BookRowsSaved(succeeded: seq<RankedBook>, config: ModelConfiguration, batchId: int,
                                rows0: seq<EntitySummary>, rows: seq<EntitySummary>)
  {
    && |rows0| <= |rows| && |rows| - |rows0| == |succeeded|
    && rows[..|rows0|] == rows0
    && forall j :: |rows0| <= j < |rows| ==> SavedBookFor(rows[j], succeeded[j - |rows0|], config, batchId)
  }

  /**
   * generateResponse: the configuration is resolved first, so an unknown or
   * invalid id fails the call before any book task starts; otherwise every
   * book is processed and the message reports the successes out of the
   * number of books.
   */
  ghost predicate BookBatchRan(books: seq<RankedBook>, configId: Option<int>, configs: map<int, ModelConfiguration>,
                               batchId: int, respond: (nat, AiService.ChatRequest) -> AiService.Reply,
                               rejects: EntitySummary -> Option<Exception>, next0: int,
                               requests0: seq<AiService.ChatRequest>, requests: seq<AiService.ChatRequest>,
                               rows0: seq<EntitySummary>, rows: seq<EntitySummary>, outcomes: seq<bool>,
                               r: Result<string>)
  {
    match FindConfigurationById(configs, configId)
    case Err(e) => r == Err(e) && outcomes == [] && requests == requests0 && rows == rows0
    case Ok(config) =>
      && r == Ok(BatchMessage(SuccessCount(outcomes), |books|, batchId))
      && BookTasksRan(books, config, batchId, requests0, requests, rows0, rows, outcomes)
      && BookTasksFit(books, outcomes, config, batchId, respond, rejects, next0, requests0, requests, rows0, rows)
  }

  /** The id the table gives next after the book tasks with these outcomes: one more per success. */
  function NextAfter(next0: int, outcomes: seq<bool>): int
  {
    if outcomes == [] then next0
    else
      var n := |outcomes| - 1;
      NextAfter(next0, outcomes[..n]) + if outcomes[n] then 1 else 0
  }

  /** The table has moved on by exactly the number of successes. */
  lemma {:induction false} NextAfterCounts(next0: int, outcomes: seq<bool>)
    ensures NextAfter(next0, outcomes) == next0 + SuccessCount(outcomes)
  {
    if outcomes != [] {
      var n := |outcomes| - 1;
      NextAfterCounts(next0, outcomes[..n]);
      assert outcomes[..n] + [outcomes[n]] == outcomes;
      Seqs.CountAppend(outcomes[..n], [outcomes[n]], Seqs.IsTrue);
    }
  }

  /**
   * The id the table was to give each book's summary: `next0` for the first
   * book, then one more after every success, since a refused row takes no id.
   */
  function Attempts(next0: int, outcomes: seq<bool>): (attempts: seq<int>)
    ensures |attempts| == |outcomes|
  {
    if outcomes == [] then []
    else
      var n := |outcomes| - 1;
      Attempts(next0, outcomes[..n]) + [NextAfter(next0, outcomes[..n])]
  }

  /** The attempt of one more book is the id the table gives after the earlier ones. */
  lemma AttemptsSnoc(next0: int, outcomes: seq<bool>, ok: bool)
    ensures Attempts(next0, outcomes + [ok]) == Attempts(next0, outcomes) + [NextAfter(next0, outcomes)]
    ensures NextAfter(next0, outcomes + [ok]) == NextAfter(next0, outcomes) + if ok then 1 else 0
  {
    assert (outcomes + [ok])[..|outcomes|] == outcomes;
  }

  /** Book k was to get the id the table gives after the books before it. */
  lemma {:induction false} AttemptAt(next0: int, outcomes: seq<bool>, k: nat)
    requires k < |outcomes|
    ensures Attempts(next0, outcomes)[k] == NextAfter(next0, outcomes[..k])
    decreases |outcomes|
  {
    var n := |outcomes| - 1;
    if k < n {
      AttemptAt(next0, outcomes[..n], k);
      assert outcomes[..n][..k] == outcomes[..k];
    }
  }

  /**
   * Every book task fits the reply to its own request and the table: task k
   * got reply k, the table was to give its summary the id
   * Attempts(next0, outcomes)[k], and that summary, on success, stands as
   * many places after `rows0` as the table had handed out ids before it.
   */
  ghost predicate BookTasksFit(books: seq<RankedBook>, outcomes: seq<bool>, config: ModelConfiguration, batchId: int,
                               respond: (nat, AiService.ChatRequest) -> AiService.Reply,
                               rejects: EntitySummary -> Option<Exception>, next0: int,
                               requests0: seq<AiService.ChatRequest>, requests: seq<AiService.ChatRequest>,
                               rows0: seq<EntitySummary>, rows: seq<EntitySummary>)
  {
    var attempts := Attempts(next0, outcomes);
    && |outcomes| == |books| && |requests0| + |books| <= |requests|
    && var replies := AiService.Replies(respond, requests, |requests0|);
       forall k {:trigger outcomes[k]} :: 0 <= k < |books| ==>
         BookFits(books[k], outcomes[k], replies[k], rejects, attempts[k], config, batchId, rows,
           |rows0| + (attempts[k] - next0))
  }

  /** A book task keeps fitting when rows are only appended to the table. */
  lemma BookFitsGrown(book: RankedBook, ok: bool, reply: AiService.Reply, rejects: EntitySummary -> Option<Exception>,
                      attempt: int, config: ModelConfiguration, batchId: int,
                      rows: seq<EntitySummary>, rows': seq<EntitySummary>, at: int)
    requires BookFits(book, ok, reply, rejects, attempt, config, batchId, rows, at)
    requires |rows| <= |rows'| && rows'[..|rows|] == rows
    ensures BookFits(book, ok, reply, rejects, attempt, config, batchId, rows', at)
  {
    if ok {
      assert rows'[at] == rows'[..|rows|][at];
    }
  }

  /**
   * One more book task that fits its reply and the table keeps BookTasksFit,
   * when its attempt is the id the table gives after the earlier outcomes
   * and its row lands right after theirs; earlier rows stay where they were.
   */
  lemma {:induction false} BookFitsStep(books: seq<RankedBook>, k: nat, outcomes: seq<bool>, ok: bool,
                                        config: ModelConfiguration, batchId: int,
                                        respond: (nat, AiService.ChatRequest) -> AiService.Reply,
                                        rejects: EntitySummary -> Option<Exception>, next0: int, attempt: int,
                                        requests0: seq<AiService.ChatRequest>, requests: seq<AiService.ChatRequest>,
                                        requests': seq<AiService.ChatRequest>, rows0: seq<EntitySummary>,
                                        rows: seq<EntitySummary>, rows': seq<EntitySummary>)
    requires k < |books|
    requires BookTasksFit(books[..k], outcomes, config, batchId, respond, rejects, next0, requests0, requests, rows0, rows)
    requires |requests| == |requests0| + k
    requires |requests'| == |requests| + 1 && requests'[..|requests|] == requests
    requires |rows| <= |rows'| && rows'[..|rows|] == rows
    requires attempt == NextAfter(next0, outcomes) && |rows| - |rows0| == attempt - next0
    requires BookFits(books[k], ok, respond(|requests|, requests'[|requests|]), rejects, attempt, config, batchId,
      rows', |rows|)
    ensures BookTasksFit(books[..k + 1], outcomes + [ok], config, batchId, respond, rejects, next0,
      requests0, requests', rows0, rows')
  {
    var books', outcomes' := books[..k + 1], outcomes + [ok];
    var attempts, attempts' := Attempts(next0, outcomes), Attempts(next0, outcomes');
    var replies, replies' := AiService.Replies(respond, requests, |requests0|),
      AiService.Replies(respond, requests', |requests0|);
    AttemptsSnoc(next0, outcomes, ok);
    AiService.RepliesSnoc(respond, requests, requests', |requests0|);
    forall j | 0 <= j < k + 1
      ensures BookFits(books'[j], outcomes'[j], replies'[j], rejects, attempts'[j], config, batchId, rows',
        |rows0| + (attempts'[j] - next0))
    {
      if j < k {
        assert books'[j] == books[..k][j] && outcomes'[j] == outcomes[j];
        assert attempts'[j] == attempts[j] && replies'[j] == replies[j];
        BookFitsGrown(books[..k][j], outcomes[j], replies[j], rejects, attempts[j], config, batchId, rows, rows',
          |rows0| + (attempts[j] - next0));
      } else {
        assert books'[j] == books[k] && outcomes'[j] == ok && attempts'[j] == attempt;
      }
    }
  }

  /** One more book request keeps the request part of BookTasksRan. */
  lemma BookRequestStep(books: seq<RankedBook>, k: nat,
                        requests0: seq<AiService.ChatRequest>, requests: seq<AiService.ChatRequest>,
                        requests': seq<AiService.ChatRequest>)
    requires k < |books|
    requires |requests| == |requests0| + k && requests[..|requests0|] == requests0
    requires forall i :: |requests0| <= i < |requests| ==> BookRequestFor(requests[i], books[i - |requests0|])
    requires |requests'| == |requests| + 1 && requests'[..|requests|] == requests
    requires BookRequestFor(requests'[|requests|], books[k])
    ensures requests'[..|requests0|] == requests0
    ensures forall i :: |requests0| <= i < |requests'| ==> BookRequestFor(requests'[i], books[i - |requests0|])
  {
    assert requests'[..|requests0|] == requests[..|requests0|];
    forall i | |requests0| <= i < |requests'| ensures BookRequestFor(requests'[i], books[i - |requests0|]) {
      if i < |requests| {
        assert requests'[i] == requests[i];
      }
    }
  }

  /** Taking one more book and its outcome adds the book to the successes exactly when it succeeded. */
  lemma SucceededBooksSnoc(books: seq<RankedBook>, k: nat, outcomes: seq<bool>, ok: bool)
    requires k < |books| && |outcomes| == k
    ensures SucceededBooks(books[..k + 1], outcomes + [ok])
         == SucceededBooks(books[..k], outcomes) + if ok then [books[k]] else []
  {
    assert books[..k + 1][..k] == books[..k] && (outcomes + [ok])[..k] == outcomes;
  }

  /** One more saved row (or none, for a failure) keeps BookRowsSaved. */
  lemma BookRowStep(succeeded: seq<RankedBook>, book: RankedBook, config: ModelConfiguration, batchId: int,
                    rows0: seq<EntitySummary>, rows: seq<EntitySummary>, rows': seq<EntitySummary>, ok: bool)
    requires BookRowsSaved(succeeded, config, batchId, rows0, rows)
    requires ok ==> |rows'| == |rows| + 1 && rows'[..|rows|] == rows && SavedBookFor(rows'[|rows|], book, config, batchId)
    requires !ok ==> rows' == rows
    ensures BookRowsSaved(succeeded + if ok then [book] else [], config, batchId, rows0, rows')
  {
    if ok {
      var succeeded' := succeeded + [book];
      assert rows'[..|rows0|] == rows[..|rows0|];
      forall j | |rows0| <= j < |rows'|
        ensures SavedBookFor(rows'[j], succeeded'[j - |rows0|], config, batchId)
      {
        if j < |rows| {
          assert rows'[j] == rows[j];
          assert succeeded'[j - |rows0|] == succeeded[j - |rows0|];
        }
      }
    } else {
      assert succeeded + [] == succeeded;
    }
  }

  /** One more book task keeps BookTasksRan. */
  lemma BookTaskStep(books: seq<RankedBook>, k: nat, config: ModelConfiguration, batchId: int,
                     requests0: seq<AiService.ChatRequest>, requests: seq<AiService.ChatRequest>,
                     requests': seq<AiService.ChatRequest>,
                     rows0: seq<EntitySummary>, rows: seq<EntitySummary>, rows': seq<EntitySummary>,
                     outcomes: seq<bool>, ok: bool)
    requires k < |books|
    requires BookTasksRan(books[..k], config, batchId, requests0, requests, rows0, rows, outcomes)
    requires |requests'| == |requests| + 1 && requests'[..|requests|] == requests
    requires BookRequestFor(requests'[|requests|], books[k])
    requires ok ==> |rows'| == |rows| + 1 && rows'[..|rows|] == rows && SavedBookFor(rows'[|rows|], books[k], config, batchId)
    requires !ok ==> rows' == rows
    ensures BookTasksRan(books[..k + 1], config, batchId, requests0, requests', rows0, rows', outcomes + [ok])
  {
    assert books[..k + 1][..k] == books[..k];
    BookRequestStep(books, k, requests0, requests, requests');
    BookRowStep(SucceededBooks(books[..k], outcomes), books[k], config, batchId, rows0, rows, rows', ok);
    SucceededBooksSnoc(books, k, outcomes, ok);
    forall i | |requests0| <= i < |requests'| ensures BookRequestFor(requests'[i], books[..k + 1][i - |requests0|]) {
      assert books[..k + 1][i - |requests0|] == books[i - |requests0|];
    }
  }

  /** The book tasks, one after another, in book order. */
  method RunBookTasks(books: seq<RankedBook>, config: ModelConfiguration, batchId: int,
                      chat: AiService.ChatModel, store: Repository<EntitySummary>)
    returns (outcomes: seq<bool>)
    requires store.Valid() && store.withId == EntitySummaryWithId
    modifies chat, store
    ensures store.Valid()
    ensures BookTasksRan(books, config, batchId, old(chat.requests), chat.requests, old(store.rows), store.rows, outcomes)
    ensures BookTasksFit(books, outcomes, config, batchId, chat.respond, store.rejects, old(store.nextId),
      old(chat.requests), chat.requests, old(store.rows), store.rows)
  {
    outcomes := [];
    var k := 0;
    while k < |books|
      invariant 0 <= k <= |books|
      invariant store.Valid()
      invariant BookTasksRan(books[..k], config, batchId, old(chat.requests), chat.requests,
        old(store.rows), store.rows, outcomes)
      invariant BookTasksFit(books[..k], outcomes, config, batchId, chat.respond, store.rejects, old(store.nextId),
        old(chat.requests), chat.requests, old(store.rows), store.rows)
      invariant store.nextId == NextAfter(old(store.nextId), outcomes)
      invariant |store.rows| - |old(store.rows)| == store.nextId - old(store.nextId)
    {
      var ok := RunBookTask(books, k, config, batchId, chat, store,
        old(chat.requests), old(store.rows), old(store.nextId), outcomes);
      outcomes := outcomes + [ok];
      k := k + 1;
    }
    assert books[..k] == books;
  }

  /** Book task k of RunBookTasks: processBookAsync on book k, which extends what the earlier tasks did by one task. */
  method RunBookTask(books: seq<RankedBook>, k: nat, config: ModelConfiguration, batchId: int,
                     chat: AiService.ChatModel, store: Repository<EntitySummary>,
                     ghost requests0: seq<AiService.ChatRequest>, ghost rows0: seq<EntitySummary>, ghost next0: int,
                     ghost outcomes: seq<bool>)
    returns (ok: bool)
    requires k < |books|
    requires store.Valid() && store.withId == EntitySummaryWithId
    requires BookTasksRan(books[..k], config, batchId, requests0, chat.requests, rows0, store.rows, outcomes)
    requires BookTasksFit(books[..k], outcomes, config, batchId, chat.respond, store.rejects, next0,
      requests0, chat.requests, rows0, store.rows)
    requires store.nextId == NextAfter(next0, outcomes)
    requires |store.rows| - |rows0| == store.nextId - next0
    modifies chat, store
    ensures store.Valid()
    ensures BookTasksRan(books[..k + 1], config, batchId, requests0, chat.requests, rows0, store.rows, outcomes + [ok])
    ensures BookTasksFit(books[..k + 1], outcomes + [ok], config, batchId, chat.respond, store.rejects, next0,
      requests0, chat.requests, rows0, store.rows)
    ensures store.nextId == NextAfter(next0, outcomes + [ok])
    ensures |store.rows| - |rows0| == store.nextId - next0
  {
    ghost var rowsBefore, requestsBefore, nextBefore := store.rows, chat.requests, store.nextId;
    ok := ProcessBookAsync(books[k], BookSystemPrompt, config, batchId, chat, store);
    assert BookRequestFor(chat.requests[|requestsBefore|], books[k]);
    BookTaskStep(books, k, config, batchId, requests0, requestsBefore, chat.requests,
      rows0, rowsBefore, store.rows, outcomes, ok);
    BookFitsStep(books, k, outcomes, ok, config, batchId, chat.respond, store.rejects, next0, nextBefore,
      requests0, requestsBefore, chat.requests, rows0, rowsBefore, store.rows);
    AttemptsSnoc(next0, outcomes, ok);
  }

  /**
   * generateResponse. The prompt text argument is accepted and ignored; the
   * batch id (System.nanoTime in the service) and the book list are
   * parameters.
   */
  method GenerateResponse(promptText: Option<string>, configId: Option<int>, batchId: int,
                          books: seq<RankedBook>, configs: map<int, ModelConfiguration>,
                          chat: AiService.ChatModel, store: Repository<EntitySummary>)
    returns (r: Result<string>, outcomes: seq<bool>)
    requires store.Valid() && store.withId == EntitySummaryWithId
    modifies chat, store
    ensures store.Valid()
    ensures BookBatchRan(books, configId, configs, batchId, chat.respond, store.rejects, old(store.nextId),
      old(chat.requests), chat.requests, old(store.rows), store.rows, outcomes, r)
  {
    var found := FindConfigurationById(configs, configId);
    if found.Err? {
      return Err(found.error), [];
    }
    outcomes := RunBookTasks(books, found.value, batchId, chat, store);
    var successCount := SuccessCount(outcomes);
    r := Ok(BatchMessage(successCount, |books|, batchId));
  }

  /**
   * The reported count lies between 0 and the number of books, a run where
   * every task answered true saves one summary per book, and every new row
   * is a "ranked_book" summary of one of the books in this batch.
   */
  lemma BookBatchCounts(books: seq<RankedBook>, configId: Option<int>, configs: map<int, ModelConfiguration>,
                        batchId: int, respond: (nat, AiService.ChatRequest) -> AiService.Reply,
                        rejects: EntitySummary -> Option<Exception>, next0: int,
                        requests0: seq<AiService.ChatRequest>, requests: seq<AiService.ChatRequest>,
                        rows0: seq<EntitySummary>, rows: seq<EntitySummary>, outcomes: seq<bool>, r: Result<string>)
    requires BookBatchRan(books, configId, configs, batchId, respond, rejects, next0, requests0, requests,
      rows0, rows, outcomes, r)
    requires r.Ok?
    ensures |outcomes| == |books| == |requests| - |requests0|
    ensures 0 <= SuccessCount(outcomes) <= |books|
    ensures r.value == BatchMessage(SuccessCount(outcomes), |books|, batchId)
    ensures |rows| - |rows0| == SuccessCount(outcomes)
    ensures (forall k :: 0 <= k < |outcomes| ==> outcomes[k]) ==> |rows| - |rows0| == |books|
    ensures forall j :: |rows0| <= j < |rows| ==>
      rows[j].entityType == Some("ranked_book") && rows[j].batchId == Some(batchId)
      && exists k :: 0 <= k < |books| && rows[j].entityId == Some(books[k].id)
  {
    var config := FindConfigurationById(configs, configId).value;
    var succeeded := SucceededBooks(books, outcomes);
    forall j | |rows0| <= j < |rows|
      ensures exists k :: 0 <= k < |books| && rows[j].entityId == Some(books[k].id)
    {
      assert SavedBookFor(rows[j], succeeded[j - |rows0|], config, batchId);
      assert succeeded[j - |rows0|] in books;
      var k :| 0 <= k < |books| && books[k] == succeeded[j - |rows0|];
    }
  }
  /**
   * Book k of a batch that ran: it was sent the fixed system prompt and its
   * own payload, and it answered true exactly when the model replied to that
   * request with text and the table accepted the "ranked_book" summary
   * holding the text, stamped with the next id after the earlier successes;
   * that summary is then the table's j-th new row, j being the number of
   * earlier successes.
   */
  lemma BookSucceedsIff(books: seq<RankedBook>, configId: Option<int>, configs: map<int, ModelConfiguration>,
                        batchId: int, respond: (nat, AiService.ChatRequest) -> AiService.Reply,
                        rejects: EntitySummary -> Option<Exception>, next0: int,
                        requests0: seq<AiService.ChatRequest>, requests: seq<AiService.ChatRequest>,
                        rows0: seq<EntitySummary>, rows: seq<EntitySummary>, outcomes: seq<bool>, r: Result<string>,
                        k: nat)
    requires BookBatchRan(books, configId, configs, batchId, respond, rejects, next0, requests0, requests,
      rows0, rows, outcomes, r)
    requires r.Ok? && k < |books|
    ensures FindConfigurationById(configs, configId).Ok?
    ensures |requests| == |requests0| + |books| && |outcomes| == |books|
    ensures BookRequestFor(requests[|requests0| + k], books[k])
    ensures var j := SuccessCount(outcomes[..k]);
      BookFits(books[k], outcomes[k], respond(|requests0| + k, requests[|requests0| + k]), rejects, next0 + j,
        FindConfigurationById(configs, configId).value, batchId, rows, |rows0| + j)
  {
    BookTaskAt(books, outcomes, FindConfigurationById(configs, configId).value, batchId, respond, rejects, next0,
      requests0, requests, rows0, rows, k);
  }

  /** The outcome part of BookSucceedsIff, for the tasks of a batch whose configuration resolved. */
  lemma BookTaskAt(books: seq<RankedBook>, outcomes: seq<bool>, config: ModelConfiguration, batchId: int,
                   respond: (nat, AiService.ChatRequest) -> AiService.Reply,
                   rejects: EntitySummary -> Option<Exception>, next0: int,
                   requests0: seq<AiService.ChatRequest>, requests: seq<AiService.ChatRequest>,
                   rows0: seq<EntitySummary>, rows: seq<EntitySummary>, k: nat)
    requires BookTasksFit(books, outcomes, config, batchId, respond, rejects, next0, requests0, requests, rows0, rows)
    requires k < |books|
    ensures |requests0| + k < |requests|
    ensures var j := SuccessCount(outcomes[..k]);
      BookFits(books[k], outcomes[k], respond(|requests0| + k, requests[|requests0| + k]), rejects, next0 + j,
        config, batchId, rows, |rows0| + j)
  {
    AiService.ReplyAt(respond, requests, |requests0|, k);
    AttemptAt(next0, outcomes, k);
    NextAfterCounts(next0, outcomes[..k]);
    var attempts := Attempts(next0, outcomes);
    assert BookFits(books[k], outcomes[k], AiService.Replies(respond, requests, |requests0|)[k], rejects, attempts[k],
      config, batchId, rows, |rows0| + (attempts[k] - next0));
  }
}