/**
 * AsyncBookProcessor, the older book-only task: fill the fixed payload
 * template with a ranked book's title, author and year, ask the chat model
 * for a blurb, and save it as a "ranked_book" entity summary. It answers
 * true only after the save, and false on any exception; it never throws.
 */
module BookProcessor {
  import opened Wrappers
  import opened Text
  import opened Records
  import opened Persistence
  import opened AiService

  /** A row of the ranked book list. */
  datatype RankedBook = RankedBook(
    id: int,
    rank: Option<int>,
    title: Option<string>,
    authorName: Option<string>,
    publishYear: Option<string>)

  /**
   * The entity summary the book task builds: type, entity id, text, batch id
   * and configuration (the record the builder fills; the entity class it is
   * saved as is part-way through a schema change).
   */
  datatype EntitySummary = EntitySummary(
    id: int,
    entityType: Option<string>,
    entityId: Option<int>,
    summary: Option<string>,
    batchId: Option<int>,
    configuration: Option<ModelConfiguration>)

  function EntitySummaryIdOf(s: EntitySummary): int { s.id }

  function EntitySummaryWithId(s: EntitySummary, id: int): (r: EntitySummary)
    ensures EntitySummaryIdOf(r) == id
  {
    s.(id := id)
  }

  /** The opening of the payload, up to the title. */
  const TitleOpening: string := "{\n    \"title\": \""

  /** The close of the payload after the year: an empty blurb, the closing brace, and a stray 'I'. */
  const PayloadClose: string := "\",\n    \"blurb\": \"\"\n}I\n"

  /**
   * The payload template of processBookAsync with title, author and year
   * substituted by `%s` (a null field prints as "null") and without any
   * escaping. The template as written ends with "}I" rather than "}".
   */
  function BookInfo(book: RankedBook): string
  {
    TitleLine(book) + AuthorAndYear(book) + PayloadClose
  }

  /** The payload up to and including the title. */
  function TitleLine(book: RankedBook): string
  {
    TitleOpening + Str(book.title)
  }

  /** The author and year members of the payload. */
  function AuthorAndYear(book: RankedBook): string
  {
    "\",\n    \"authorName\": \"" + Str(book.authorName) + "\",\n    \"publishYear\": \"" + Str(book.publishYear)
  }

  /**
   * The payload starts with the title line, with the title (or "null")
   * copied unescaped, and ends with the empty blurb and the closing brace
   * followed by 'I'.
   */
  lemma BookInfoShape(book: RankedBook)
    ensures StartsWith(BookInfo(book), TitleOpening + Str(book.title))
    ensures EndsWith(BookInfo(book), PayloadClose)
    ensures BookInfo(book)[|TitleOpening|..|TitleOpening| + |Str(book.title)|] == Str(book.title)
  {
    var head, middle := TitleLine(book), AuthorAndYear(book);
    ConcatEnds(head, middle);
    StartsWithAppend(head + middle, PayloadClose, head);
    ConcatEnds(head + middle, PayloadClose);
    ConcatEnds(TitleOpening, Str(book.title));
    assert BookInfo(book)[..|head|] == head;
    assert head[|TitleOpening|..] == Str(book.title);
  }

  /** The record a successful book task saves. */
  function BookSummaryDraft(book: RankedBook, text: string, config: ModelConfiguration, batchId: int): EntitySummary
  {
    EntitySummary(0, Some("ranked_book"), Some(book.id), Some(text), Some(batchId), Some(config))
  }

  /** The summary a book task saves when the model answers `text`, stamped with `id`. */
  function BookRow(book: RankedBook, text: string, config: ModelConfiguration, batchId: int, id: int): (row: EntitySummary)
    ensures row.id == id && row.entityId == Some(book.id) && row.summary == Some(text)
  {
    EntitySummaryWithId(BookSummaryDraft(book, text, config, batchId), id)
  }

  /**
   * One book task against the provider's reply and the table: it answered
   * true exactly when the model replied with text and the table accepted
   * the "ranked_book" summary holding that text, stamped with the id the
   * table gives next (`attempt`); that summary then stands at `at`.
   */
  ghost predicate BookFits(book: RankedBook, ok: bool, reply: Reply, rejects: EntitySummary -> Option<Exception>,
                           attempt: int, config: ModelConfiguration, batchId: int, rows: seq<EntitySummary>, at: int)
  {
    && (ok <==> reply.Replied? && rejects(BookRow(book, reply.text, config, batchId, attempt)).None?)
    && (ok ==> 0 <= at < |rows| && rows[at] == BookRow(book, reply.text, config, batchId, attempt))
  }

  /**
   * processBookAsync: exactly one chat request is sent, with the given
   * system prompt and the filled payload. A reply with text is saved as a
   * "ranked_book" summary of the book carrying the batch id and
   * configuration, and the method answers true exactly when that save went
   * through. A provider exception, a null text (whose length is read before
   * the save) or a refused save answers false and saves nothing.
   */
  method ProcessBookAsync(book: RankedBook, systemPrompt: string, config: ModelConfiguration, batchId: int,
                          chat: ChatModel, store: Repository<EntitySummary>)
    returns (ok: bool)
    requires store.Valid() && store.withId == EntitySummaryWithId
    modifies chat, store
    ensures store.Valid()
    ensures |chat.requests| == |old(chat.requests)| + 1 && chat.requests[..|old(chat.requests)|] == old(chat.requests)
    ensures chat.requests[|old(chat.requests)|].systemPrompt == Some(systemPrompt)
    ensures chat.requests[|old(chat.requests)|].userPrompt == BookInfo(book)
    ensures var reply := chat.respond(|old(chat.requests)|, chat.requests[|old(chat.requests)|]);
      && (!reply.Replied? ==> !ok && store.rows == old(store.rows))
      && (reply.Replied? ==>
            var row := EntitySummaryWithId(BookSummaryDraft(book, reply.text, config, batchId), old(store.nextId));
            if store.rejects(row).Some? then !ok && store.rows == old(store.rows)
            else ok && store.rows == old(store.rows) + [row])
    ensures store.nextId == old(store.nextId) + if ok then 1 else 0
    ensures BookFits(book, ok, chat.respond(|old(chat.requests)|, chat.requests[|old(chat.requests)|]),
      store.rejects, old(store.nextId), config, batchId, store.rows, |old(store.rows)|)
    ensures !ok ==> store.rows == old(store.rows)
    ensures ok ==>
      && |store.rows| == |old(store.rows)| + 1
      && store.rows[..|old(store.rows)|] == old(store.rows)
      && var row := store.rows[|old(store.rows)|];
      && row.entityType == Some("ranked_book") && row.entityId == Some(book.id)
      && row.batchId == Some(batchId) && row.configuration == Some(config)
  {
    var bookInfo := BookInfo(book);
    var reply := GenerateResponse(chat, Some(systemPrompt), bookInfo, Some(config));
    ghost var options := ChatOptionsOf(Some(config));
    match reply
    case Err(_) =>
      ok := false;
    case Ok(None) =>
      ok := false;
    case Ok(Some(summary)) =>
      var saved := store.Insert(BookSummaryDraft(book, summary, config, batchId));
      ok := saved.Ok?;
  }
}
