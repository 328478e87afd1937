/**
 * AsyncItemProcessor: one summarisation task of a batch. It renders the item
 * as JSON, asks the chat model for a summary, saves the summary, and reports
 * the outcome as a ProcessingResult; it never throws. Jackson's text
 * rendering of JSON is opaque (a JsonWriter).
 */
module ItemProcessor {
  import opened Wrappers
  import opened Text
  import opened Records
  import opened Persistence
  import opened AiService
  import opened ItemEntity

  /**
   * The outcome of one task: on success the id of the saved summary, on
   * failure the exception whose message is reported.
   */
  datatype ProcessingResult = ProcessingResult(
    success: bool,
    itemId: int,
    summaryId: Option<int>,
    error: Option<Exception>)

  /**
   * Jackson's rendering of a JSON value: the pretty printer, which may fail
   * (None), and `toString()`.
   */
  datatype JsonWriter = JsonWriter(pretty: Json -> Option<string>, compact: Json -> string)

  /** The object buildItemInfo fills: id, name and type, and the attributes when there are any. */
  function ItemInfoNode(item: ItemRecord): Json
    requires IsLong(item.id)
  {
    var base := map["id" := JLong(item.id), "name" := TextNode(item.name), "type" := JText(item.itemType)];
    if item.attributes.Some? then JObject(base["attributes" := item.attributes.value]) else JObject(base)
  }

  /**
   * The node holds exactly the keys id, name and type, plus attributes when
   * the item has an attributes object, each with the item's own value (a
   * null name as JSON null).
   */
  lemma ItemInfoNodeFields(item: ItemRecord)
    requires IsLong(item.id)
    ensures var node := ItemInfoNode(item);
      && node.JObject?
      && node.fields.Keys == {"id", "name", "type"} + (if item.attributes.Some? then {"attributes"} else {})
      && node.fields["id"] == JLong(item.id)
      && node.fields["name"] == (if item.name.Some? then JText(item.name.value) else JNull)
      && node.fields["type"] == JText(item.itemType)
      && (item.attributes.Some? ==> node.fields["attributes"] == item.attributes.value)
  {
  }

  /** ObjectNode.put(key, String): a null string is stored as JSON null. */
  function TextNode(s: Option<string>): Json
  {
    if s.Some? then JText(s.value) else JNull
  }

  /** The plain-text block buildItemInfo falls back to when the JSON cannot be written. */
  function FallbackItemInfo(item: ItemRecord, writer: JsonWriter): string
  {
    FallbackHead(item) + FallbackMiddle(item) + FallbackTail(item, writer)
  }

  /** The title and id lines of the fallback block. */
  function FallbackHead(item: ItemRecord): string
  {
    "Item Details:\n- ID: " + IntToString(item.id) + "\n"
  }

  /** The name and type lines of the fallback block. */
  function FallbackMiddle(item: ItemRecord): string
  {
    "- Name: " + Str(item.name) + "\n- Type: " + item.itemType + "\n"
  }

  /** The attributes line of the fallback block. */
  function FallbackTail(item: ItemRecord, writer: JsonWriter): string
  {
    "- Attributes: " + AttributesText(item.attributes, writer) + "\n"
  }

  /** `attributes != null ? attributes.toString() : "none"` */
  function AttributesText(attributes: Option<Json>, writer: JsonWriter): string
  {
    if attributes.Some? then writer.compact(attributes.value) else "none"
  }

  /** buildItemInfo, as a value: the pretty-printed node, or the fallback block when printing fails. */
  function ItemInfo(item: ItemRecord, writer: JsonWriter): string
    requires IsLong(item.id)
  {
    match writer.pretty(ItemInfoNode(item))
    case Some(text) => text
    case None => FallbackItemInfo(item, writer)
  }

  /**
   * The info is the pretty-printed node when printing succeeds; otherwise it
   * is the plain-text block, which opens with the item's id line and closes
   * with its attributes line.
   */
  lemma ItemInfoCases(item: ItemRecord, writer: JsonWriter)
    requires IsLong(item.id)
    ensures writer.pretty(ItemInfoNode(item)).Some? ==> ItemInfo(item, writer) == writer.pretty(ItemInfoNode(item)).value
    ensures writer.pretty(ItemInfoNode(item)).None? ==>
      && StartsWith(ItemInfo(item, writer), "Item Details:\n- ID: " + IntToString(item.id) + "\n")
      && EndsWith(ItemInfo(item, writer), "- Attributes: " + AttributesText(item.attributes, writer) + "\n")
  {
    FallbackLines(item, writer);
  }

  /** buildItemInfo: the node is filled field by field, then written, or the fallback is used. */
  method BuildItemInfo(item: ItemRecord, writer: JsonWriter) returns (info: string)
    requires IsLong(item.id)
    ensures info == ItemInfo(item, writer)
  {
    var fields: map<string, Json> := map[];
    fields := fields["id" := JLong(item.id)];
    fields := fields["name" := TextNode(item.name)];
    fields := fields["type" := JText(item.itemType)];
    if item.attributes.Some? {
      fields := fields["attributes" := item.attributes.value];
    }
    assert JObject(fields) == ItemInfoNode(item);
    var written := writer.pretty(JObject(fields));
    if written.Some? {
      info := written.value;
    } else {
      info := FallbackItemInfo(item, writer);
    }
  }

  /**
   * The fallback block starts with the id line and ends with the attributes
   * line, which reads "none" exactly when the item has no attributes object
   * (or when its text is "none").
   */
  lemma FallbackLines(item: ItemRecord, writer: JsonWriter)
    ensures StartsWith(FallbackItemInfo(item, writer), "Item Details:\n- ID: " + IntToString(item.id) + "\n")
    ensures var tail := "- Attributes: " + AttributesText(item.attributes, writer) + "\n";
      EndsWith(FallbackItemInfo(item, writer), tail)
    ensures item.attributes.None? ==> EndsWith(FallbackItemInfo(item, writer), "- Attributes: none\n")
  {
    var head, middle, tail := FallbackHead(item), FallbackMiddle(item), FallbackTail(item, writer);
    ConcatEnds(head, middle);
    StartsWithAppend(head + middle, tail, head);
    ConcatEnds(head + middle, tail);
    NoneTail();
  }

  /** The attributes line of an item without attributes. */
  lemma NoneTail()
    ensures "- Attributes: " + "none" + "\n" == "- Attributes: none\n"
  {
  }

  /** The summary a successful task saves: item id, content, batch id and configuration, nothing else. */
  function SummaryDraft(item: ItemRecord, text: string, config: ModelConfiguration, batchId: int): Summary
  {
    Summary(0, None, None, Some(item.id), Some(text), Some(batchId), Some(config), None, None)
  }

  /** The summary a task saves for `item` when the model answers `text`, stamped with `id`. */
  function ItemRow(item: ItemRecord, text: string, config: ModelConfiguration, batchId: int, id: int): (row: Summary)
    ensures row.id == id && row.entityId == Some(item.id) && row.content == Some(text)
  {
    SummaryWithId(SummaryDraft(item, text, config, batchId), id)
  }

  /**
   * One task against the provider's reply and the table, as processItemAsync
   * reports it: it succeeded exactly when the model replied with text and the
   * table accepted the row holding that text, stamped with the id the table
   * gives next (`attempt`); a provider exception is reported as the
   * RuntimeException generateResponse wraps it in, a null text as a
   * NullPointerException, a refused row as the table's exception; and a
   * success reports that id and its row stands at `at`.
   */
  ghost predicate TaskFits(item: ItemRecord, outcome: ProcessingResult, reply: Reply,
                           rejects: Summary -> Option<Exception>, attempt: int,
                           config: ModelConfiguration, batchId: int, rows: seq<Summary>, at: int)
  {
    && (outcome.success <==> reply.Replied? && rejects(ItemRow(item, reply.text, config, batchId, attempt)).None?)
    && (reply.Raised? ==> outcome.error == Some(WrappedException(reply.error)))
    && (reply.NoText? ==> outcome.error == Some(NullPointerException))
    && (reply.Replied? && !outcome.success ==>
          outcome.error == rejects(ItemRow(item, reply.text, config, batchId, attempt)))
    && (outcome.success ==>
          && outcome.summaryId == Some(attempt)
          && 0 <= at < |rows| && rows[at] == ItemRow(item, reply.text, config, batchId, attempt))
  }

  /**
   * processItemAsync: exactly one chat request is sent, carrying the system
   * prompt and the item info. A reply with text is saved as a summary of the
   * item in the batch, and the result is (true, item id, saved id, null).
   * A provider exception, a null text (whose length is read before saving)
   * or a refused save gives (false, item id, null, error), and then nothing
   * is saved. The task never throws.
   */
  method ProcessItemAsync(item: ItemRecord, systemPrompt: string, config: ModelConfiguration, batchId: int,
                          chat: ChatModel, summaries: Repository<Summary>, writer: JsonWriter)
    returns (result: ProcessingResult)
    requires IsLong(item.id) && summaries.Valid() && summaries.withId == SummaryWithId
    modifies chat, summaries
    ensures summaries.Valid()
    ensures result.itemId == item.id
    ensures result.success <==> result.error.None?
    ensures result.success <==> result.summaryId.Some?
    ensures |chat.requests| == |old(chat.requests)| + 1 && chat.requests[..|old(chat.requests)|] == old(chat.requests)
    ensures chat.requests[|old(chat.requests)|].systemPrompt == Some(systemPrompt)
    ensures chat.requests[|old(chat.requests)|].userPrompt == ItemInfo(item, writer)
    ensures summaries.nextId == old(summaries.nextId) + if result.success then 1 else 0
    ensures TaskFits(item, result, chat.respond(|old(chat.requests)|, chat.requests[|old(chat.requests)|]),
      summaries.rejects, old(summaries.nextId), config, batchId, summaries.rows, |old(summaries.rows)|)
    ensures !result.success ==> summaries.rows == old(summaries.rows)
    ensures result.success ==>
      && |summaries.rows| == |old(summaries.rows)| + 1
      && summaries.rows[..|old(summaries.rows)|] == old(summaries.rows)
      && var row := summaries.rows[|old(summaries.rows)|];
      && row.entityId == Some(item.id) && row.batchId == Some(batchId) && row.configuration == Some(config)
      && result.summaryId == Some(row.id)
  {
    var itemInfo := BuildItemInfo(item, writer);
    ghost var oldRows, oldNextId := summaries.rows, summaries.nextId;
    var reply := GenerateResponse(chat, Some(systemPrompt), itemInfo, Some(config));
    ghost var options := ChatOptionsOf(Some(config));
    assert summaries.rows == oldRows && summaries.nextId == oldNextId;
    match reply
    case Err(e) =>
      result := ProcessingResult(false, item.id, None, Some(e));
    case Ok(None) =>
      result := ProcessingResult(false, item.id, None, Some(NullPointerException));
    case Ok(Some(summaryText)) =>
      var saved := summaries.Insert(SummaryDraft(item, summaryText, config, batchId));
      match saved
      case Err(e) =>
        result := ProcessingResult(false, item.id, None, Some(e));
      case Ok(summaryId) =>
        result := ProcessingResult(true, item.id, Some(summaryId), None);
  }
}
