/**
 * OperationsService.summarizeCollection: one summary of a whole collection,
 * written with a "summarizes" relationship from the summary to the
 * collection. The service method is transactional: when an exception
 * escapes it, whatever it wrote is rolled back.
 */
module OperationsGroup {
  import opened Wrappers
  import opened Text
  import opened Records
  import opened Persistence
  import opened AiService
  import opened ModelService
  import opened Operations

  datatype SummarizeGroupResult = SummarizeGroupResult(summaryId: int, collectionId: int, entityCount: int)

  /** The exception raised when the collection has no definition. */
  function DefinitionNotFound(collectionId: int): Exception
  {
    RuntimeException("Collection definition not found for collection " + IntToString(collectionId))
  }

  /** The summary summarizeCollection saves: "Collection Summary: <name>", about the collection. */
  function CollectionSummaryDraft(definition: Relationship, collectionId: int, content: Option<string>,
                                  config: ModelConfiguration): Summary
  {
    Summary(0, Some("Collection Summary: " + Str(definition.name)), Some("collection"), Some(collectionId),
      content, None, Some(config), None, None)
  }

  /** The relationship that links the saved summary to the collection it summarizes. */
  function SummarizesLink(summaryId: int, collectionId: int): Relationship
  {
    Relationship(0, "summarizes", Some("Summary of Collection"), Some("summary"), summaryId,
      Some("collection"), collectionId, None)
  }

  /** The user prompt: the collection context of the first definition and the members. */
  function GroupContext(relationships: seq<Relationship>, collectionId: int): string
    requires CollectionDefinitions(relationships, collectionId) != []
  {
    var members := CollectionMembers(relationships, collectionId);
    ContextHeader(CollectionDefinitions(relationships, collectionId)[0], |members|) + MemberLines(members)
  }

  /**
   * What summarizeCollection did, in terms of the relationship table it
   * read (`relationships0`), the requests sent to the provider and the two
   * tables it wrote. With no definition it throws before anything else; an
   * unresolved configuration throws before the model call; otherwise one
   * request carries the collection context. After a reply, the summary is
   * saved under the id `summaryNext` and then the link from it under
   * `linkNext`; when either store refuses its row the exception escapes,
   * neither table keeps anything, and otherwise both rows are written and
   * the result reports them.
   */
  ghost predicate GroupSummarized(relationships0: seq<Relationship>, collectionId: int, configId: Option<int>,
                                  configs: map<int, ModelConfiguration>, respond: (nat, ChatRequest) -> Reply,
                                  summaryRejects: Summary -> Option<Exception>,
                                  linkRejects: Relationship -> Option<Exception>, summaryNext: int, linkNext: int,
                                  requests0: seq<ChatRequest>, requests: seq<ChatRequest>,
                                  summaries0: seq<Summary>, summaries: seq<Summary>,
                                  relationships: seq<Relationship>, r: Result<SummarizeGroupResult>)
  {
    var definitions := CollectionDefinitions(relationships0, collectionId);
    if definitions == [] then
      r == Err(DefinitionNotFound(collectionId))
      && requests == requests0 && summaries == summaries0 && relationships == relationships0
    else match FindConfigurationById(configs, configId)
      case Err(e) =>
        r == Err(e) && requests == requests0 && summaries == summaries0 && relationships == relationships0
      case Ok(config) =>
        |requests| == |requests0| + 1 && requests[..|requests0|] == requests0
        && requests[|requests0|].systemPrompt == Some(CollectionSystemPrompt)
        && requests[|requests0|].userPrompt == GroupContext(relationships0, collectionId)
        && var reply := ReplyResult(respond(|requests0|, requests[|requests0|]));
        match reply
        case Err(e) => r == Err(e) && summaries == summaries0 && relationships == relationships0
        case Ok(text) =>
          GroupSaved(CollectionSummaryDraft(definitions[0], collectionId, text, config), collectionId,
            |CollectionMembers(relationships0, collectionId)|, summaryRejects, linkRejects, summaryNext, linkNext,
            summaries0, summaries, relationships0, relationships, r)
  }

  /**
   * The two writes of summarizeCollection and their outcome: a refused
   * summary or a refused link raises with neither table changed; otherwise
   * the summary and the link from it are appended and reported.
   */
  ghost predicate GroupSaved(draft: Summary, collectionId: int, entityCount: int,
                             summaryRejects: Summary -> Option<Exception>,
                             linkRejects: Relationship -> Option<Exception>, summaryNext: int, linkNext: int,
                             summaries0: seq<Summary>, summaries: seq<Summary>,
                             relationships0: seq<Relationship>, relationships: seq<Relationship>,
                             r: Result<SummarizeGroupResult>)
  {
    var summary := SummaryWithId(draft, summaryNext);
    var link := RelationshipWithId(SummarizesLink(summaryNext, collectionId), linkNext);
    match summaryRejects(summary)
    case Some(e) => r == Err(e) && summaries == summaries0 && relationships == relationships0
    case None =>
      match linkRejects(link)
      case Some(e) => r == Err(e) && summaries == summaries0 && relationships == relationships0
      case None =>
        && r == Ok(SummarizeGroupResult(summaryNext, collectionId, entityCount))
        && summaries == summaries0 + [summary]
        && relationships == relationships0 + [link]
  }

  /**
   * summarizeCollection. The relationship table is `relationships`, which
   * holds both the collection's definition and members that are read and
   * the "summarizes" link that is written.
   */
  method SummarizeCollection(configId: Option<int>, collectionId: int, configs: map<int, ModelConfiguration>,
                             chat: ChatModel, summaries: Repository<Summary>, relationships: Repository<Relationship>)
    returns (r: Result<SummarizeGroupResult>)
    requires summaries.Valid() && summaries.withId == SummaryWithId
    requires relationships.Valid() && relationships.withId == RelationshipWithId
    modifies chat, summaries, relationships
    ensures summaries.Valid() && relationships.Valid()
    ensures GroupSummarized(old(relationships.rows), collectionId, configId, configs, chat.respond,
      summaries.rejects, relationships.rejects, old(summaries.nextId), old(relationships.nextId), old(chat.requests), chat.requests, old(summaries.rows), summaries.rows, relationships.rows, r)
  {
    var definitions := CollectionDefinitions(relationships.rows, collectionId);
    if definitions == [] {
      return Err(DefinitionNotFound(collectionId));
    }
    var definition := definitions[0];
    var members := CollectionMembers(relationships.rows, collectionId);
    var found := FindConfigurationById(configs, configId);
    if found.Err? {
      return Err(found.error);
    }
    var config := found.value;
    var context := BuildCollectionContext(definition, members);
    var reply := GenerateResponse(chat, Some(CollectionSystemPrompt), context, Some(config));
    ghost var options := ChatOptionsOf(Some(config));
    assert context == GroupContext(old(relationships.rows), collectionId);
    if reply.Err? {
      return Err(reply.error);
    }
    r := SaveGroupSummary(definition, collectionId, |members|, reply.value, config, summaries, relationships);
  }

  /**
   * The two writes of summarizeCollection: the summary, then the link from
   * it to the collection. Either both rows are written or, when a write
   * throws, neither table keeps anything.
   */
  method SaveGroupSummary(definition: Relationship, collectionId: int, entityCount: nat, text: Option<string>,
                          config: ModelConfiguration, summaries: Repository<Summary>,
                          relationships: Repository<Relationship>)
    returns (r: Result<SummarizeGroupResult>)
    requires summaries.Valid() && summaries.withId == SummaryWithId
    requires relationships.Valid() && relationships.withId == RelationshipWithId
    modifies summaries, relationships
    ensures summaries.Valid() && relationships.Valid()
    ensures GroupSaved(CollectionSummaryDraft(definition, collectionId, text, config), collectionId, entityCount,
      summaries.rejects, relationships.rejects, old(summaries.nextId), old(relationships.nextId),
      old(summaries.rows), summaries.rows, old(relationships.rows), relationships.rows, r)
  {
    var summaryRows := summaries.rows;
    var savedSummary := summaries.Insert(CollectionSummaryDraft(definition, collectionId, text, config));
    if savedSummary.Err? {
      return Err(savedSummary.error);
    }
    var savedLink := relationships.Insert(SummarizesLink(savedSummary.value, collectionId));
    if savedLink.Err? {
      // The exception escapes the transaction, which undoes the summary insert.
      summaries.Rollback(summaryRows);
      return Err(savedLink.error);
    }
    r := Ok(SummarizeGroupResult(savedSummary.value, collectionId, entityCount));
  }

  /**
   * What a summarizeCollection call leaves behind: no model call without a
   * definition; at most one model call in any case; a failed call keeps
   * neither table changed (the transaction is all or nothing); a successful
   * call adds exactly one summary about the collection, with the reported
   * id, and one "summarizes" link from that summary to the collection, and
   * reports the number of members.
   */
  lemma GroupSummaryEffects(relationships0: seq<Relationship>, collectionId: int, configId: Option<int>,
                            configs: map<int, ModelConfiguration>, respond: (nat, ChatRequest) -> Reply,
                            summaryRejects: Summary -> Option<Exception>,
                            linkRejects: Relationship -> Option<Exception>, summaryNext: int, linkNext: int,
                            requests0: seq<ChatRequest>, requests: seq<ChatRequest>,
                            summaries0: seq<Summary>, summaries: seq<Summary>,
                            relationships: seq<Relationship>, r: Result<SummarizeGroupResult>)
    requires GroupSummarized(relationships0, collectionId, configId, configs, respond, summaryRejects, linkRejects,
      summaryNext, linkNext, requests0, requests, summaries0, summaries, relationships, r)
    ensures CollectionDefinitions(relationships0, collectionId) == [] ==> requests == requests0
    ensures |requests0| <= |requests| <= |requests0| + 1
    ensures r.Err? ==> summaries == summaries0 && relationships == relationships0
    ensures r.Ok? ==>
      && r.value.collectionId == collectionId
      && r.value.entityCount == |CollectionMembers(relationships0, collectionId)|
      && |summaries| == |summaries0| + 1 && |relationships| == |relationships0| + 1
      && var summary, link := summaries[|summaries0|], relationships[|relationships0|];
      && summary.id == r.value.summaryId
      && summary.entityType == Some("collection") && summary.entityId == Some(collectionId)
      && link.relationshipType == "summarizes"
      && link.sourceType == Some("summary") && link.sourceId == r.value.summaryId
      && link.targetType == Some("collection") && link.targetId == collectionId
  {
  }

  /**
   * When summarizeCollection succeeds: exactly when the collection has a
   * definition, the configuration resolves, the model replies and both
   * stores accept their rows. So a reply whose two rows are accepted is
   * always saved and reported.
   */
  lemma GroupSavedIffAccepted(relationships0: seq<Relationship>, collectionId: int, configId: Option<int>,
                              configs: map<int, ModelConfiguration>, respond: (nat, ChatRequest) -> Reply,
                              summaryRejects: Summary -> Option<Exception>,
                              linkRejects: Relationship -> Option<Exception>, summaryNext: int, linkNext: int,
                              requests0: seq<ChatRequest>, requests: seq<ChatRequest>,
                              summaries0: seq<Summary>, summaries: seq<Summary>,
                              relationships: seq<Relationship>, r: Result<SummarizeGroupResult>)
    requires GroupSummarized(relationships0, collectionId, configId, configs, respond, summaryRejects, linkRejects,
      summaryNext, linkNext, requests0, requests, summaries0, summaries, relationships, r)
    ensures r.Ok? <==>
      && CollectionDefinitions(relationships0, collectionId) != []
      && FindConfigurationById(configs, configId).Ok?
      && |requests| == |requests0| + 1
      && ReplyResult(respond(|requests0|, requests[|requests0|])).Ok?
      && summaryRejects(SummaryWithId(CollectionSummaryDraft(CollectionDefinitions(relationships0, collectionId)[0],
           collectionId, ReplyResult(respond(|requests0|, requests[|requests0|])).value,
           FindConfigurationById(configs, configId).value), summaryNext)).None?
      && linkRejects(RelationshipWithId(SummarizesLink(summaryNext, collectionId), linkNext)).None?
    ensures r.Ok? ==> r.value.summaryId == summaryNext
  {
  }
}
